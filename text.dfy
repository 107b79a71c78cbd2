/** The few Python string operations the generator and the importer rely on:
    `str.isspace`, `str.strip`, `str.split()`, `str.split(sep)`, `sub in s`,
    `str.replace(pat, '')`, `sep.join(parts)` and decimal digit strings. */
module Text {

  /** The characters for which Python's `str.isspace()` holds; `strip()` and
      `split()` without arguments cut on exactly these. */
  predicate IsSpace(c: char) {
    || c == ' '
    || ('\U{9}' <= c <= '\U{D}')
    || ('\U{1C}' <= c <= '\U{1F}')
    || c == '\U{85}' || c == '\U{A0}' || c == '\U{1680}'
    || ('\U{2000}' <= c <= '\U{200A}')
    || c == '\U{2028}' || c == '\U{2029}' || c == '\U{202F}' || c == '\U{205F}' || c == '\U{3000}'
  }

  predicate NoSpace(s: string) {
    forall i :: 0 <= i < |s| ==> !IsSpace(s[i])
  }

  /** `s.lstrip()` */
  function StripLeft(s: string): (r: string)
    ensures |r| <= |s|
    ensures r == [] || !IsSpace(r[0])
  {
    if s != [] && IsSpace(s[0]) then StripLeft(s[1..]) else s
  }

  /** `s.rstrip()` */
  function StripRight(s: string): (r: string)
    ensures |r| <= |s| && r == s[..|r|]
    ensures r == [] || !IsSpace(r[|r| - 1])
  {
    if s != [] && IsSpace(s[|s| - 1]) then StripRight(s[..|s| - 1]) else s
  }

  /** `s.strip()` */
  function Strip(s: string): (r: string)
    ensures r == [] || (!IsSpace(r[0]) && !IsSpace(r[|r| - 1]))
  {
    StripRight(StripLeft(s))
  }

  /** The end of the run of non-space characters that starts at `i`. */
  function WordEnd(s: string, i: nat): (j: nat)
    requires i <= |s|
    ensures i <= j <= |s|
    ensures forall k :: i <= k < j ==> !IsSpace(s[k])
    ensures j == |s| || IsSpace(s[j])
    decreases |s| - i
  {
    if i == |s| || IsSpace(s[i]) then i else WordEnd(s, i + 1)
  }

  /** `s.split()`: the maximal runs of non-space characters, in order. */
  function Words(s: string): (ws: seq<string>)
    ensures forall k :: 0 <= k < |ws| ==> ws[k] != [] && NoSpace(ws[k])
    decreases |s|
  {
    var t := StripLeft(s);
    if t == [] then []
    else
      var n := WordEnd(t, 0);
      assert n > 0 by { assert !IsSpace(t[0]); }
      var w := t[..n];
      assert NoSpace(w) by {
        forall i | 0 <= i < |w| ensures !IsSpace(w[i]) { assert w[i] == t[i]; }
      }
      var rest := Words(t[n..]);
      [w] + rest
  }

  /** Space-separated words split back into the same words: `" ".join(ws).split() == ws`. */
  lemma {:induction false} WordsOfJoin(ws: seq<string>)
    requires forall k :: 0 <= k < |ws| ==> ws[k] != [] && NoSpace(ws[k])
    ensures Words(Join(ws, " ")) == ws
  {
    if |ws| == 1 {
      WordsOfWordThen(ws[0], []);
      assert ws[0] + [] == ws[0];
    } else if |ws| > 1 {
      var tail := Join(ws[1..], " ");
      assert Join(ws, " ") == ws[0] + (" " + tail);
      WordsOfWordThen(ws[0], " " + tail);
      WordsAfterSpace(tail);
      WordsOfJoin(ws[1..]);
      assert ws == [ws[0]] + ws[1..];
    }
  }

  /** A word followed by nothing or by white space splits off as the first word. */
  lemma WordsOfWordThen(w: string, rest: string)
    requires w != [] && NoSpace(w)
    requires rest == [] || IsSpace(rest[0])
    ensures Words(w + rest) == [w] + Words(rest)
  {
    var s := w + rest;
    assert StripLeft(s) == s;
    WordEndOfWord(w, 0, rest);
    assert s[..|w|] == w;
    assert s[|w|..] == rest;
  }

  /** Leading white space does not change the words. */
  lemma WordsAfterSpace(s: string)
    ensures Words(" " + s) == Words(s)
  {
    assert StripLeft(" " + s) == StripLeft(s) by {
      assert (" " + s)[1..] == s;
    }
  }

  lemma {:induction false} WordEndOfWord(w: string, i: nat, rest: string)
    requires i <= |w| && NoSpace(w)
    requires rest == [] || IsSpace(rest[0])
    ensures WordEnd(w + rest, i) == |w|
    decreases |w| - i
  {
    if i < |w| {
      assert (w + rest)[i] == w[i];
      WordEndOfWord(w, i + 1, rest);
    } else if rest != [] {
      assert (w + rest)[i] == rest[0];
    }
  }

  /** `sep.join(parts)` */
  function Join(parts: seq<string>, sep: string): (r: string)
    ensures |parts| == 1 ==> r == parts[0]
  {
    if |parts| == 0 then ""
    else if |parts| == 1 then parts[0]
    else parts[0] + sep + Join(parts[1..], sep)
  }

  /** A join ends with its last part. */
  lemma {:induction false} JoinEndsWithLast(parts: seq<string>, sep: string)
    requires |parts| >= 1
    ensures |parts[|parts| - 1]| <= |Join(parts, sep)|
    ensures Join(parts, sep)[|Join(parts, sep)| - |parts[|parts| - 1]|..] == parts[|parts| - 1]
  {
    if |parts| > 1 {
      JoinEndsWithLast(parts[1..], sep);
      assert parts[1..][|parts| - 2] == parts[|parts| - 1];
      var rest := Join(parts[1..], sep);
      var head := parts[0] + sep;
      assert Join(parts, sep) == head + rest;
      assert (head + rest)[|head + rest| - |parts[|parts| - 1]|..] == rest[|rest| - |parts[|parts| - 1]|..];
    }
  }

  /** Where the `i`-th part starts in `Join(parts, sep)`: the lengths of the
      parts before it, each followed by a separator. */
  function Offset(parts: seq<string>, sepLen: nat, i: nat): nat
    requires i <= |parts|
  {
    if i == 0 then 0 else Offset(parts, sepLen, i - 1) + |parts[i - 1]| + sepLen
  }

  lemma {:induction false} OffsetShift(parts: seq<string>, sepLen: nat, i: nat)
    requires 1 <= i <= |parts|
    ensures Offset(parts, sepLen, i) == |parts[0]| + sepLen + Offset(parts[1..], sepLen, i - 1)
  {
    if i > 1 {
      OffsetShift(parts, sepLen, i - 1);
      assert parts[1..][i - 2] == parts[i - 1];
    }
  }

  /** A joined text is as long as its parts and the separators between them. */
  lemma {:induction false} JoinLength(parts: seq<string>, sep: string)
    requires parts != []
    ensures |Join(parts, sep)| + |sep| == Offset(parts, |sep|, |parts|)
  {
    OffsetShift(parts, |sep|, |parts|);
    if |parts| > 1 {
      JoinLength(parts[1..], sep);
    }
  }

  lemma {:induction false} OffsetMonotone(parts: seq<string>, sepLen: nat, i: nat, k: nat)
    requires i <= k <= |parts|
    ensures Offset(parts, sepLen, i) <= Offset(parts, sepLen, k)
    decreases k
  {
    if i < k {
      OffsetMonotone(parts, sepLen, i, k - 1);
    }
  }

  lemma SliceAfter(a: string, b: string, lo: nat, hi: nat)
    requires lo <= hi <= |b|
    ensures (a + b)[|a| + lo..|a| + hi] == b[lo..hi]
  {
  }

  /** The `i`-th part of a joined text sits at its offset, followed by a
      separator unless it is the last. */
  lemma {:induction false} JoinLayout(parts: seq<string>, sep: string, i: nat)
    requires i < |parts|
    ensures Offset(parts, |sep|, i) + |parts[i]| <= |Join(parts, sep)|
    ensures i + 1 < |parts| ==> Offset(parts, |sep|, i + 1) <= |Join(parts, sep)|
    ensures Join(parts, sep)[Offset(parts, |sep|, i)..Offset(parts, |sep|, i) + |parts[i]|] == parts[i]
    ensures i + 1 < |parts| ==>
      Join(parts, sep)[Offset(parts, |sep|, i) + |parts[i]|..Offset(parts, |sep|, i + 1)] == sep
    decreases |parts|, 1
  {
    JoinBounds(parts, sep, i);
    if |parts| > 1 {
      if i == 0 {
        JoinLayoutFirst(parts, sep);
      } else {
        JoinLayoutLater(parts, sep, i);
        if i + 1 < |parts| {
          JoinSeparatorLater(parts, sep, i);
        }
      }
    }
  }

  lemma JoinBounds(parts: seq<string>, sep: string, i: nat)
    requires i < |parts|
    ensures Offset(parts, |sep|, i) + |parts[i]| <= |Join(parts, sep)|
    ensures i + 1 < |parts| ==> Offset(parts, |sep|, i + 1) <= |Join(parts, sep)|
  {
    JoinLength(parts, sep);
    OffsetMonotone(parts, |sep|, i + 1, |parts|);
    if i + 1 < |parts| {
      OffsetMonotone(parts, |sep|, i + 2, |parts|);
    }
  }

  lemma JoinLayoutFirst(parts: seq<string>, sep: string)
    requires |parts| > 1
    ensures |parts[0]| + |sep| <= |Join(parts, sep)|
    ensures Join(parts, sep)[..|parts[0]|] == parts[0]
    ensures Join(parts, sep)[|parts[0]|..|parts[0]| + |sep|] == sep
    ensures Offset(parts, |sep|, 1) == |parts[0]| + |sep|
  {
    assert Join(parts, sep) == parts[0] + sep + Join(parts[1..], sep);
  }

  lemma {:induction false} JoinLayoutLater(parts: seq<string>, sep: string, i: nat)
    requires 0 < i < |parts|
    requires Offset(parts, |sep|, i) + |parts[i]| <= |Join(parts, sep)|
    ensures Join(parts, sep)[Offset(parts, |sep|, i)..Offset(parts, |sep|, i) + |parts[i]|] == parts[i]
    decreases |parts|, 0
  {
    var rest := parts[1..];
    JoinLayout(rest, sep, i - 1);
    assert rest[i - 1] == parts[i];
    OffsetShift(parts, |sep|, i);
    JoinSlice(parts, sep, Offset(rest, |sep|, i - 1), Offset(rest, |sep|, i - 1) + |parts[i]|);
  }

  lemma {:induction false} JoinSeparatorLater(parts: seq<string>, sep: string, i: nat)
    requires 0 < i && i + 1 < |parts|
    requires Offset(parts, |sep|, i + 1) <= |Join(parts, sep)|
    ensures Offset(parts, |sep|, i) + |parts[i]| <= Offset(parts, |sep|, i + 1)
    ensures Join(parts, sep)[Offset(parts, |sep|, i) + |parts[i]|..Offset(parts, |sep|, i + 1)] == sep
    decreases |parts|, 0
  {
    var rest := parts[1..];
    JoinLayout(rest, sep, i - 1);
    assert rest[i - 1] == parts[i];
    OffsetShift(parts, |sep|, i);
    OffsetShift(parts, |sep|, i + 1);
    JoinSlice(parts, sep, Offset(rest, |sep|, i - 1) + |parts[i]|, Offset(rest, |sep|, i));
  }

  /** A slice of the joined tail, shifted past the first part and separator. */
  lemma JoinSlice(parts: seq<string>, sep: string, lo: nat, hi: nat)
    requires |parts| > 1 && lo <= hi <= |Join(parts[1..], sep)|
    ensures |parts[0]| + |sep| + hi <= |Join(parts, sep)|
    ensures Join(parts, sep)[|parts[0]| + |sep| + lo..|parts[0]| + |sep| + hi] == Join(parts[1..], sep)[lo..hi]
  {
    var head := parts[0] + sep;
    assert Join(parts, sep) == head + Join(parts[1..], sep);
    SliceAfter(head, Join(parts[1..], sep), lo, hi);
  }

  /** The first position of `c` in `s`. */
  function IndexOf(s: string, c: char): (i: nat)
    requires c in s
    ensures i < |s| && s[i] == c && c !in s[..i]
  {
    if s[0] == c then 0 else 1 + IndexOf(s[1..], c)
  }

  /** `s.split(sep)` for a one-character separator: never empty, and no part
      holds the separator. */
  function SplitOn(s: string, sep: char): (parts: seq<string>)
    ensures |parts| >= 1
    ensures forall k :: 0 <= k < |parts| ==> sep !in parts[k]
    decreases |s|
  {
    if sep !in s then [s]
    else
      var i := IndexOf(s, sep);
      [s[..i]] + SplitOn(s[i + 1..], sep)
  }

  /** Splitting undoes joining when no part holds the separator. */
  lemma {:induction false} SplitOnJoin(parts: seq<string>, sep: char)
    requires |parts| >= 1
    requires forall k :: 0 <= k < |parts| ==> sep !in parts[k]
    ensures SplitOn(Join(parts, [sep]), sep) == parts
  {
    if |parts| > 1 {
      var s := Join(parts, [sep]);
      assert s == parts[0] + [sep] + Join(parts[1..], [sep]);
      assert s[|parts[0]|] == sep;
      assert s[..|parts[0]|] == parts[0];
      assert IndexOf(s, sep) == |parts[0]| by {
        IndexOfFirst(s, sep, |parts[0]|);
      }
      assert s[|parts[0]| + 1..] == Join(parts[1..], [sep]);
      SplitOnJoin(parts[1..], sep);
      assert parts == [parts[0]] + parts[1..];
    }
  }

  lemma {:induction false} IndexOfFirst(s: string, c: char, i: nat)
    requires i < |s| && s[i] == c && c !in s[..i]
    ensures IndexOf(s, c) == i
  {
    if i > 0 {
      assert s[0] == s[..i][0];
      assert s[1..][..i - 1] == s[..i][1..];
      IndexOfFirst(s[1..], c, i - 1);
    }
  }

  /** Python's `sub in s`. */
  predicate Contains(s: string, sub: string)
    decreases |s|
  {
    sub <= s || (s != [] && Contains(s[1..], sub))
  }

  /** `s.replace(pat, '')`: occurrences removed left to right, without overlap. */
  function RemoveAll(s: string, pat: string): (r: string)
    requires pat != []
    ensures |r| <= |s|
    decreases |s|
  {
    if |s| < |pat| then s
    else if s[..|pat|] == pat then RemoveAll(s[|pat|..], pat)
    else [s[0]] + RemoveAll(s[1..], pat)
  }

  /** A string in which the pattern does not occur is left as it is. */
  lemma {:induction false} RemoveAllAbsent(s: string, pat: string)
    requires pat != [] && !Contains(s, pat)
    ensures RemoveAll(s, pat) == s
    decreases |s|
  {
    if |s| >= |pat| {
      assert s[..|pat|] != pat by { assert !(pat <= s); }
      RemoveAllAbsent(s[1..], pat);
      assert s == [s[0]] + s[1..];
    }
  }

  /** A head lacking the pattern's first character passes through unchanged. */
  lemma {:induction false} RemoveAllAfter(head: string, s: string, pat: string)
    requires pat != [] && pat[0] !in head
    ensures RemoveAll(head + s, pat) == head + RemoveAll(s, pat)
    decreases |head|
  {
    if head != [] {
      var t := head + s;
      assert t[0] == head[0];
      if |t| >= |pat| {
        assert t[..|pat|] != pat by { assert t[..|pat|][0] != pat[0]; }
      }
      assert head[1..] + s == t[1..];
      RemoveAllAfter(head[1..], s, pat);
      assert head == [head[0]] + head[1..];
    } else {
      assert head + s == s;
    }
  }

  /** The first part of a split is everything before the first separator. */
  lemma SplitAfterFirst(head: string, tail: string, sep: char)
    requires sep !in head
    ensures SplitOn(head + [sep] + tail, sep) == [head] + SplitOn(tail, sep)
  {
    var s := head + [sep] + tail;
    assert s[..|head|] == head;
    IndexOfFirst(s, sep, |head|);
    assert s[|head| + 1..] == tail;
  }

  // ---- decimal digits ----

  predicate IsDigit(c: char) {
    '0' <= c <= '9'
  }

  predicate AllDigits(s: string) {
    forall i :: 0 <= i < |s| ==> IsDigit(s[i])
  }

  function DigitChar(d: nat): (c: char)
    requires d < 10
    ensures IsDigit(c) && (c as int) - ('0' as int) == d
  {
    ('0' as int + d) as char
  }

  /** The number a string of decimal digits spells (leading zeros allowed). */
  function DigitsValue(s: string): nat
    requires AllDigits(s)
  {
    if s == [] then 0 else 10 * DigitsValue(s[..|s| - 1]) + ((s[|s| - 1] as int) - ('0' as int))
  }

  /** `str(n)` for a natural number: digits without leading zeros that spell `n`. */
  function NatDigits(n: nat): (s: string)
    ensures s != [] && AllDigits(s) && DigitsValue(s) == n
    ensures |s| > 1 ==> s[0] != '0'
  {
    if n < 10 then [DigitChar(n)]
    else
      var s := NatDigits(n / 10) + [DigitChar(n % 10)];
      assert s[..|s| - 1] == NatDigits(n / 10);
      s
  }

  function Zeros(k: nat): (s: string)
    ensures |s| == k && AllDigits(s)
  {
    if k == 0 then [] else Zeros(k - 1) + ['0']
  }

  /** Leading zeros do not change the value of a digit string. */
  lemma {:induction false} DigitsValueZeros(k: nat, s: string)
    requires AllDigits(s)
    ensures AllDigits(Zeros(k) + s) && DigitsValue(Zeros(k) + s) == DigitsValue(s)
    decreases |s|
  {
    if s == [] {
      ZerosValue(k);
      assert Zeros(k) + s == Zeros(k);
    } else {
      var z := Zeros(k) + s;
      assert z[..|z| - 1] == Zeros(k) + s[..|s| - 1];
      DigitsValueZeros(k, s[..|s| - 1]);
    }
  }

  lemma {:induction false} ZerosValue(k: nat)
    ensures DigitsValue(Zeros(k)) == 0
  {
    if k > 0 {
      assert Zeros(k)[..k - 1] == Zeros(k - 1);
      ZerosValue(k - 1);
    }
  }

  /** The value of two digit strings written one after the other. */
  lemma {:induction false} DigitsValueAppend(a: string, b: string)
    requires AllDigits(a) && AllDigits(b)
    ensures AllDigits(a + b) && DigitsValue(a + b) == DigitsValue(a) * Pow10(|b|) + DigitsValue(b)
    decreases |b|
  {
    if b == [] {
      assert a + b == a;
    } else {
      var ab := a + b;
      var front := b[..|b| - 1];
      var d := (b[|b| - 1] as int) - ('0' as int);
      assert ab[..|ab| - 1] == a + front;
      assert ab[|ab| - 1] == b[|b| - 1];
      DigitsValueAppend(a, front);
      assert DigitsValue(ab) == 10 * DigitsValue(a + front) + d;
      assert DigitsValue(b) == 10 * DigitsValue(front) + d;
      assert Pow10(|b|) == 10 * Pow10(|front|);
      ShiftDigit(DigitsValue(a), Pow10(|front|), DigitsValue(front), d);
    }
  }

  lemma ShiftDigit(x: int, p: int, f: int, d: int)
    ensures 10 * (x * p + f) + d == x * (10 * p) + (10 * f + d)
  {
  }

  /** `n` written with at least `width` digits, zero-padded on the left
      (`%0<width>d`, as `strftime` writes `%m` and `%d`). */
  function PadDigits(n: nat, width: nat): (s: string)
    ensures AllDigits(s) && DigitsValue(s) == n && |s| >= width
    ensures |NatDigits(n)| <= width ==> |s| == width
  {
    var d := NatDigits(n);
    var z := if |d| < width then width - |d| else 0;
    DigitsValueZeros(z, d);
    Zeros(z) + d
  }

  function Pow10(k: nat): (p: nat)
    ensures p >= 1
  {
    if k == 0 then 1 else 10 * Pow10(k - 1)
  }

  /** Numbers below 10 have one digit, below 100 at most two, and so on. */
  lemma {:induction false} NatDigitsLength(n: nat, k: nat)
    requires n < Pow10(k) && k >= 1
    ensures |NatDigits(n)| <= k
  {
    if n >= 10 {
      assert Pow10(1) == 10;
      assert n / 10 < Pow10(k - 1);
      NatDigitsLength(n / 10, k - 1);
    }
  }
}
