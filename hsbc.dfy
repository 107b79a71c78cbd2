/** The filename logic of the HSBC current-account importer
    (chapter-3/importers/hsbc.py): which files it claims, the account and
    name it reports, and the statement month read from a file name such as
    `statement-2024-01.csv`. Paths are POSIX path strings, read the way
    `pathlib.PurePosixPath` reads them. */
module HsbcImporter {
  import opened Wrappers
  import opened Text
  import opened Calendar

  /** `HsbcCurrentImporter(account)`: the importer's only state is the
      account it was constructed with. */
  datatype HsbcCurrentImporter = HsbcCurrentImporter(account: string)

  // ---- paths, as pathlib reads them ----

  /** The components pathlib keeps: empty ones (from repeated or trailing
      slashes) and `.` are dropped. */
  function KeptComponents(parts: seq<string>): (cs: seq<string>)
    ensures forall c <- cs :: c != "" && c != "." && c in parts
  {
    if parts == [] then []
    else
      var rest := KeptComponents(parts[1..]);
      if parts[0] == "" || parts[0] == "." then rest
      else [parts[0]] + rest
  }

  /** Components that are all plain are all kept. */
  lemma {:induction false} KeptAll(parts: seq<string>)
    requires forall k :: 0 <= k < |parts| ==> parts[k] != "" && parts[k] != "."
    ensures KeptComponents(parts) == parts
  {
    if parts != [] {
      KeptAll(parts[1..]);
      assert parts == [parts[0]] + parts[1..];
    }
  }

  function Components(path: string): seq<string> {
    KeptComponents(SplitOn(path, '/'))
  }

  /** The root pathlib keeps: `//` for exactly two leading slashes, `/` for
      one or for three or more, nothing for a relative path. */
  function Root(path: string): string {
    if |path| >= 2 && path[..2] == "//" && !(|path| >= 3 && path[2] == '/') then "//"
    else if path != [] && path[0] == '/' then "/"
    else ""
  }

  /** `str(Path(path))`: the root and the kept components joined by `/`, or
      `.` when both are empty. */
  function PathString(path: string): string {
    var s := Root(path) + Join(Components(path), "/");
    if s == "" then "." else s
  }

  /** `Path(path).name`: the last kept component, or empty. */
  function Name(path: string): string {
    var cs := Components(path);
    if cs == [] then "" else cs[|cs| - 1]
  }

  /** `s.rfind(c)`: the index of the last `c` in `s`, or -1. */
  function RFind(s: string, c: char): (i: int)
    ensures -1 <= i < |s|
    ensures i >= 0 ==> s[i] == c && forall j :: i < j < |s| ==> s[j] != c
    ensures i == -1 ==> c !in s
  {
    if s == [] then -1
    else if s[|s| - 1] == c then |s| - 1
    else RFind(s[..|s| - 1], c)
  }

  /** A dot that starts a suffix: not the first character and not the last. */
  predicate HasSuffixDot(name: string) {
    0 < RFind(name, '.') < |name| - 1
  }

  /** `PurePath.suffix` of a name. */
  function Suffix(name: string): string {
    if HasSuffixDot(name) then name[RFind(name, '.')..] else ""
  }

  /** `PurePath.stem` of a name. */
  function Stem(name: string): string {
    if HasSuffixDot(name) then name[..RFind(name, '.')] else name
  }

  /** A name's suffix is `.csv` exactly when the name ends in `.csv` and has
      something before it. */
  lemma SuffixIsCsv(name: string)
    ensures Suffix(name) == ".csv" <==> |name| > 4 && name[|name| - 4..] == ".csv"
  {
    if |name| > 4 && name[|name| - 4..] == ".csv" {
      var i := |name| - 4;
      assert name[i] == '.';
      assert forall j :: i < j < |name| ==> name[j] != '.' by {
        assert name[i + 1..] == "csv";
      }
      assert RFind(name, '.') == i;
    }
  }

  // ---- the importer ----

  /** `name()` */
  function ImporterName(imp: HsbcCurrentImporter): (n: string)
    ensures n == "hsbc_current"
  {
    "hsbc_current"
  }

  /** `account(filepath)`: the account given at construction, for every file. */
  function Account(imp: HsbcCurrentImporter, path: string): (a: string)
    ensures a == imp.account
  {
    imp.account
  }

  /** `identify(filepath)`: a `.csv` file whose path mentions `hsbc-current`. */
  function Identify(imp: HsbcCurrentImporter, path: string): (claimed: bool)
  {
    if Suffix(Name(path)) != ".csv" then false
    else if !Contains(PathString(path), "hsbc-current") then false
    else true
  }

  /** The importer claims a file exactly when its name ends in `.csv` after
      at least one other character, and its path mentions `hsbc-current`. */
  lemma IdentifyIff(imp: HsbcCurrentImporter, path: string)
    ensures Identify(imp, path) <==>
      && |Name(path)| > 4 && Name(path)[|Name(path)| - 4..] == ".csv"
      && Contains(PathString(path), "hsbc-current")
  {
    SuffixIsCsv(Name(path));
  }

  /** Python's `int(s)` for a decimal numeral: surrounding whitespace, an
      optional sign, and at least one ASCII digit; None where Python raises
      ValueError. */
  function ParseInt(s: string): (r: Option<int>)
  {
    var t := Strip(s);
    if t != [] && (t[0] == '+' || t[0] == '-') then
      var digits := t[1..];
      if digits != [] && AllDigits(digits) then
        var v: int := DigitsValue(digits);
        Some(if t[0] == '-' then -v else v)
      else None
    else if t != [] && AllDigits(t) then Some(DigitsValue(t))
    else None
  }

  /** The ValueError `date` can raise: from `int()` on a part of the name,
      or from `datetime.date` on a month that does not exist. */
  datatype DateError = NotAnInteger(word: string) | NoSuchMonth(year: int, month: int)

  const StatementTag: string := "statement-"

  /** `date(filepath)`: for a stem mentioning `statement-`, every occurrence
      is removed and the rest split on `-`; with at least two parts, the first
      day of the month they name. Otherwise the date of the day, which the
      caller passes in. */
  function FileDate(imp: HsbcCurrentImporter, path: string, today: Date): (r: Result<Date, DateError>)
    ensures r.Ok? ==> r.value.day == 1 || r.value == today
    ensures (&& Contains(Stem(Name(path)), StatementTag)
             && |SplitOn(RemoveAll(Stem(Name(path)), StatementTag), '-')| >= 2
             && r.Ok?) ==> r.value.day == 1
  {
    var stem := Stem(Name(path));
    if Contains(stem, StatementTag) then
      var parts := SplitOn(RemoveAll(stem, StatementTag), '-');
      if |parts| >= 2 then
        match ParseInt(parts[0])
        case None => Err(NotAnInteger(parts[0]))
        case Some(y) =>
          match ParseInt(parts[1])
          case None => Err(NotAnInteger(parts[1]))
          case Some(m) =>
            match MakeDate(y, m, 1)
            case None => Err(NoSuchMonth(y, m))
            case Some(d) => Ok(d)
      else Ok(today)
    else Ok(today)
  }

  /** A file whose stem does not mention `statement-`, or whose stem leaves
      fewer than two `-`-separated parts once the tag is removed, is dated today. */
  lemma UntaggedIsToday(imp: HsbcCurrentImporter, path: string, today: Date)
    requires || !Contains(Stem(Name(path)), StatementTag)
             || |SplitOn(RemoveAll(Stem(Name(path)), StatementTag), '-')| < 2
    ensures FileDate(imp, path, today) == Ok(today)
  {
  }

  /** Every occurrence of `statement-` is removed, not only a leading one, so
      a file named `<word>-statement-...csv`, for a word of lower-case
      letters other than `s` such as `bank-statement-2024-01.csv`, reaches
      `int()` with the word in front and raises, where a name without the tag
      falls back to today. (A word containing the tag itself, as in
      `statement-statement-2024-01.csv`, is removed with it.) */
  lemma PrefixedStatementRaises(imp: HsbcCurrentImporter, dirs: seq<string>, word: string, rest: string, today: Date)
    requires forall c <- dirs :: IsDirName(c)
    requires IsLowerWord(word)
    requires '/' !in rest
    ensures FileDate(imp, Join(dirs + [word + "-" + StatementTag + rest + ".csv"], "/"), today)
            == Err(NotAnInteger(word))
  {
    var stem := word + "-" + StatementTag + rest;
    assert word[0] in word;
    assert '/' !in word && '/' !in StatementTag;
    NameOfJoin(dirs, stem + ".csv");
    StemOfCsv(stem);
    TaggedStem(word, rest);
    SplitAfterFirst(word, RemoveAll(rest, StatementTag), '-');
    WordIsNotInteger(word);
  }

  /** A non-empty word of lower-case letters other than `s`. */
  predicate IsLowerWord(word: string) {
    word != [] && forall c <- word :: 'a' <= c <= 'z' && c != 's'
  }

  lemma TaggedStem(word: string, rest: string)
    requires IsLowerWord(word)
    ensures Contains(word + "-" + StatementTag + rest, StatementTag)
    ensures RemoveAll(word + "-" + StatementTag + rest, StatementTag)
            == word + "-" + RemoveAll(rest, StatementTag)
  {
    var stem := word + "-" + StatementTag + rest;
    assert stem[|word| + 1..|word| + 1 + |StatementTag|] == StatementTag;
    ContainsAt(stem, StatementTag, |word| + 1);
    assert StatementTag[0] !in word + "-";
    var tagged := StatementTag + rest;
    assert stem == (word + "-") + tagged;
    RemoveAllAfter(word + "-", tagged, StatementTag);
    assert tagged[..|StatementTag|] == StatementTag;
    assert tagged[|StatementTag|..] == rest;
  }

  lemma WordIsNotInteger(word: string)
    requires IsLowerWord(word)
    ensures ParseInt(word) == None
  {
    assert word[0] in word && word[|word| - 1] in word;
    assert StripLeft(word) == word;
    assert Strip(word) == word;
  }

  // ---- statement files ----

  /** `statement-YYYY-MM.csv` */
  function StatementName(year: nat, month: nat): string {
    StatementTag + PadDigits(year, 4) + "-" + PadDigits(month, 2) + ".csv"
  }

  /** A path of directories ending in a statement file. */
  function StatementPath(dirs: seq<string>, year: nat, month: nat): string {
    Join(dirs + [StatementName(year, month)], "/")
  }

  predicate IsDirName(c: string) {
    c != "" && c != "." && '/' !in c
  }

  /** A statement file is dated the first of its month, whatever directories
      lead to it. */
  lemma StatementFileDate(imp: HsbcCurrentImporter, dirs: seq<string>, year: nat, month: nat, today: Date)
    requires forall c <- dirs :: IsDirName(c)
    requires IsValid(Ymd(year, month, 1))
    ensures FileDate(imp, StatementPath(dirs, year, month), today) == Ok(Ymd(year, month, 1))
  {
    var y, m := PadDigits(year, 4), PadDigits(month, 2);
    StatementStem(dirs, year, month);
    StatementParts(year, month);
    DigitsParse(y);
    DigitsParse(m);
  }

  /** The stem of a statement file is `statement-YYYY-MM`, and it mentions the tag. */
  lemma StatementStem(dirs: seq<string>, year: nat, month: nat)
    requires forall c <- dirs :: IsDirName(c)
    ensures Stem(Name(StatementPath(dirs, year, month))) == StatementTag + PadDigits(year, 4) + "-" + PadDigits(month, 2)
    ensures Contains(StatementTag + PadDigits(year, 4) + "-" + PadDigits(month, 2), StatementTag)
  {
    var name := StatementName(year, month);
    StatementNameFacts(year, month);
    NameOfJoin(dirs, name);
    var stem := StatementTag + PadDigits(year, 4) + "-" + PadDigits(month, 2);
    assert name == stem + ".csv";
    StemOfCsv(stem);
    assert stem[..|StatementTag|] == StatementTag;
  }

  /** Removing the tag from `statement-YYYY-MM` and splitting on `-` gives the
      year and month digits. */
  lemma StatementParts(year: nat, month: nat)
    ensures var y, m := PadDigits(year, 4), PadDigits(month, 2);
      SplitOn(RemoveAll(StatementTag + y + "-" + m, StatementTag), '-') == [y, m]
  {
    var y, m := PadDigits(year, 4), PadDigits(month, 2);
    var stem := StatementTag + y + "-" + m;
    var rest := y + "-" + m;
    assert stem == StatementTag + rest;
    assert stem[..|StatementTag|] == StatementTag;
    assert stem[|StatementTag|..] == rest;
    StatementNameFacts(year, month);
    MissingFirstChar(rest, StatementTag);
    RemoveAllAbsent(rest, StatementTag);
    NoDashInDigits(y);
    NoDashInDigits(m);
    assert Join([y, m], "-") == rest;
    SplitOnJoin([y, m], '-');
  }

  lemma StatementNameFacts(year: nat, month: nat)
    ensures '/' !in StatementName(year, month)
    ensures StatementName(year, month) != "" && StatementName(year, month) != "."
    ensures forall c <- PadDigits(year, 4) + "-" + PadDigits(month, 2) :: IsDigit(c) || c == '-'
  {
    var y, m := PadDigits(year, 4), PadDigits(month, 2);
    assert forall c <- y :: IsDigit(c);
    assert forall c <- m :: IsDigit(c);
  }

  /** The name of a path joined from plain components is its last component. */
  lemma NameOfJoin(dirs: seq<string>, name: string)
    requires forall c <- dirs :: IsDirName(c)
    requires IsDirName(name)
    ensures Name(Join(dirs + [name], "/")) == name
  {
    ComponentsOfJoin(dirs + [name]);
  }

  /** The stem of `<stem>.csv` is `<stem>`, for a non-empty stem. */
  lemma StemOfCsv(stem: string)
    requires stem != []
    ensures Stem(stem + ".csv") == stem
  {
    var name := stem + ".csv";
    var i := |stem|;
    assert name[i] == '.';
    assert forall j :: i < j < |name| ==> name[j] != '.' by {
      assert name[i + 1..] == "csv";
    }
    assert RFind(name, '.') == i;
    assert name[..i] == stem;
  }

  /** A text lacking a pattern's first character does not contain it. */
  lemma {:induction false} MissingFirstChar(s: string, pat: string)
    requires pat != [] && pat[0] !in s
    ensures !Contains(s, pat)
    decreases |s|
  {
    if s != [] {
      MissingFirstChar(s[1..], pat);
    }
  }

  /** `int()` reads a run of ASCII digits as its value. */
  lemma DigitsParse(s: string)
    requires s != [] && AllDigits(s)
    ensures ParseInt(s) == Some(DigitsValue(s))
  {
    assert !IsSpace(s[0]) && !IsSpace(s[|s| - 1]);
    assert StripLeft(s) == s;
    assert Strip(s) == s;
  }

  /** A statement file under an `hsbc-current` directory is claimed. */
  lemma StatementFileIdentified(imp: HsbcCurrentImporter, dirs: seq<string>, year: nat, month: nat)
    requires forall c <- dirs :: IsDirName(c)
    requires "hsbc-current" in dirs
    ensures Identify(imp, StatementPath(dirs, year, month))
  {
    var name := StatementName(year, month);
    var path := StatementPath(dirs, year, month);
    StatementNameFacts(year, month);
    NameOfJoin(dirs, name);
    SuffixIsCsv(name);
    assert name[|name| - 4..] == ".csv";
    var i :| 0 <= i < |dirs| && dirs[i] == "hsbc-current";
    ComponentsOfJoin(dirs + [name]);
    assert PathString(path) == path;
    JoinContainsPart(dirs + [name], "/", i);
  }

  /** A path joined from plain components reads back as those components,
      and is relative. */
  lemma ComponentsOfJoin(parts: seq<string>)
    requires |parts| >= 1 && forall c <- parts :: IsDirName(c)
    ensures Components(Join(parts, "/")) == parts
    ensures Root(Join(parts, "/")) == ""
  {
    forall k | 0 <= k < |parts| ensures '/' !in parts[k] && parts[k] != "" && parts[k] != "." {
      assert parts[k] in parts;
    }
    SplitOnJoin(parts, '/');
    KeptAll(parts);
    assert parts[0] in parts;
    JoinStart(parts, "/");
    RootOfRelative(Join(parts, "/"), parts[0]);
  }

  lemma RootOfRelative(path: string, first: string)
    requires first != [] && '/' !in first && |first| <= |path| && path[..|first|] == first
    ensures Root(path) == ""
  {
    assert path[0] == first[0];
  }

  lemma JoinStart(parts: seq<string>, sep: string)
    requires |parts| >= 1
    ensures |parts[0]| <= |Join(parts, sep)| && Join(parts, sep)[..|parts[0]|] == parts[0]
  {
  }

  lemma JoinContainsPart(parts: seq<string>, sep: string, i: nat)
    requires i < |parts|
    ensures Contains(Join(parts, sep), parts[i])
  {
    JoinLayout(parts, sep, i);
    var j := Join(parts, sep);
    var lo := Offset(parts, |sep|, i);
    ContainsAt(j, parts[i], lo);
  }

  lemma {:induction false} ContainsAt(s: string, sub: string, at: nat)
    requires at + |sub| <= |s| && s[at..at + |sub|] == sub
    ensures Contains(s, sub)
    decreases at
  {
    if at == 0 {
      assert sub <= s;
    } else {
      assert s[1..][at - 1..at - 1 + |sub|] == sub;
      ContainsAt(s[1..], sub, at - 1);
    }
  }
}
