/** Python's `datetime.date` as far as the generator and the importer use it:
    the proleptic Gregorian calendar over years 1..9999, the ordering of dates,
    stepping one day forward, and the `%Y-%m-%d` text form. */
module Calendar {
  import opened Wrappers
  import opened Text

  datatype Ymd = Ymd(year: int, month: int, day: int)

  const MinYear: int := 1
  const MaxYear: int := 9999

  predicate IsLeapYear(y: int) {
    y % 4 == 0 && (y % 100 != 0 || y % 400 == 0)
  }

  function DaysInMonth(y: int, m: int): (n: int)
    requires 1 <= m <= 12
    ensures 28 <= n <= 31
    ensures n == 29 <==> m == 2 && IsLeapYear(y)
    ensures n == 28 <==> m == 2 && !IsLeapYear(y)
  {
    if m == 2 then (if IsLeapYear(y) then 29 else 28)
    else if m == 4 || m == 6 || m == 9 || m == 11 then 30
    else 31
  }

  /** What `datetime.date(year, month, day)` accepts without a ValueError. */
  predicate IsValid(d: Ymd) {
    && MinYear <= d.year <= MaxYear
    && 1 <= d.month <= 12
    && 1 <= d.day <= DaysInMonth(d.year, d.month)
  }

  type Date = d: Ymd | IsValid(d) witness Ymd(1, 1, 1)

  /** `datetime.date.max`: the one date that has no successor. */
  const LastDate: Date := Ymd(9999, 12, 31)

  /** `datetime.date(y, m, d)`, with None where Python raises ValueError. */
  function MakeDate(y: int, m: int, d: int): (r: Option<Date>)
    ensures r.Some? <==> IsValid(Ymd(y, m, d))
    ensures r.Some? ==> r.value == Ymd(y, m, d)
  {
    if IsValid(Ymd(y, m, d)) then Some(Ymd(y, m, d)) else None
  }

  /** Python's comparison of dates: by year, then month, then day. */
  predicate Before(a: Ymd, b: Ymd) {
    || a.year < b.year
    || (a.year == b.year && a.month < b.month)
    || (a.year == b.year && a.month == b.month && a.day < b.day)
  }

  predicate AtOrBefore(a: Ymd, b: Ymd) {
    a == b || Before(a, b)
  }

  /** `d + datetime.timedelta(days=1)`, with None where Python raises
      OverflowError (stepping past 9999-12-31). */
  function NextDay(d: Date): (r: Option<Date>)
    ensures r.None? <==> d == LastDate
    ensures r.Some? ==> Before(d, r.value)
  {
    if d.day < DaysInMonth(d.year, d.month) then Some(Ymd(d.year, d.month, d.day + 1))
    else if d.month < 12 then Some(Ymd(d.year, d.month + 1, 1))
    else if d.year < MaxYear then Some(Ymd(d.year + 1, 1, 1))
    else None
  }

  /** No valid date lies strictly between a date and the next one: a date `e`
      is after `d` exactly when it is at or after `NextDay(d)`. */
  lemma NextDayIsSuccessor(d: Date, e: Date)
    ensures Before(d, e) ==> NextDay(d).Some?
    ensures NextDay(d).Some? ==> (Before(d, e) <==> AtOrBefore(NextDay(d).value, e))
  {
    if Before(d, e) && d.day == DaysInMonth(d.year, d.month) {
      assert e.year > d.year || e.month > d.month;
    }
  }

  lemma BeforeTransitive(a: Ymd, b: Ymd, c: Ymd)
    requires Before(a, b) && AtOrBefore(b, c)
    ensures Before(a, c)
  {
  }

  lemma BeforeIrreflexive(a: Ymd, b: Ymd)
    requires AtOrBefore(a, b)
    ensures !Before(b, a)
  {
  }

  lemma BeforeTotal(a: Ymd, b: Ymd)
    ensures Before(a, b) || a == b || Before(b, a)
  {
  }

  // ---- text form ----

  /** `d.strftime("%Y-%m-%d")`: the year in four digits, month and day in two. */
  function FormatDate(d: Date): (s: string)
    ensures |s| == 10 && IsDigit(s[0])
    ensures forall i :: 0 <= i < |s| ==> IsDigit(s[i]) || s[i] == '-'
  {
    var y, m, dd := PadDigits(d.year, 4), PadDigits(d.month, 2), PadDigits(d.day, 2);
    FieldWidth(d.year, 4);
    FieldWidth(d.month, 2);
    FieldWidth(d.day, 2);
    assert Join([y, m, dd], "-") == y + "-" + (m + "-" + dd);
    Join([y, m, dd], "-")
  }

  lemma FieldWidth(n: nat, w: nat)
    requires (w == 4 && n <= 9999) || (w == 2 && n <= 99)
    ensures |PadDigits(n, w)| == w
  {
    assert Pow10(2) == 100;
    assert Pow10(4) == 10000;
    NatDigitsLength(n, w);
  }

  /** The `%m` field as `strptime` reads it: one or two ASCII digits spelling
      a number in 1..12. */
  function ParseMonth(s: string): (r: Option<nat>)
    ensures r.Some? ==> 1 <= r.value <= 12
  {
    if 1 <= |s| <= 2 && AllDigits(s) && 1 <= DigitsValue(s) <= 12 then Some(DigitsValue(s))
    else None
  }

  /** The `%d` field as `strptime` reads it: one or two ASCII digits spelling
      a number in 1..31, or a space followed by one digit 1..9. */
  function ParseDay(s: string): (r: Option<nat>)
    ensures r.Some? ==> 1 <= r.value <= 31
  {
    if |s| == 2 && s[0] == ' ' && '1' <= s[1] <= '9' then Some((s[1] as int) - ('0' as int))
    else if 1 <= |s| <= 2 && AllDigits(s) && 1 <= DigitsValue(s) <= 31 then Some(DigitsValue(s))
    else None
  }

  /** `datetime.datetime.strptime(s, "%Y-%m-%d").date()`, with None where
      Python raises ValueError: exactly four digits of year, a month 1..12 and a
      day 1..31 in one or two digits, nothing left over, and a date that exists. */
  function ParseDate(s: string): (r: Option<Date>)
  {
    var parts := SplitOn(s, '-');
    if |parts| != 3 || |parts[0]| != 4 || !AllDigits(parts[0]) then None
    else
      match (ParseMonth(parts[1]), ParseDay(parts[2]))
      case (Some(m), Some(d)) => MakeDate(DigitsValue(parts[0]), m, d)
      case _ => None
  }

  /** Reading back a written date gives the same date. */
  lemma ParseFormatDate(d: Date)
    ensures ParseDate(FormatDate(d)) == Some(d)
  {
    var y, m, dd := PadDigits(d.year, 4), PadDigits(d.month, 2), PadDigits(d.day, 2);
    FieldWidth(d.year, 4);
    FieldWidth(d.month, 2);
    FieldWidth(d.day, 2);
    NoDashInDigits(y);
    NoDashInDigits(m);
    NoDashInDigits(dd);
    SplitOnJoin([y, m, dd], '-');
    var parts := SplitOn(FormatDate(d), '-');
    assert parts == [y, m, dd];
    assert ParseMonth(m) == Some(d.month);
    assert ParseDay(dd) == Some(d.day) by {
      assert dd[0] != ' ';
    }
  }

  lemma NoDashInDigits(s: string)
    requires AllDigits(s)
    ensures '-' !in s
  {
  }
}
