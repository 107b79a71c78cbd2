/** The generator's day loop (`generate` in demo/generate.py): from the start
    date to the end date inclusive, resolve the day's VWRL and then GOOG price
    through the shared `last_known` map, append the day's transactions, and
    step to the next day. A failing day, or stepping past 9999-12-31, aborts
    the run, and nothing is written. */
module Generator {
  import opened Wrappers
  import opened Calendar
  import opened Fixed
  import opened PriceFile
  import opened Resolver
  import opened Ledger
  import opened Events

  /** `START_DATE` and `END_DATE`. */
  const StartDate: Date := Ymd(2022, 1, 1)
  const EndDate: Date := Ymd(2024, 4, 1)

  /** Why a run stops without writing: a day's ZeroDivisionError, or the
      OverflowError of `current_date += timedelta(days=1)`. */
  datatype RunError = DayFailed(cause: DayError) | Overflow

  function Prepend(ts: seq<Transaction>, r: Result<seq<Transaction>, RunError>): Result<seq<Transaction>, RunError> {
    match r
    case Ok(rest) => Ok(ts + rest)
    case Err(e) => Err(e)
  }

  /** The transactions of the days from `cur` to `end`, given what
      `last_known` holds on reaching `cur` and the index of the next unused
      draw. */
  function Run(table: PriceTable, known: map<string, Decimal>, cur: Date, end: Date, rng: Stream, k: nat)
    : Result<seq<Transaction>, RunError>
    decreases MaxYear - cur.year, 12 - cur.month, 31 - cur.day
  {
    if Before(end, cur) then Ok([])
    else
      var (vwrl, known1) := Resolve(table, known, cur, "VWRL");
      var (goog, known2) := Resolve(table, known1, cur, "GOOG");
      match DayEvents(cur, vwrl, goog, rng, k)
      case Err(e) => Err(DayFailed(e))
      case Ok((ts, k')) =>
        match NextDay(cur)
        case None => Err(Overflow)
        case Some(next) => Prepend(ts, Run(table, known2, next, end, rng, k'))
  }

  /** The loop of `generate`, from `start` to `end`, with a fresh
      `last_known` map: the transactions in the order they are appended. */
  method Generate(table: PriceTable, rng: Stream, start: Date, end: Date)
    returns (r: Result<seq<Transaction>, RunError>)
    ensures r == Run(table, map[], start, end, rng, 0)
  {
    var lastKnown := new LastKnown();
    var transactions: seq<Transaction> := [];
    var current := start;
    var k: nat := 0;
    PrependNothing(Run(table, map[], start, end, rng, 0));
    while AtOrBefore(current, end)
      invariant Prepend(transactions, Run(table, lastKnown.prices, current, end, rng, k))
        == Run(table, map[], start, end, rng, 0)
      decreases MaxYear - current.year, 12 - current.month, 31 - current.day
    {
      ghost var before := lastKnown.prices;
      var vwrlPrice := GetPrice(table, current, "VWRL", lastKnown);
      ghost var between := lastKnown.prices;
      var googPrice := GetPrice(table, current, "GOOG", lastKnown);
      RunDay(table, before, current, end, rng, k, vwrlPrice, between, googPrice, lastKnown.prices);
      var day := DayEvents(current, vwrlPrice, googPrice, rng, k);
      if day.Err? {
        return Err(DayFailed(day.error));
      }
      PrependTwice(transactions, day.value.0, if NextDay(current).Some? then
        Run(table, lastKnown.prices, NextDay(current).value, end, rng, day.value.1) else Err(Overflow));
      transactions := transactions + day.value.0;
      k := day.value.1;
      var next := NextDay(current);
      if next.None? {
        return Err(Overflow);
      }
      current := next.value;
    }
    BeforeTotal(current, end);
    RunPast(table, lastKnown.prices, current, end, rng, k);
    assert transactions + [] == transactions;
    r := Ok(transactions);
  }

  lemma PrependNothing(r: Result<seq<Transaction>, RunError>)
    ensures Prepend([], r) == r
  {
    if r.Ok? {
      assert [] + r.value == r.value;
    }
  }

  lemma PrependTwice(a: seq<Transaction>, b: seq<Transaction>, r: Result<seq<Transaction>, RunError>)
    ensures Prepend(a, Prepend(b, r)) == Prepend(a + b, r)
  {
    if r.Ok? {
      assert a + (b + r.value) == (a + b) + r.value;
    }
  }

  /** Past the end date a run writes nothing more. */
  lemma RunPast(table: PriceTable, known: map<string, Decimal>, cur: Date, end: Date, rng: Stream, k: nat)
    requires Before(end, cur)
    ensures Run(table, known, cur, end, rng, k) == Ok([])
  {
  }

  /** One day of a run: the day's prices resolved in order VWRL then GOOG,
      the day's transactions, then the rest of the run from the next day. */
  lemma RunDay(table: PriceTable, known: map<string, Decimal>, cur: Date, end: Date, rng: Stream, k: nat,
               vwrl: Decimal, known1: map<string, Decimal>, goog: Decimal, known2: map<string, Decimal>)
    requires AtOrBefore(cur, end)
    requires (vwrl, known1) == Resolve(table, known, cur, "VWRL")
    requires (goog, known2) == Resolve(table, known1, cur, "GOOG")
    ensures DayEvents(cur, vwrl, goog, rng, k).Err? ==>
      Run(table, known, cur, end, rng, k) == Err(DayFailed(DayEvents(cur, vwrl, goog, rng, k).error))
    ensures DayEvents(cur, vwrl, goog, rng, k).Ok? ==>
      var (day, k') := DayEvents(cur, vwrl, goog, rng, k).value;
      Run(table, known, cur, end, rng, k) ==
        Prepend(day, if NextDay(cur).Some? then Run(table, known2, NextDay(cur).value, end, rng, k') else Err(Overflow))
  {
    BeforeIrreflexive(cur, end);
  }

  /** Why `generate()` writes nothing: `load_prices` raised on a price line,
      or the day loop raised. */
  datatype GenerateError = BadPriceFile(load: LoadError) | RunFailed(run: RunError)

  /** `generate()`: load the price lines, run the day loop from `START_DATE`
      to `END_DATE` with an empty `last_known` map and the draws of the
      seeded generator, and assemble the text written to the journal: the
      header, the transactions joined by blank lines, and the include line. */
  method GenerateJournal(lines: seq<string>, rng: Stream) returns (r: Result<string, GenerateError>)
    ensures LoadFrom(map[], lines).Err? ==> r == Err(BadPriceFile(LoadFrom(map[], lines).error))
    ensures LoadFrom(map[], lines).Ok? ==>
      var run := Run(LoadFrom(map[], lines).value, map[], StartDate, EndDate, rng, 0);
      r == if run.Ok? then Ok(Journal(run.value)) else Err(RunFailed(run.error))
  {
    var table := LoadPrices(lines);
    if table.Err? {
      return Err(BadPriceFile(table.error));
    }
    var run := Generate(table.value, rng, StartDate, EndDate);
    if run.Err? {
      return Err(RunFailed(run.error));
    }
    r := Ok(Journal(run.value));
  }

  // ---- properties of a run ----

  /** Every purchase at cost is made at the price carried forward to that
      day, rounded to cents. */
  ghost predicate AtCarriedPrices(table: PriceTable, from: Date, t: Transaction) {
    forall p <- t.postings :: p.units.Some? && p.units.value.AtCost? ==>
      exists price: Decimal ::
        IsCarriedPrice(table, p.units.value.commodity, from, t.date, price) && p.units.value.unitCost == RoundCents(price)
  }

  /** One day of a successful run: the prices resolved, the day's
      transactions, and the rest of the run from the next day. */
  lemma RunStep(table: PriceTable, known: map<string, Decimal>, cur: Date, end: Date, rng: Stream, k: nat)
    returns (vwrl: Decimal, goog: Decimal, known2: map<string, Decimal>, day: seq<Transaction>, k': nat, next: Date)
    requires !Before(end, cur) && Run(table, known, cur, end, rng, k).Ok?
    ensures vwrl == Resolve(table, known, cur, "VWRL").0
    ensures (goog, known2) == Resolve(table, Resolve(table, known, cur, "VWRL").1, cur, "GOOG")
    ensures DayEvents(cur, vwrl, goog, rng, k) == Ok((day, k'))
    ensures NextDay(cur) == Some(next)
    ensures Run(table, known2, next, end, rng, k').Ok?
    ensures Run(table, known, cur, end, rng, k).value == day + Run(table, known2, next, end, rng, k').value
  {
    var r1 := Resolve(table, known, cur, "VWRL");
    var r2 := Resolve(table, r1.1, cur, "GOOG");
    vwrl, goog, known2 := r1.0, r2.0, r2.1;
    var ev := DayEvents(cur, vwrl, goog, rng, k).value;
    day, k' := ev.0, ev.1;
    next := NextDay(cur).value;
  }

  /** Transactions dated from `cur` to `end`, each balanced, and posted to
      opened accounts when `cur` is on or after their opening. */
  predicate WithinRun(ts: seq<Transaction>, cur: Date, end: Date) {
    forall i :: 0 <= i < |ts| ==>
      && AtOrBefore(cur, ts[i].date) && AtOrBefore(ts[i].date, end)
      && Balanced(ts[i])
      && (AtOrBefore(OpenDate, cur) ==> PostsToOpenAccounts(ts[i]))
  }

  predicate DateSorted(ts: seq<Transaction>) {
    forall i, j :: 0 <= i < j < |ts| ==> AtOrBefore(ts[i].date, ts[j].date)
  }

  /** Every transaction of a successful run from `cur` to `end` falls within
      those days, is balanced, and posts to accounts the header opens when
      the run starts on or after their opening. */
  lemma {:induction false} RunIsWellFormed(table: PriceTable, known: map<string, Decimal>, cur: Date, end: Date,
                                           rng: Stream, k: nat)
    requires Run(table, known, cur, end, rng, k).Ok?
    ensures WithinRun(Run(table, known, cur, end, rng, k).value, cur, end)
    decreases MaxYear - cur.year, 12 - cur.month, 31 - cur.day
  {
    if !Before(end, cur) {
      var vwrl, goog, known2, day, k', next := RunStep(table, known, cur, end, rng, k);
      DayEventsFacts(cur, vwrl, goog, rng, k);
      RunIsWellFormed(table, known2, next, end, rng, k');
      BeforeTotal(cur, end);
      WithinRunPrepend(day, Run(table, known2, next, end, rng, k').value, cur, next, end,
                       RoundCents(vwrl), RoundCents(goog));
    }
  }

  /** One day's transactions ahead of a well-formed rest of the run. */
  lemma WithinRunPrepend(day: seq<Transaction>, rest: seq<Transaction>, cur: Date, next: Date, end: Date,
                         vwrlCents: int, googCents: int)
    requires WellFormedDay(day, cur, vwrlCents, googCents)
    requires AtOrBefore(cur, end) && Before(cur, next)
    requires WithinRun(rest, next, end)
    ensures WithinRun(day + rest, cur, end)
  {
    var ts := day + rest;
    forall i | 0 <= i < |ts|
      ensures AtOrBefore(cur, ts[i].date) && AtOrBefore(ts[i].date, end) && Balanced(ts[i])
      ensures AtOrBefore(OpenDate, cur) ==> PostsToOpenAccounts(ts[i])
    {
      if i >= |day| {
        var t := rest[i - |day|];
        assert ts[i] == t;
        BeforeTransitive(cur, next, t.date);
        if AtOrBefore(OpenDate, cur) {
          BeforeTransitive(OpenDate, next, next) by {
            if OpenDate != cur {
              BeforeTransitive(OpenDate, cur, next);
            }
          }
        }
      } else {
        assert ts[i] == day[i];
      }
    }
  }

  /** A successful run lists its transactions in date order. */
  lemma {:induction false} RunIsSorted(table: PriceTable, known: map<string, Decimal>, cur: Date, end: Date,
                                       rng: Stream, k: nat)
    requires Run(table, known, cur, end, rng, k).Ok?
    ensures DateSorted(Run(table, known, cur, end, rng, k).value)
    decreases MaxYear - cur.year, 12 - cur.month, 31 - cur.day
  {
    if !Before(end, cur) {
      var vwrl, goog, known2, day, k', next := RunStep(table, known, cur, end, rng, k);
      DayEventsFacts(cur, vwrl, goog, rng, k);
      RunIsSorted(table, known2, next, end, rng, k');
      RunIsWellFormed(table, known2, next, end, rng, k');
      SortedPrepend(day, Run(table, known2, next, end, rng, k').value, cur, next, end,
                    RoundCents(vwrl), RoundCents(goog));
    }
  }

  lemma SortedPrepend(day: seq<Transaction>, rest: seq<Transaction>, cur: Date, next: Date, end: Date,
                      vwrlCents: int, googCents: int)
    requires WellFormedDay(day, cur, vwrlCents, googCents)
    requires Before(cur, next)
    requires WithinRun(rest, next, end) && DateSorted(rest)
    ensures DateSorted(day + rest)
  {
    var ts := day + rest;
    forall i, j | 0 <= i < j < |ts| ensures AtOrBefore(ts[i].date, ts[j].date) {
      if j >= |day| {
        assert ts[j] == rest[j - |day|];
        if i >= |day| {
          assert ts[i] == rest[i - |day|];
        } else {
          assert ts[i] == day[i];
          BeforeTransitive(cur, next, ts[j].date);
        }
      } else {
        assert ts[i] == day[i] && ts[j] == day[j];
      }
    }
  }

  /** Every cost-basis leg of these transactions is at a carried-forward price. */
  ghost predicate AllAtCarriedPrices(table: PriceTable, from: Date, ts: seq<Transaction>) {
    forall i :: 0 <= i < |ts| ==> AtCarriedPrices(table, from, ts[i])
  }

  /** A run started on `from` with an empty map, once it reaches `cur`, buys
      every fund at the price carried forward to the day of purchase: the
      table's price on the latest day since `from` that has one, or the seed
      price. */
  lemma {:induction false} RunUsesCarriedPrices(table: PriceTable, known: map<string, Decimal>, from: Date, cur: Date,
                                                end: Date, rng: Stream, k: nat)
    requires AtOrBefore(from, cur)
    requires Tracks(table, "VWRL", from, cur, false, known) && Tracks(table, "GOOG", from, cur, false, known)
    requires Run(table, known, cur, end, rng, k).Ok?
    ensures AllAtCarriedPrices(table, from, Run(table, known, cur, end, rng, k).value)
    decreases MaxYear - cur.year, 12 - cur.month, 31 - cur.day
  {
    if !Before(end, cur) {
      var vwrl, goog, known2, day, k', next := RunStep(table, known, cur, end, rng, k);
      DayStep(table, known, from, cur);
      DayEventsFacts(cur, vwrl, goog, rng, k);
      NextDayKeepsTracks(table, "VWRL", from, cur, next, known2);
      NextDayKeepsTracks(table, "GOOG", from, cur, next, known2);
      BeforeTransitive(from, next, next) by {
        if from != cur {
          BeforeTransitive(from, cur, next);
        }
      }
      RunUsesCarriedPrices(table, known2, from, next, end, rng, k');
      CarriedPrepend(table, from, day, Run(table, known2, next, end, rng, k').value, cur, vwrl, goog);
    }
  }

  lemma CarriedPrepend(table: PriceTable, from: Date, day: seq<Transaction>, rest: seq<Transaction>, cur: Date,
                       vwrl: Decimal, goog: Decimal)
    requires IsCarriedPrice(table, "VWRL", from, cur, vwrl) && IsCarriedPrice(table, "GOOG", from, cur, goog)
    requires WellFormedDay(day, cur, RoundCents(vwrl), RoundCents(goog))
    requires AllAtCarriedPrices(table, from, rest)
    ensures AllAtCarriedPrices(table, from, day + rest)
  {
    var ts := day + rest;
    forall i | 0 <= i < |ts| ensures AtCarriedPrices(table, from, ts[i]) {
      if i >= |day| {
        assert ts[i] == rest[i - |day|];
      } else {
        var t := day[i];
        assert ts[i] == t && t.date == cur;
        assert PricedAt(t, RoundCents(vwrl), RoundCents(goog));
        forall p <- t.postings | p.units.Some? && p.units.value.AtCost?
          ensures exists price: Decimal ::
            IsCarriedPrice(table, p.units.value.commodity, from, t.date, price)
            && p.units.value.unitCost == RoundCents(price)
        {
          if p.units.value.commodity == "GOOG" {
            assert IsCarriedPrice(table, "GOOG", from, cur, goog);
          } else {
            assert IsCarriedPrice(table, "VWRL", from, cur, vwrl);
          }
        }
      }
    }
  }

  /** The loop visits every day from `cur` to `end` exactly once: each first
      of the month in that range is paid exactly one salary and each 25th
      exactly one card payment, and no other date gets either. */
  lemma {:induction false} RunVisitsDay(table: PriceTable, known: map<string, Decimal>, cur: Date, end: Date,
                                        rng: Stream, k: nat, d: Date)
    requires Run(table, known, cur, end, rng, k).Ok?
    ensures CountEntries(Run(table, known, cur, end, rng, k).value, d, "Salary") ==
      (if d.day == 1 && AtOrBefore(cur, d) && AtOrBefore(d, end) then 1 else 0)
    ensures CountEntries(Run(table, known, cur, end, rng, k).value, d, "Payment") ==
      (if d.day == 25 && AtOrBefore(cur, d) && AtOrBefore(d, end) then 1 else 0)
    decreases MaxYear - cur.year, 12 - cur.month, 31 - cur.day
  {
    if Before(end, cur) {
      RunPast(table, known, cur, end, rng, k);
      EmptyRange(cur, d, end);
    } else {
      var vwrl, goog, known2, day, k', next := RunStep(table, known, cur, end, rng, k);
      var rest := Run(table, known2, next, end, rng, k').value;
      DayEntryCounts(cur, vwrl, goog, rng, k, d);
      CountEntriesAppend(day, rest, d, "Salary");
      CountEntriesAppend(day, rest, d, "Payment");
      RunVisitsDay(table, known2, next, end, rng, k', d);
      SplitRange(cur, next, d);
    }
  }

  /** Nothing lies between a start and an end before it. */
  lemma EmptyRange(cur: Date, d: Date, end: Date)
    requires Before(end, cur)
    ensures !(AtOrBefore(cur, d) && AtOrBefore(d, end))
  {
  }

  /** A day at or after `cur` is `cur` itself or at or after the next day,
      and not both. */
  lemma SplitRange(cur: Date, next: Date, d: Date)
    requires NextDay(cur) == Some(next)
    ensures AtOrBefore(cur, d) <==> d == cur || AtOrBefore(next, d)
    ensures !(d == cur && AtOrBefore(next, d))
  {
    NextDayIsSuccessor(cur, d);
  }

  /** One day of the loop: both prices are the carried-forward ones, and the
      map then tracks both symbols through that day. */
  lemma DayStep(table: PriceTable, known: map<string, Decimal>, from: Date, cur: Date)
    requires AtOrBefore(from, cur)
    requires Tracks(table, "VWRL", from, cur, false, known) && Tracks(table, "GOOG", from, cur, false, known)
    ensures var (vwrl, known1) := Resolve(table, known, cur, "VWRL");
      var (goog, known2) := Resolve(table, known1, cur, "GOOG");
      && IsCarriedPrice(table, "VWRL", from, cur, vwrl)
      && IsCarriedPrice(table, "GOOG", from, cur, goog)
      && Tracks(table, "VWRL", from, cur, true, known2)
      && Tracks(table, "GOOG", from, cur, true, known2)
  {
    var known1 := Resolve(table, known, cur, "VWRL").1;
    ResolveCarriesForward(table, "VWRL", from, cur, known);
    ResolveOtherKeepsTracks(table, "GOOG", "VWRL", from, cur, false, known, cur);
    ResolveCarriesForward(table, "GOOG", from, cur, known1);
    ResolveOtherKeepsTracks(table, "VWRL", "GOOG", from, cur, true, known1, cur);
  }

  /** Stepping past 9999-12-31 is the only way to overflow, so a run
      overflows only when its end is that date. */
  lemma {:induction false} RunOverflow(table: PriceTable, known: map<string, Decimal>, cur: Date, end: Date,
                                       rng: Stream, k: nat)
    ensures Run(table, known, cur, end, rng, k) == Err(Overflow) ==> end == LastDate
    decreases MaxYear - cur.year, 12 - cur.month, 31 - cur.day
  {
    if !Before(end, cur) {
      BeforeTotal(cur, end);
      var (vwrl, known1) := Resolve(table, known, cur, "VWRL");
      var (goog, known2) := Resolve(table, known1, cur, "GOOG");
      RunDay(table, known, cur, end, rng, k, vwrl, known1, goog, known2);
      if DayEvents(cur, vwrl, goog, rng, k).Ok? {
        var k' := DayEvents(cur, vwrl, goog, rng, k).value.1;
        if NextDay(cur).Some? {
          RunOverflow(table, known2, NextDay(cur).value, end, rng, k');
        } else {
          LastDateIsLast(end);
        }
      }
    }
  }

  /** Conversely, a run to 9999-12-31 always fails: `current_date <=
      END_DATE` holds for every date, so the loop either raises on some day
      or steps past the last date. */
  lemma {:induction false} RunToLastDateFails(table: PriceTable, known: map<string, Decimal>, cur: Date,
                                              rng: Stream, k: nat)
    ensures Run(table, known, cur, LastDate, rng, k).Err?
    decreases MaxYear - cur.year, 12 - cur.month, 31 - cur.day
  {
    LastDateIsLast(cur);
    var (vwrl, known1) := Resolve(table, known, cur, "VWRL");
    var (goog, known2) := Resolve(table, known1, cur, "GOOG");
    BeforeTotal(cur, LastDate);
    RunDay(table, known, cur, LastDate, rng, k, vwrl, known1, goog, known2);
    if DayEvents(cur, vwrl, goog, rng, k).Ok? && NextDay(cur).Some? {
      RunToLastDateFails(table, known2, NextDay(cur).value, rng, DayEvents(cur, vwrl, goog, rng, k).value.1);
    }
  }

  lemma LastDateIsLast(d: Date)
    ensures !Before(LastDate, d)
  {
  }

  /** A day that fails: a 1st of the month from `cur` to `end` whose
      carried-forward VWRL price rounds to 0.00. */
  ghost predicate ZeroPriceDay(table: PriceTable, from: Date, cur: Date, end: Date, d: Date) {
    && d.day == 1 && AtOrBefore(cur, d) && AtOrBefore(d, end)
    && exists price: Decimal :: IsCarriedPrice(table, "VWRL", from, d, price) && RoundCents(price) == 0
  }

  /** A run fails on a day only where `int(ISA_INVESTMENT / vwrl_price_rounded)`
      divides by zero: a 1st of the month whose carried-forward VWRL price
      rounds to 0.00. */
  lemma {:induction false} RunFailures(table: PriceTable, known: map<string, Decimal>, from: Date, cur: Date,
                                       end: Date, rng: Stream, k: nat)
    requires AtOrBefore(from, cur)
    requires Tracks(table, "VWRL", from, cur, false, known) && Tracks(table, "GOOG", from, cur, false, known)
    ensures Run(table, known, cur, end, rng, k).Err? && Run(table, known, cur, end, rng, k).error.DayFailed? ==>
      ZeroPriceDay(table, from, cur, end, Run(table, known, cur, end, rng, k).error.cause.date)
    decreases MaxYear - cur.year, 12 - cur.month, 31 - cur.day
  {
    var r := Run(table, known, cur, end, rng, k);
    if !Before(end, cur) && r.Err? && r.error.DayFailed? {
      var today, vwrl, known2, k', next := FailStep(table, known, cur, end, rng, k);
      DayStep(table, known, from, cur);
      if today {
        ZeroPriceToday(table, from, cur, end, vwrl);
      } else {
        NextDayKeepsTracks(table, "VWRL", from, cur, next, known2);
        NextDayKeepsTracks(table, "GOOG", from, cur, next, known2);
        BeforeTransitive(from, next, next) by {
          if from != cur {
            BeforeTransitive(from, cur, next);
          }
        }
        RunFailures(table, known2, from, next, end, rng, k');
        if r.error.cause.date != next {
          BeforeTransitive(cur, next, r.error.cause.date);
        }
      }
    }
  }

  /** One day of a run that fails: either that day's events fail, on a 1st
      whose VWRL price rounds to 0.00, or the rest of the run from the next
      day fails in the same way. */
  lemma FailStep(table: PriceTable, known: map<string, Decimal>, cur: Date, end: Date, rng: Stream, k: nat)
    returns (today: bool, vwrl: Decimal, known2: map<string, Decimal>, k': nat, next: Date)
    requires !Before(end, cur)
    requires Run(table, known, cur, end, rng, k).Err? && Run(table, known, cur, end, rng, k).error.DayFailed?
    ensures vwrl == Resolve(table, known, cur, "VWRL").0
    ensures known2 == Resolve(table, Resolve(table, known, cur, "VWRL").1, cur, "GOOG").1
    ensures today ==> cur.day == 1 && RoundCents(vwrl) == 0 && Run(table, known, cur, end, rng, k).error.cause.date == cur
    ensures !today ==> NextDay(cur) == Some(next) && Run(table, known, cur, end, rng, k) == Run(table, known2, next, end, rng, k')
  {
    var r1 := Resolve(table, known, cur, "VWRL");
    var r2 := Resolve(table, r1.1, cur, "GOOG");
    vwrl, known2 := r1.0, r2.1;
    var ev := DayEvents(cur, vwrl, r2.0, rng, k);
    DayEventsFailure(cur, vwrl, r2.0, rng, k);
    today := ev.Err?;
    if !today {
      k' := ev.value.1;
      next := NextDay(cur).value;
    } else {
      k', next := k, cur;
    }
  }

  lemma ZeroPriceToday(table: PriceTable, from: Date, cur: Date, end: Date, vwrl: Decimal)
    requires cur.day == 1 && AtOrBefore(cur, end) && RoundCents(vwrl) == 0
    requires IsCarriedPrice(table, "VWRL", from, cur, vwrl)
    ensures ZeroPriceDay(table, from, cur, end, cur)
  {
  }

  /** Conversely, a run whose range holds a 1st of the month with a
      carried-forward VWRL price that rounds to 0.00 fails with a
      ZeroDivisionError, on that day or on an earlier one: every day before
      it lies before the end, so the run cannot overflow on the way. */
  lemma {:induction false} ZeroPriceDayFails(table: PriceTable, known: map<string, Decimal>, from: Date, cur: Date,
                                             end: Date, rng: Stream, k: nat, d: Date)
    requires AtOrBefore(from, cur)
    requires Tracks(table, "VWRL", from, cur, false, known) && Tracks(table, "GOOG", from, cur, false, known)
    requires ZeroPriceDay(table, from, cur, end, d)
    ensures Run(table, known, cur, end, rng, k).Err? && Run(table, known, cur, end, rng, k).error.DayFailed?
    ensures AtOrBefore(Run(table, known, cur, end, rng, k).error.cause.date, d)
    decreases MaxYear - cur.year, 12 - cur.month, 31 - cur.day
  {
    if cur == d {
      FailsOnTheDay(table, known, from, d, end, rng, k);
    } else {
      BeforeTransitive(cur, d, end);
      var passed, known2, k', next := PassStep(table, known, from, cur, end, rng, k);
      if passed {
        NextDayIsSuccessor(cur, d);
        BeforeTransitive(from, next, next) by {
          if from != cur {
            BeforeTransitive(from, cur, next);
          }
        }
        ZeroPriceDayFails(table, known2, from, next, end, rng, k', d);
      }
    }
  }

  /** A 1st whose carried-forward VWRL price rounds to 0.00 fails at once. */
  lemma FailsOnTheDay(table: PriceTable, known: map<string, Decimal>, from: Date, d: Date, end: Date,
                      rng: Stream, k: nat)
    requires AtOrBefore(from, d)
    requires Tracks(table, "VWRL", from, d, false, known) && Tracks(table, "GOOG", from, d, false, known)
    requires ZeroPriceDay(table, from, d, end, d)
    ensures Run(table, known, d, end, rng, k) == Err(DayFailed(ZeroPrice(d)))
  {
    var (vwrl, known1) := Resolve(table, known, d, "VWRL");
    var (goog, known2) := Resolve(table, known1, d, "GOOG");
    RunDay(table, known, d, end, rng, k, vwrl, known1, goog, known2);
    DayStep(table, known, from, d);
    DayEventsFailure(d, vwrl, goog, rng, k);
    var price: Decimal :| IsCarriedPrice(table, "VWRL", from, d, price) && RoundCents(price) == 0;
    CarriedPriceUnique(table, "VWRL", from, d, vwrl, price);
  }

  /** A day before the end either fails itself or hands the run on to the
      next day, with both symbols still tracked; a failure after that is the
      run's failure. */
  lemma PassStep(table: PriceTable, known: map<string, Decimal>, from: Date, cur: Date, end: Date,
                 rng: Stream, k: nat)
    returns (passed: bool, known2: map<string, Decimal>, k': nat, next: Date)
    requires AtOrBefore(from, cur) && Before(cur, end)
    requires Tracks(table, "VWRL", from, cur, false, known) && Tracks(table, "GOOG", from, cur, false, known)
    ensures !passed ==> Run(table, known, cur, end, rng, k) == Err(DayFailed(ZeroPrice(cur)))
    ensures passed ==> NextDay(cur) == Some(next)
    ensures passed ==> Tracks(table, "VWRL", from, next, false, known2) && Tracks(table, "GOOG", from, next, false, known2)
    ensures passed && Run(table, known2, next, end, rng, k').Err? ==>
      Run(table, known, cur, end, rng, k) == Run(table, known2, next, end, rng, k')
  {
    var (vwrl, known1) := Resolve(table, known, cur, "VWRL");
    var goog;
    goog, known2 := Resolve(table, known1, cur, "GOOG").0, Resolve(table, known1, cur, "GOOG").1;
    RunDay(table, known, cur, end, rng, k, vwrl, known1, goog, known2);
    DayStep(table, known, from, cur);
    DayEventsFailure(cur, vwrl, goog, rng, k);
    passed := DayEvents(cur, vwrl, goog, rng, k).Ok?;
    if passed {
      k' := DayEvents(cur, vwrl, goog, rng, k).value.1;
      NextDayIsSuccessor(cur, end);
      next := NextDay(cur).value;
      NextDayKeepsTracks(table, "VWRL", from, cur, next, known2);
      NextDayKeepsTracks(table, "GOOG", from, cur, next, known2);
    } else {
      k', next := k, cur;
    }
  }

  /** What a run writes, when it writes: transactions between the start and
      end dates in date order, each balanced, buying funds at the prices
      carried forward from the start with an empty `last_known` map, and,
      for a start on or after 2020-01-01, posting only to accounts the header
      opens. */
  lemma GenerateOutput(table: PriceTable, rng: Stream, start: Date, end: Date)
    requires Run(table, map[], start, end, rng, 0).Ok?
    ensures var ts := Run(table, map[], start, end, rng, 0).value;
      WithinRun(ts, start, end) && AllAtCarriedPrices(table, start, ts) && DateSorted(ts)
  {
    TracksAtStart(table, "VWRL", start);
    TracksAtStart(table, "GOOG", start);
    RunIsWellFormed(table, map[], start, end, rng, 0);
    RunIsSorted(table, map[], start, end, rng, 0);
    RunUsesCarriedPrices(table, map[], start, start, end, rng, 0);
  }

  /** A run from `start` to an end date other than 9999-12-31 cannot
      overflow, and it fails exactly when some 1st of a month between the
      two dates has a carried-forward VWRL price that rounds to 0.00; the
      error names such a day. */
  lemma GenerateFailures(table: PriceTable, rng: Stream, start: Date, end: Date)
    requires end != LastDate
    ensures Run(table, map[], start, end, rng, 0) != Err(Overflow)
    ensures Run(table, map[], start, end, rng, 0).Err? ==>
      && Run(table, map[], start, end, rng, 0).error.DayFailed?
      && ZeroPriceDay(table, start, start, end, Run(table, map[], start, end, rng, 0).error.cause.date)
    ensures (exists d: Date :: ZeroPriceDay(table, start, start, end, d)) ==> Run(table, map[], start, end, rng, 0).Err?
  {
    var r := Run(table, map[], start, end, rng, 0);
    RunOverflow(table, map[], start, end, rng, 0);
    StartFailures(table, rng, start, end, r);
    if r.Err? {
      assert r.error != Overflow;
    }
    if exists d: Date :: ZeroPriceDay(table, start, start, end, d) {
      var d: Date :| ZeroPriceDay(table, start, start, end, d);
      TracksAtStart(table, "VWRL", start);
      TracksAtStart(table, "GOOG", start);
      ZeroPriceDayFails(table, map[], start, start, end, rng, 0, d);
    }
  }

  lemma StartFailures(table: PriceTable, rng: Stream, start: Date, end: Date, r: Result<seq<Transaction>, RunError>)
    requires r == Run(table, map[], start, end, rng, 0)
    ensures r.Err? && r.error.DayFailed? ==> ZeroPriceDay(table, start, start, end, r.error.cause.date)
  {
    TracksAtStart(table, "VWRL", start);
    TracksAtStart(table, "GOOG", start);
    RunFailures(table, map[], start, start, end, rng, 0);
  }
}
