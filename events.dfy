/** The transactions the generator writes for one day (the body of the day
    loop in demo/generate.py): on the 1st the salary, rent, stock vest and
    the two monthly fund purchases; on any day a grocery shop and a
    restaurant dinner, each on a random draw; on the 25th the card payment.
    Amounts are whole cents. The random generator is a stream of draws in
    [0, 1), and the day reports how many it consumed. */
module Events {
  import opened Wrappers
  import opened Calendar
  import opened Fixed
  import opened Ledger

  /** `SALARY`, `RENT`, `ISA_INVESTMENT`, `GIA_INVESTMENT` and the card
      payment, in pence. */
  const Salary: int := 350000
  const Rent: int := 120000
  const IsaInvestment: nat := 100000
  const GiaInvestment: nat := 80000
  const CardPayment: int := 50000

  /** The whole GOOG units vested each month. */
  const VestUnits: int := 2

  /** A value of `random.random()`. */
  type Draw = r: real | 0.0 <= r < 1.0

  /** The generator's successive draws: the `k`-th call returns `rng(k)`. */
  type Stream = nat -> Draw

  /** The error a day can raise: `int(ISA_INVESTMENT / vwrl_price_rounded)`
      divides by zero when the VWRL price rounds to 0.00. */
  datatype DayError = ZeroPrice(date: Date)

  const Hsbc: string := "Assets:Lalit:UK:HSBC:Current:GBP"
  const SchwabUsd: string := "Assets:Lalit:US:Schwab:Brokerage:USD"
  const SchwabGoog: string := "Assets:Lalit:US:Schwab:Brokerage:GOOG"
  const IsaGbp: string := "Assets:Lalit:UK:Vanguard:ISA:GBP"
  const IsaVwrl: string := "Assets:Lalit:UK:Vanguard:ISA:VWRL"
  const GiaGbp: string := "Assets:Lalit:UK:Vanguard:GIA:GBP"
  const GiaVwrl: string := "Assets:Lalit:UK:Vanguard:GIA:VWRL"
  const Amex: string := "Liabilities:Lalit:UK:Amex:GBP"

  function Txn(d: Date, payee: string, narration: string, first: Posting, second: Posting): Transaction {
    Transaction(d, payee, narration, [first, second])
  }

  /** A transfer of `cents` of `ccy` into `to` out of `from`, as the templates
      write it: the first leg positive, the second after a minus sign. */
  function Transfer(d: Date, payee: string, narration: string, to: string, toGap: nat,
                    from: string, fromGap: nat, cents: int, ccy: string): Transaction {
    Txn(d, payee, narration, Posting(to, toGap, Some(Cash(cents, ccy))), Posting(from, fromGap, Some(Minus(cents, ccy))))
  }

  /** The eight transactions of the 1st of a month, given the day's VWRL and
      GOOG prices. */
  function MonthStart(d: Date, vwrl: Decimal, goog: Decimal): (r: Result<seq<Transaction>, DayError>)
    ensures r.Err? <==> RoundCents(vwrl) == 0
    ensures r.Err? ==> r.error == ZeroPrice(d)
    ensures r.Ok? ==> r.value == MonthlyPostings(d, RoundCents(vwrl), RoundCents(goog))
  {
    var vwrlCents := RoundCents(vwrl);
    if vwrlCents == 0 then Err(ZeroPrice(d))
    else Ok(MonthlyPostings(d, vwrlCents, RoundCents(goog)))
  }

  /** The monthly transactions once both prices are rounded to cents. */
  function MonthlyPostings(d: Date, vwrlCents: int, googCents: int): (ts: seq<Transaction>)
    requires vwrlCents != 0
    ensures |ts| == 8
  {
    var vestValue := VestUnits * googCents;
    var isaUnits := PurchaseUnits(IsaInvestment, vwrlCents);
    var isaCost := isaUnits * vwrlCents;
    var giaUnits := PurchaseUnits(GiaInvestment, vwrlCents);
    var giaCost := giaUnits * vwrlCents;
    [
      Txn(d, "Google", "Salary", Posting(Hsbc, 10, Some(Cash(Salary, "GBP"))),
          Posting("Income:Lalit:UK:Google:Salary", 0, None)),
      Txn(d, "Landlord", "Rent", Posting("Expenses:Housing:Rent", 22, Some(Cash(Rent, "GBP"))),
          Posting(Hsbc, 0, None)),
      Transfer(d, "Google", "RSU Vest", SchwabUsd, 7, "Income:Lalit:UK:Google:Stock-Vest", 9, vestValue, "USD"),
      Txn(d, "Schwab", "Buy GOOG", Posting(SchwabGoog, 6, Some(AtCost(VestUnits, "GOOG", googCents, "USD"))),
          Posting(SchwabUsd, 6, Some(Minus(vestValue, "USD")))),
      Transfer(d, "Vanguard", "ISA Transfer", IsaGbp, 11, Hsbc, 10, isaCost, "GBP"),
      Txn(d, "Vanguard", "ISA Buy VWRL", Posting(IsaVwrl, 10, Some(AtCost(isaUnits, "VWRL", vwrlCents, "GBP"))),
          Posting(IsaGbp, 10, Some(Minus(isaCost, "GBP")))),
      Transfer(d, "Vanguard", "GIA Transfer", GiaGbp, 11, Hsbc, 10, giaCost, "GBP"),
      Txn(d, "Vanguard", "GIA Buy VWRL", Posting(GiaVwrl, 10, Some(AtCost(giaUnits, "VWRL", vwrlCents, "GBP"))),
          Posting(GiaGbp, 10, Some(Minus(giaCost, "GBP"))))
    ]
  }

  /** `if random.random() < p: amount = random.uniform(lo, hi)`: one draw
      decides, and only when it fires a second draw gives the amount, written
      in whole cents. */
  function Occasional(rng: Stream, k: nat, p: real, lo: int, hi: int): (r: (Option<int>, nat))
    requires lo <= hi
    ensures r.0.Some? <==> rng(k) < p
    ensures r.1 == (if r.0.Some? then k + 2 else k + 1)
    ensures r.0.Some? ==> 100 * lo <= r.0.value <= 100 * hi
    ensures r.0.Some? ==> r.0.value == RealCents(lo as real + (hi - lo) as real * rng(k + 1))
  {
    if rng(k) < p then
      var x := lo as real + (hi - lo) as real * rng(k + 1);
      assert (hi - lo) as real * rng(k + 1) <= (hi - lo) as real;
      CentsBetween(x, lo, hi);
      (Some(RealCents(x)), k + 2)
    else (None, k + 1)
  }

  lemma CentsBetween(x: real, lo: int, hi: int)
    requires lo as real <= x <= hi as real
    ensures 100 * lo <= RealCents(x) <= 100 * hi
  {
    var c := RealCents(x);
    assert (c as real) > 100.0 * (lo as real) - 1.0;
    assert (c as real) < 100.0 * (hi as real) + 1.0;
  }

  /** The grocery shop and the dinner a day may bring, and the index of the
      next unused draw. */
  function Discretionary(d: Date, rng: Stream, k: nat): (r: (seq<Transaction>, nat))
  {
    var (groceries, k1) := Occasional(rng, k, 0.15, 30, 120);
    var (dinner, k2) := Occasional(rng, k1, 0.08, 20, 80);
    var shop := CardSpend(d, "Tesco", "Groceries", "Expenses:Food:Groceries", 20, groceries);
    var meal := CardSpend(d, "Nando's", "Dinner", "Expenses:Food:Restaurant", 19, dinner);
    (shop + meal, k2)
  }

  /** A purchase paid by the Amex card, when there is one. */
  function CardSpend(d: Date, payee: string, narration: string, to: string, toGap: nat,
                     amount: Option<int>): seq<Transaction>
  {
    if amount.Some? then [Transfer(d, payee, narration, to, toGap, Amex, 13, amount.value, "GBP")] else []
  }

  /** Everything one day writes, in order, given that day's VWRL and GOOG
      prices and the index of the next unused draw; with the index of the
      next unused draw afterwards. */
  function DayEvents(d: Date, vwrl: Decimal, goog: Decimal, rng: Stream, k: nat)
    : Result<(seq<Transaction>, nat), DayError>
  {
    var monthly := if d.day == 1 then MonthStart(d, vwrl, goog) else Ok([]);
    if monthly.Err? then Err(monthly.error)
    else
      var (extra, k') := Discretionary(d, rng, k);
      Ok((monthly.value + extra + CardPaymentOn(d), k'))
  }

  /** The card payment on the 25th, and nothing on other days. */
  function CardPaymentOn(d: Date): seq<Transaction> {
    if d.day == 25 then [Transfer(d, "Amex", "Payment", Amex, 14, Hsbc, 10, CardPayment, "GBP")] else []
  }

  // ---- properties of a day ----

  function Narrations(ts: seq<Transaction>): (ns: seq<string>)
    ensures |ns| == |ts| && forall i :: 0 <= i < |ts| ==> ns[i] == ts[i].narration
  {
    if ts == [] then [] else [ts[0].narration] + Narrations(ts[1..])
  }

  /** Every posting at cost is a purchase of GOOG at the given GOOG price or
      of VWRL at the given VWRL price. */
  predicate PricedAt(t: Transaction, vwrlCents: int, googCents: int) {
    forall p <- t.postings ::
      p.units.Some? && p.units.value.AtCost? ==>
        || (p.units.value.commodity == "GOOG" && p.units.value.unitCost == googCents)
        || (p.units.value.commodity == "VWRL" && p.units.value.unitCost == vwrlCents)
  }

  /** The transactions one day writes: that day's date, balanced, posted to
      opened accounts when the day is on or after their opening, purchases
      at the given prices. */
  predicate WellFormedDay(ts: seq<Transaction>, d: Date, vwrlCents: int, googCents: int) {
    forall i :: 0 <= i < |ts| ==>
      && ts[i].date == d && Balanced(ts[i])
      && (AtOrBefore(OpenDate, d) ==> PostsToOpenAccounts(ts[i]))
      && PricedAt(ts[i], vwrlCents, googCents)
  }

  lemma WellFormedDayAppend(a: seq<Transaction>, b: seq<Transaction>, d: Date, vwrlCents: int, googCents: int)
    requires WellFormedDay(a, d, vwrlCents, googCents) && WellFormedDay(b, d, vwrlCents, googCents)
    ensures WellFormedDay(a + b, d, vwrlCents, googCents)
  {
    forall i | 0 <= i < |a + b|
      ensures (a + b)[i] == if i < |a| then a[i] else b[i - |a|]
    {
    }
  }

  /** The grocery shop and the dinner: dated that day, balanced, posted to
      opened accounts, no purchase at cost, each a card charge of
      30.00..120.00 or 20.00..80.00; one draw for each that might happen and
      one more for each that does. */
  lemma DiscretionaryFacts(d: Date, rng: Stream, k: nat, vwrlCents: int, googCents: int)
    ensures var (ts, k') := Discretionary(d, rng, k);
      && |ts| == k' - k - 2
      && WellFormedDay(ts, d, vwrlCents, googCents)
      && (forall t <- ts :: CardPurchase(t, "Groceries", 3000, 12000) || CardPurchase(t, "Dinner", 2000, 8000))
  {
    var (groceries, k1) := Occasional(rng, k, 0.15, 30, 120);
    var (dinner, k2) := Occasional(rng, k1, 0.08, 20, 80);
    assert OpenAccounts[11] == ("Expenses:Food:Groceries", "GBP");
    var shop := CardSpend(d, "Tesco", "Groceries", "Expenses:Food:Groceries", 20, groceries);
    CardSpendFacts(d, "Tesco", "Groceries", "Expenses:Food:Groceries", 20, groceries, vwrlCents, googCents);
    assert OpenAccounts[12] == ("Expenses:Food:Restaurant", "GBP");
    var meal := CardSpend(d, "Nando's", "Dinner", "Expenses:Food:Restaurant", 19, dinner);
    CardSpendFacts(d, "Nando's", "Dinner", "Expenses:Food:Restaurant", 19, dinner, vwrlCents, googCents);
    WellFormedDayAppend(shop, meal, d, vwrlCents, googCents);
  }

  /** Which draw decides what: the first draw decides the groceries, which
      come first and cost `uniform(30, 120)` of the next draw; the draw after
      those decides the dinner, which comes last and costs `uniform(20, 80)`
      of the draw after it. */
  lemma DiscretionaryDraws(d: Date, rng: Stream, k: nat)
    ensures var (ts, k') := Discretionary(d, rng, k);
      var k1 := if rng(k) < 0.15 then k + 2 else k + 1;
      && (rng(k) < 0.15 <==> |ts| >= 1 && ts[0].narration == "Groceries")
      && (rng(k) < 0.15 ==> ts[0].postings[0].units == Some(Cash(RealCents(30.0 + 90.0 * rng(k + 1)), "GBP")))
      && (rng(k1) < 0.08 <==> |ts| >= 1 && ts[|ts| - 1].narration == "Dinner")
      && (rng(k1) < 0.08 ==>
            ts[|ts| - 1].postings[0].units == Some(Cash(RealCents(20.0 + 60.0 * rng(k1 + 1)), "GBP")))
      && k' == (if rng(k1) < 0.08 then k1 + 2 else k1 + 1)
  {
    var (groceries, k1) := Occasional(rng, k, 0.15, 30, 120);
    var (dinner, k2) := Occasional(rng, k1, 0.08, 20, 80);
    var shop := CardSpend(d, "Tesco", "Groceries", "Expenses:Food:Groceries", 20, groceries);
    var meal := CardSpend(d, "Nando's", "Dinner", "Expenses:Food:Restaurant", 19, dinner);
    assert Discretionary(d, rng, k) == (shop + meal, k2);
  }

  /** A purchase charged to the Amex card, under the given narration, of
      between `lo` and `hi` cents. */
  predicate CardPurchase(t: Transaction, narration: string, lo: int, hi: int) {
    && |t.postings| == 2 && t.narration == narration
    && t.postings[1].account == Amex
    && t.postings[0].units.Some? && lo <= Weight(t.postings[0].units.value).0 <= hi
  }

  /** A card purchase is well formed, charged to the card, and weighs what was
      spent. */
  lemma CardSpendFacts(d: Date, payee: string, narration: string, to: string, toGap: nat,
                       amount: Option<int>, vwrlCents: int, googCents: int)
    requires IsOpened(to, "GBP")
    ensures var ts := CardSpend(d, payee, narration, to, toGap, amount);
      && |ts| == (if amount.Some? then 1 else 0)
      && WellFormedDay(ts, d, vwrlCents, googCents)
      && (amount.Some? ==> forall t <- ts :: CardPurchase(t, narration, amount.value, amount.value))
  {
    assert OpenAccounts[7] == (Amex, "GBP");
    if amount.Some? {
      TransferFacts(d, payee, narration, to, toGap, Amex, 13, amount.value, "GBP", vwrlCents, googCents);
    }
  }

  /** A cash transfer between two accounts opened in its currency is a
      well-formed transaction of its day. */
  lemma TransferFacts(d: Date, payee: string, narration: string, to: string, toGap: nat,
                      from: string, fromGap: nat, cents: int, ccy: string, vwrlCents: int, googCents: int)
    requires IsOpened(to, ccy) && IsOpened(from, ccy)
    ensures WellFormedDay([Transfer(d, payee, narration, to, toGap, from, fromGap, cents, ccy)], d, vwrlCents, googCents)
  {
  }

  /** A day fails only on a 1st whose VWRL price rounds to 0.00, with the
      ZeroDivisionError of that day. This is the part of `DayEventsFacts`
      that is cheap to use, and `DayEventsFacts` takes these two facts from
      here. */
  lemma DayEventsFailure(d: Date, vwrl: Decimal, goog: Decimal, rng: Stream, k: nat)
    ensures DayEvents(d, vwrl, goog, rng, k).Err? <==> d.day == 1 && RoundCents(vwrl) == 0
    ensures DayEvents(d, vwrl, goog, rng, k).Err? ==> DayEvents(d, vwrl, goog, rng, k).error == ZeroPrice(d)
  {
  }

  /** What one day writes: transactions of that date only, each balanced and
      posting to accounts the header opens (for days from 2020-01-01 on),
      fund purchases at that day's prices rounded to cents; the eight monthly
      ones first on a 1st, then one per random purchase made, then the 500.00
      card payment on a 25th; two draws, plus one per purchase made. Only a
      1st whose VWRL price rounds to 0.00 fails, as `DayEventsFailure`
      shows. */
  lemma DayEventsFacts(d: Date, vwrl: Decimal, goog: Decimal, rng: Stream, k: nat)
    ensures DayEvents(d, vwrl, goog, rng, k).Err? <==> d.day == 1 && RoundCents(vwrl) == 0
    ensures DayEvents(d, vwrl, goog, rng, k).Err? ==> DayEvents(d, vwrl, goog, rng, k).error == ZeroPrice(d)
    ensures DayEvents(d, vwrl, goog, rng, k).Ok? ==>
      var (ts, k') := DayEvents(d, vwrl, goog, rng, k).value;
      && k + 2 <= k' <= k + 4
      && |ts| == (if d.day == 1 then 8 else 0) + (k' - k - 2) + (if d.day == 25 then 1 else 0)
      && WellFormedDay(ts, d, RoundCents(vwrl), RoundCents(goog))
      && (d.day == 1 ==> Narrations(ts[..8]) == MonthlyNarrations)
      && (d.day == 1 ==> ts[..8] == MonthlyPostings(d, RoundCents(vwrl), RoundCents(goog)))
      && (d.day == 25 ==> IsCardPayment(ts[|ts| - 1]))
  {
    DayEventsFailure(d, vwrl, goog, rng, k);
    var r := DayEvents(d, vwrl, goog, rng, k);
    if r.Ok? {
      var v, g := RoundCents(vwrl), RoundCents(goog);
      var (extra, k2) := Discretionary(d, rng, k);
      DiscretionaryFacts(d, rng, k, v, g);
      var monthly := if d.day == 1 then MonthlyPostings(d, v, g) else [];
      if d.day == 1 {
        MonthlyFacts(d, v, g);
      }
      PaymentFacts(d, v, g);
      assert r.value == (monthly + extra + CardPaymentOn(d), k2);
      DayAssembly(monthly, extra, CardPaymentOn(d), d, v, g);
    }
  }

  /** The day's three groups of transactions, written one after the other. */
  lemma DayAssembly(monthly: seq<Transaction>, extra: seq<Transaction>, pay: seq<Transaction>,
                    d: Date, vwrlCents: int, googCents: int)
    requires WellFormedDay(monthly, d, vwrlCents, googCents)
    requires WellFormedDay(extra, d, vwrlCents, googCents)
    requires WellFormedDay(pay, d, vwrlCents, googCents)
    ensures WellFormedDay(monthly + extra + pay, d, vwrlCents, googCents)
    ensures |monthly + extra + pay| == |monthly| + |extra| + |pay|
    ensures |monthly| == 8 ==> (monthly + extra + pay)[..8] == monthly
    ensures |pay| == 1 ==> (monthly + extra + pay)[|monthly + extra + pay| - 1] == pay[0]
  {
    WellFormedDayAppend(monthly, extra, d, vwrlCents, googCents);
    WellFormedDayAppend(monthly + extra, pay, d, vwrlCents, googCents);
  }

  /** The card payment: 500.00 GBP paid into the Amex account out of the
      current account. */
  predicate IsCardPayment(t: Transaction) {
    && t.narration == "Payment" && |t.postings| == 2
    && t.postings[0].account == Amex && t.postings[0].units == Some(Cash(50000, "GBP"))
    && t.postings[1].account == Hsbc
  }

  lemma PaymentFacts(d: Date, vwrlCents: int, googCents: int)
    ensures WellFormedDay(CardPaymentOn(d), d, vwrlCents, googCents)
    ensures d.day == 25 ==> |CardPaymentOn(d)| == 1 && IsCardPayment(CardPaymentOn(d)[0])
    ensures d.day != 25 ==> CardPaymentOn(d) == []
  {
    if d.day == 25 {
      assert OpenAccounts[0] == (Hsbc, "GBP");
      assert OpenAccounts[7] == (Amex, "GBP");
      TransferFacts(d, "Amex", "Payment", Amex, 14, Hsbc, 10, CardPayment, "GBP", vwrlCents, googCents);
    }
  }

  const MonthlyNarrations: seq<string> := ["Salary", "Rent", "RSU Vest", "Buy GOOG",
                                           "ISA Transfer", "ISA Buy VWRL", "GIA Transfer", "GIA Buy VWRL"]

  /** How many of `ts` are dated `d` under the given narration. */
  function CountEntries(ts: seq<Transaction>, d: Date, narration: string): nat {
    if ts == [] then 0
    else (if ts[0].date == d && ts[0].narration == narration then 1 else 0) + CountEntries(ts[1..], d, narration)
  }

  lemma {:induction false} CountEntriesAppend(a: seq<Transaction>, b: seq<Transaction>, d: Date, narration: string)
    ensures CountEntries(a + b, d, narration) == CountEntries(a, d, narration) + CountEntries(b, d, narration)
  {
    if a == [] {
      assert a + b == b;
    } else {
      assert (a + b)[0] == a[0] && (a + b)[1..] == a[1..] + b;
      CountEntriesAppend(a[1..], b, d, narration);
    }
  }

  lemma {:induction false} CountEntriesNone(ts: seq<Transaction>, d: Date, narration: string)
    requires forall i :: 0 <= i < |ts| ==> ts[i].date != d || ts[i].narration != narration
    ensures CountEntries(ts, d, narration) == 0
  {
    if ts != [] {
      CountEntriesNone(ts[1..], d, narration);
    }
  }

  /** A day writes one Salary, on a 1st, and one Payment, on a 25th, and
      none for any other date. */
  lemma DayEntryCounts(d: Date, vwrl: Decimal, goog: Decimal, rng: Stream, k: nat, e: Date)
    requires DayEvents(d, vwrl, goog, rng, k).Ok?
    ensures CountEntries(DayEvents(d, vwrl, goog, rng, k).value.0, e, "Salary") == (if e == d && d.day == 1 then 1 else 0)
    ensures CountEntries(DayEvents(d, vwrl, goog, rng, k).value.0, e, "Payment") == (if e == d && d.day == 25 then 1 else 0)
  {
    var v, g := RoundCents(vwrl), RoundCents(goog);
    var (extra, k2) := Discretionary(d, rng, k);
    var monthly := if d.day == 1 then MonthlyPostings(d, v, g) else [];
    var pay := CardPaymentOn(d);
    assert DayEvents(d, vwrl, goog, rng, k).value.0 == monthly + extra + pay;
    CountEntriesAppend(monthly + extra, pay, d, "Salary");
    CountEntriesAppend(monthly + extra, pay, d, "Payment");
    CountEntriesAppend(monthly, extra, d, "Salary");
    CountEntriesAppend(monthly, extra, d, "Payment");
    CountEntriesAppend(monthly + extra, pay, e, "Salary");
    CountEntriesAppend(monthly + extra, pay, e, "Payment");
    CountEntriesAppend(monthly, extra, e, "Salary");
    CountEntriesAppend(monthly, extra, e, "Payment");
    if d.day == 1 {
      MonthlyCounts(d, v, g, e);
    }
    SpendCounts(d, rng, k, e);
    PaymentCounts(d, e);
  }

  lemma MonthlyCounts(d: Date, vwrlCents: int, googCents: int, e: Date)
    requires vwrlCents != 0
    ensures CountEntries(MonthlyPostings(d, vwrlCents, googCents), e, "Salary") == (if e == d then 1 else 0)
    ensures CountEntries(MonthlyPostings(d, vwrlCents, googCents), e, "Payment") == 0
  {
    var ts := MonthlyPostings(d, vwrlCents, googCents);
    forall i | 0 <= i < 8 ensures ts[i].date == d && ts[i].narration == MonthlyNarrations[i] {
      MonthlyBalanced(d, vwrlCents, googCents, i);
    }
    assert ts == [ts[0]] + ts[1..];
    CountEntriesAppend([ts[0]], ts[1..], e, "Salary");
    CountEntriesNone(ts[1..], e, "Salary");
    CountEntriesNone(ts, e, "Payment");
  }

  lemma SpendCounts(d: Date, rng: Stream, k: nat, e: Date)
    ensures CountEntries(Discretionary(d, rng, k).0, e, "Salary") == 0
    ensures CountEntries(Discretionary(d, rng, k).0, e, "Payment") == 0
  {
    var ts := Discretionary(d, rng, k).0;
    DiscretionaryFacts(d, rng, k, 0, 0);
    forall i | 0 <= i < |ts| ensures ts[i].narration == "Groceries" || ts[i].narration == "Dinner" {
      assert ts[i] in ts;
    }
    CountEntriesNone(ts, e, "Salary");
    CountEntriesNone(ts, e, "Payment");
  }

  lemma PaymentCounts(d: Date, e: Date)
    ensures CountEntries(CardPaymentOn(d), e, "Salary") == 0
    ensures CountEntries(CardPaymentOn(d), e, "Payment") == (if e == d && d.day == 25 then 1 else 0)
  {
    if d.day == 25 {
      assert CardPaymentOn(d)[1..] == [];
    }
  }

  /** The monthly transactions come in the source's order, and every one is
      dated that day, balanced, posts to accounts the header opens, and buys
      funds at the given prices. The salary is 3500.00 GBP and the rent
      1200.00 GBP, each with the other leg left to infer; the vest is always
      two GOOG, worth twice the rounded GOOG price, bought at that price. */
  lemma MonthlyFacts(d: Date, vwrlCents: int, googCents: int)
    requires vwrlCents != 0
    ensures WellFormedDay(MonthlyPostings(d, vwrlCents, googCents), d, vwrlCents, googCents)
    ensures Narrations(MonthlyPostings(d, vwrlCents, googCents)) == MonthlyNarrations
    ensures var ts := MonthlyPostings(d, vwrlCents, googCents);
      && ts[0].postings[0].units == Some(Cash(350000, "GBP")) && ts[0].postings[1].units.None?
      && ts[1].postings[0].units == Some(Cash(120000, "GBP")) && ts[1].postings[1].units.None?
      && ts[2].postings[0].units == Some(Cash(2 * googCents, "USD"))
      && ts[3].postings[0].units == Some(AtCost(2, "GOOG", googCents, "USD"))
      && ts[3].postings[1].units == Some(Minus(2 * googCents, "USD"))
  {
    MonthlyWellFormed(d, vwrlCents, googCents);
    var ts := MonthlyPostings(d, vwrlCents, googCents);
    forall i | 0 <= i < 8 ensures Narrations(ts)[i] == MonthlyNarrations[i] {
      MonthlyBalanced(d, vwrlCents, googCents, i);
    }
  }

  lemma MonthlyWellFormed(d: Date, vwrlCents: int, googCents: int)
    requires vwrlCents != 0
    ensures WellFormedDay(MonthlyPostings(d, vwrlCents, googCents), d, vwrlCents, googCents)
  {
    var ts := MonthlyPostings(d, vwrlCents, googCents);
    forall i | 0 <= i < 8
      ensures ts[i].date == d && Balanced(ts[i]) && PricedAt(ts[i], vwrlCents, googCents)
      ensures AtOrBefore(OpenDate, d) ==> PostsToOpenAccounts(ts[i])
    {
      MonthlyBalanced(d, vwrlCents, googCents, i);
      if AtOrBefore(OpenDate, d) {
        MonthlyOpen(d, vwrlCents, googCents, i);
      }
    }
  }

  lemma MonthlyBalanced(d: Date, vwrlCents: int, googCents: int, i: nat)
    requires vwrlCents != 0 && i < 8
    ensures MonthlyPostings(d, vwrlCents, googCents)[i].date == d
    ensures Balanced(MonthlyPostings(d, vwrlCents, googCents)[i])
    ensures PricedAt(MonthlyPostings(d, vwrlCents, googCents)[i], vwrlCents, googCents)
    ensures MonthlyPostings(d, vwrlCents, googCents)[i].narration == MonthlyNarrations[i]
  {
  }

  lemma MonthlyOpen(d: Date, vwrlCents: int, googCents: int, i: nat)
    requires vwrlCents != 0 && i < 8 && AtOrBefore(OpenDate, d)
    ensures PostsToOpenAccounts(MonthlyPostings(d, vwrlCents, googCents)[i])
  {
    assert OpenAccounts[0] == (Hsbc, "GBP");
    assert OpenAccounts[8] == ("Income:Lalit:UK:Google:Salary", "GBP");
    assert OpenAccounts[10] == ("Expenses:Housing:Rent", "GBP");
  }

  /** The units the monthly purchases buy: for a positive VWRL price, as many
      whole units as the sum pays for; the cash transferred is exactly their
      cost, never above the sum and less than one unit's price below it. */
  lemma PurchaseBounds(d: Date, vwrlCents: int, googCents: int)
    requires vwrlCents > 0
    ensures var ts := MonthlyPostings(d, vwrlCents, googCents);
      && ts[5].postings[0].units.value.count * vwrlCents <= IsaInvestment
      && IsaInvestment < (ts[5].postings[0].units.value.count + 1) * vwrlCents
      && ts[7].postings[0].units.value.count * vwrlCents <= GiaInvestment
      && GiaInvestment < (ts[7].postings[0].units.value.count + 1) * vwrlCents
      && ts[4].postings[0].units == Some(Cash(ts[5].postings[0].units.value.count * vwrlCents, "GBP"))
      && ts[6].postings[0].units == Some(Cash(ts[7].postings[0].units.value.count * vwrlCents, "GBP"))
      && 0 <= Weight(ts[4].postings[0].units.value).0 <= IsaInvestment
      && 0 <= Weight(ts[6].postings[0].units.value).0 <= GiaInvestment
  {
  }
}
