/** The carry-forward price resolver (`INITIAL_PRICES` and `get_price` in
    demo/generate.py). A run keeps one `last_known` map, symbol -> price. An
    exact hit in the table for (date, symbol) stores that price in the map and
    returns it; otherwise the map's price for the symbol is returned, else the
    seed price, else 100.0. The seed is returned but never stored. */
module Resolver {
  import opened Wrappers
  import opened Calendar
  import opened Fixed
  import opened PriceFile

  /** `INITIAL_PRICES`: GOOG 136.0, VWRL 84.0, USD 0.74. */
  const InitialPrices: map<string, Decimal> :=
    map["GOOG" := Decimal(1360, 1), "VWRL" := Decimal(840, 1), "USD" := Decimal(74, 2)]

  /** The last-resort price, 100.0. */
  const DefaultPrice: Decimal := Decimal(1000, 1)

  /** `INITIAL_PRICES.get(symbol, 100.0)` */
  function SeedPrice(symbol: string): Decimal {
    if symbol in InitialPrices then InitialPrices[symbol] else DefaultPrice
  }

  predicate Priced(table: PriceTable, symbol: string, e: Date) {
    e in table && symbol in table[e]
  }

  /** `get_price` as a value: the price returned and the new `last_known` map.
      Only the requested symbol's entry can change, and only on an exact hit;
      the price returned is the stored one whenever one is stored. */
  function Resolve(table: PriceTable, known: map<string, Decimal>, date: Date, symbol: string)
    : (r: (Decimal, map<string, Decimal>))
    ensures Priced(table, symbol, date) ==> r.0 == table[date][symbol] && r.1 == known[symbol := r.0]
    ensures !Priced(table, symbol, date) ==> r.1 == known
    ensures symbol in r.1 ==> r.0 == r.1[symbol]
    ensures symbol !in r.1 ==> r.0 == SeedPrice(symbol)
  {
    var known' := if Priced(table, symbol, date) then known[symbol := table[date][symbol]] else known;
    (if symbol in known' then known'[symbol] else SeedPrice(symbol), known')
  }

  /** The `last_known` dict, shared by reference between a run and `get_price`. */
  class LastKnown {
    var prices: map<string, Decimal>

    constructor ()
      ensures prices == map[]
    {
      prices := map[];
    }
  }

  /** `get_price(prices, date, symbol, last_known)`, writing into the caller's map. */
  method GetPrice(table: PriceTable, date: Date, symbol: string, lastKnown: LastKnown) returns (p: Decimal)
    modifies lastKnown
    ensures (p, lastKnown.prices) == Resolve(table, old(lastKnown.prices), date, symbol)
  {
    if date in table && symbol in table[date] {
      lastKnown.prices := lastKnown.prices[symbol := table[date][symbol]];
    }
    p := if symbol in lastKnown.prices then lastKnown.prices[symbol] else SeedPrice(symbol);
  }

  // ---- carry-forward over a run ----

  /** `e` lies in the window of days from `from` up to `to`, `to` itself
      included or not. */
  predicate InWindow(from: Date, to: Date, inclusive: bool, e: Date) {
    AtOrBefore(from, e) && (Before(e, to) || (inclusive && e == to))
  }

  /** `e` is the latest day of the window on which the table prices `symbol`. */
  ghost predicate LatestIn(table: PriceTable, symbol: string, from: Date, to: Date, inclusive: bool, e: Date) {
    && Priced(table, symbol, e)
    && InWindow(from, to, inclusive, e)
    && forall e': Date :: Priced(table, symbol, e') && InWindow(from, to, inclusive, e') ==> AtOrBefore(e', e)
  }

  ghost predicate NoneIn(table: PriceTable, symbol: string, from: Date, to: Date, inclusive: bool) {
    forall e: Date :: Priced(table, symbol, e) ==> !InWindow(from, to, inclusive, e)
  }

  /** The price carried forward for `symbol` on day `to` of a run that began on
      `from`: the table's price on the latest day in `from..to` that has one,
      or the seed price when there is none. */
  ghost predicate IsCarriedPrice(table: PriceTable, symbol: string, from: Date, to: Date, p: Decimal) {
    || (exists e: Date :: LatestIn(table, symbol, from, to, true, e) && p == table[e][symbol])
    || (NoneIn(table, symbol, from, to, true) && p == SeedPrice(symbol))
  }

  /** The carried-forward price of a day is a single price. */
  lemma CarriedPriceUnique(table: PriceTable, symbol: string, from: Date, to: Date, p: Decimal, q: Decimal)
    requires IsCarriedPrice(table, symbol, from, to, p) && IsCarriedPrice(table, symbol, from, to, q)
    ensures p == q
  {
    if exists e: Date :: LatestIn(table, symbol, from, to, true, e) && p == table[e][symbol] {
      var e: Date :| LatestIn(table, symbol, from, to, true, e) && p == table[e][symbol];
      var e': Date :| LatestIn(table, symbol, from, to, true, e') && q == table[e'][symbol];
      if e != e' {
        BeforeIrreflexive(e, e');
      }
    }
  }

  /** What `last_known` holds for `symbol` once every day of the window has
      been resolved: the latest price seen in the window, or nothing. */
  ghost predicate Tracks(table: PriceTable, symbol: string, from: Date, to: Date, inclusive: bool,
                   known: map<string, Decimal>) {
    || (symbol in known && exists e: Date :: LatestIn(table, symbol, from, to, inclusive, e) && known[symbol] == table[e][symbol])
    || (symbol !in known && NoneIn(table, symbol, from, to, inclusive))
  }

  /** At the start of a run no day has been resolved and the map is empty. */
  lemma TracksAtStart(table: PriceTable, symbol: string, from: Date)
    ensures Tracks(table, symbol, from, from, false, map[])
  {
    forall e: Date | Priced(table, symbol, e) ensures !InWindow(from, from, false, e) {
      if InWindow(from, from, false, e) {
        BeforeIrreflexive(from, e);
      }
    }
  }

  /** Resolving `symbol` on day `d`, when every earlier day of the run has
      been resolved, returns the carried-forward price and leaves the map
      tracking the window through `d`. */
  lemma {:induction false} ResolveCarriesForward(table: PriceTable, symbol: string, from: Date, d: Date,
                                                  known: map<string, Decimal>)
    requires AtOrBefore(from, d)
    requires Tracks(table, symbol, from, d, false, known)
    ensures IsCarriedPrice(table, symbol, from, d, Resolve(table, known, d, symbol).0)
    ensures Tracks(table, symbol, from, d, true, Resolve(table, known, d, symbol).1)
  {
    var (p, known') := Resolve(table, known, d, symbol);
    if Priced(table, symbol, d) {
      forall e': Date | Priced(table, symbol, e') && InWindow(from, d, true, e') ensures AtOrBefore(e', d) {
      }
      assert LatestIn(table, symbol, from, d, true, d);
    } else {
      forall e: Date | InWindow(from, d, true, e) && Priced(table, symbol, e) ensures InWindow(from, d, false, e) {
      }
      if symbol in known {
        var e: Date :| LatestIn(table, symbol, from, d, false, e) && known[symbol] == table[e][symbol];
        assert LatestIn(table, symbol, from, d, true, e);
      }
    }
  }

  /** Resolving another symbol does not disturb what the map tracks for this one. */
  lemma ResolveOtherKeepsTracks(table: PriceTable, symbol: string, other: string, from: Date, to: Date,
                                inclusive: bool, known: map<string, Decimal>, d: Date)
    requires other != symbol
    requires Tracks(table, symbol, from, to, inclusive, known)
    ensures Tracks(table, symbol, from, to, inclusive, Resolve(table, known, d, other).1)
  {
    var known' := Resolve(table, known, d, other).1;
    assert symbol in known' <==> symbol in known;
    assert symbol in known ==> known'[symbol] == known[symbol];
  }

  /** Moving on to the next calendar day: the window through `d` is the window
      before `NextDay(d)`, since no date lies between them. */
  lemma NextDayKeepsTracks(table: PriceTable, symbol: string, from: Date, d: Date, next: Date,
                           known: map<string, Decimal>)
    requires NextDay(d) == Some(next)
    requires Tracks(table, symbol, from, d, true, known)
    ensures Tracks(table, symbol, from, next, false, known)
  {
    forall e: Date ensures InWindow(from, d, true, e) <==> InWindow(from, next, false, e) {
      NextDayIsSuccessor(d, e);
      if Before(e, next) && !Before(e, d) {
        BeforeTotal(e, d);
        if Before(d, e) {
          BeforeIrreflexive(next, e);
        }
      }
    }
    if symbol in known {
      var e: Date :| LatestIn(table, symbol, from, d, true, e) && known[symbol] == table[e][symbol];
      assert LatestIn(table, symbol, from, next, false, e);
    }
  }
}
