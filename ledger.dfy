/** The plain-text ledger the generator writes: transactions of two postings,
    the fixed header with its account-open directives, and the assembled
    journal document (header, transactions separated by blank lines, and the
    include directive for the price file). */
module Ledger {
  import opened Wrappers
  import opened Text
  import opened Calendar
  import opened Fixed

  /** A posting's amount as the templates write it: a cash amount, a cash
      amount written after a literal minus sign (`-{x:.2f}`), or whole units of
      a commodity held at a cost per unit (`{n} SYM {{{cost:.2f} CCY}}`). */
  datatype Units =
    | Cash(cents: int, currency: string)
    | Minus(cents: int, currency: string)
    | AtCost(count: int, commodity: string, unitCost: int, costCurrency: string)

  /** One posting line: the account, the spaces the template puts between the
      account and the amount, and the amount, or None where the template leaves
      it for the ledger to infer. */
  datatype Posting = Posting(account: string, gap: nat, units: Option<Units>)

  /** A cleared (`*`) transaction. */
  datatype Transaction = Transaction(date: Date, payee: string, narration: string, postings: seq<Posting>)

  /** What a posting weighs in the balance, in cents of a currency: cash at
      face value, a lot at count times unit cost. */
  function Weight(u: Units): (int, string) {
    match u
    case Cash(c, ccy) => (c, ccy)
    case Minus(c, ccy) => (-c, ccy)
    case AtCost(n, _, cost, ccy) => (n * cost, ccy)
  }

  /** Two postings that balance: both amounts written and weighing the same
      currency to zero in total, or one amount left for the ledger to infer. */
  predicate Balanced(t: Transaction) {
    && |t.postings| == 2
    && (t.postings[0].units.Some? || t.postings[1].units.Some?)
    && (t.postings[0].units.Some? && t.postings[1].units.Some? ==>
         var a, b := Weight(t.postings[0].units.value), Weight(t.postings[1].units.value);
         a.1 == b.1 && a.0 + b.0 == 0)
  }

  // ---- accounts opened by the header ----

  /** The date of every `open` directive in the header. */
  const OpenDate: Date := Ymd(2020, 1, 1)

  /** The header's `open` directives, account and permitted currency, in order. */
  const OpenAccounts: seq<(string, string)> := [
    ("Assets:Lalit:UK:HSBC:Current:GBP", "GBP"),
    ("Assets:Lalit:UK:Vanguard:ISA:VWRL", "VWRL"),
    ("Assets:Lalit:UK:Vanguard:ISA:GBP", "GBP"),
    ("Assets:Lalit:UK:Vanguard:GIA:VWRL", "VWRL"),
    ("Assets:Lalit:UK:Vanguard:GIA:GBP", "GBP"),
    ("Assets:Lalit:US:Schwab:Brokerage:GOOG", "GOOG"),
    ("Assets:Lalit:US:Schwab:Brokerage:USD", "USD"),
    ("Liabilities:Lalit:UK:Amex:GBP", "GBP"),
    ("Income:Lalit:UK:Google:Salary", "GBP"),
    ("Income:Lalit:UK:Google:Stock-Vest", "USD"),
    ("Expenses:Housing:Rent", "GBP"),
    ("Expenses:Food:Groceries", "GBP"),
    ("Expenses:Food:Restaurant", "GBP"),
    ("Expenses:Transport:Tube", "GBP"),
    ("Equity:Opening-Balances", "GBP")
  ]

  /** The currency or commodity a written amount is in. */
  function UnitsCurrency(u: Units): string {
    match u
    case Cash(_, ccy) => ccy
    case Minus(_, ccy) => ccy
    case AtCost(_, sym, _, _) => sym
  }

  predicate IsOpened(account: string, currency: string) {
    (account, currency) in OpenAccounts
  }

  /** A posting goes to an account the header opens, in a currency that
      account permits; an elided amount takes the currency of the other
      posting. */
  predicate LegOpened(p: Posting, other: Posting) {
    match p.units
    case Some(u) => IsOpened(p.account, UnitsCurrency(u))
    case None => other.units.Some? && IsOpened(p.account, Weight(other.units.value).1)
  }

  /** Both postings go to accounts the header opens on or before the
      transaction's date. */
  predicate PostsToOpenAccounts(t: Transaction)
    requires |t.postings| == 2
  {
    && AtOrBefore(OpenDate, t.date)
    && LegOpened(t.postings[0], t.postings[1])
    && LegOpened(t.postings[1], t.postings[0])
  }

  // ---- text ----

  function Spaces(n: nat): (s: string)
    ensures |s| == n && forall i :: 0 <= i < n ==> s[i] == ' '
  {
    if n == 0 then "" else Spaces(n - 1) + " "
  }

  function RenderUnits(u: Units): string {
    match u
    case Cash(c, ccy) => FormatCents(c) + " " + ccy
    case Minus(c, ccy) => "-" + FormatCents(c) + " " + ccy
    case AtCost(n, sym, cost, ccy) => FormatInt(n) + " " + sym + " {" + FormatCents(cost) + " " + ccy + "}"
  }

  function RenderPosting(p: Posting): string {
    match p.units
    case Some(u) => "  " + p.account + Spaces(p.gap) + RenderUnits(u)
    case None => "  " + p.account
  }

  function RenderPostings(ps: seq<Posting>): (lines: seq<string>)
    ensures |lines| == |ps|
  {
    if ps == [] then [] else [RenderPosting(ps[0])] + RenderPostings(ps[1..])
  }

  /** `<date> * "<payee>" "<narration>"` */
  function Title(t: Transaction): string {
    FormatDate(t.date) + " * \"" + t.payee + "\" \"" + t.narration + "\""
  }

  /** A transaction block: the title line and one line per posting. */
  function Render(t: Transaction): string {
    Join([Title(t)] + RenderPostings(t.postings), "\n")
  }

  /** Every name and currency of the transaction fits on one line. */
  predicate SingleLineFields(t: Transaction) {
    && '\n' !in t.payee && '\n' !in t.narration
    && forall p <- t.postings ::
         && '\n' !in p.account
         && (p.units.Some? ==> match p.units.value
               case Cash(_, ccy) => '\n' !in ccy
               case Minus(_, ccy) => '\n' !in ccy
               case AtCost(_, sym, _, ccy) => '\n' !in sym && '\n' !in ccy)
  }

  lemma NumbersOnOneLine(c: int)
    ensures '\n' !in FormatCents(c) && '\n' !in FormatInt(c)
  {
    var a := Abs(c);
    assert AllDigits(NatDigits(a / 100)) && AllDigits(PadDigits(a % 100, 2)) && AllDigits(NatDigits(a));
  }

  /** A rendered transaction reads back, line by line, as its title and its
      postings in order. */
  lemma RenderLines(t: Transaction)
    requires SingleLineFields(t)
    ensures SplitOn(Render(t), '\n') == [Title(t)] + RenderPostings(t.postings)
    ensures |SplitOn(Render(t), '\n')| == |t.postings| + 1
  {
    var lines := [Title(t)] + RenderPostings(t.postings);
    forall k | 0 <= k < |lines| ensures '\n' !in lines[k] {
      if k == 0 {
        assert forall ch <- FormatDate(t.date) :: IsDigit(ch) || ch == '-';
      } else {
        PostingOnOneLine(t, k - 1);
      }
    }
    SplitOnJoin(lines, '\n');
  }

  lemma PostingOnOneLine(t: Transaction, i: nat)
    requires SingleLineFields(t) && i < |t.postings|
    ensures '\n' !in RenderPostings(t.postings)[i]
  {
    RenderPostingsAt(t.postings, i);
    var p := t.postings[i];
    assert p in t.postings;
    if p.units.Some? {
      match p.units.value
      case Cash(c, _) => NumbersOnOneLine(c);
      case Minus(c, _) => NumbersOnOneLine(c);
      case AtCost(n, _, cost, _) => NumbersOnOneLine(n); NumbersOnOneLine(cost);
    }
  }

  lemma {:induction false} RenderPostingsAt(ps: seq<Posting>, i: nat)
    requires i < |ps|
    ensures RenderPostings(ps)[i] == RenderPosting(ps[i])
  {
    if i > 0 {
      RenderPostingsAt(ps[1..], i - 1);
    }
  }

  function RenderAll(ts: seq<Transaction>): (rs: seq<string>)
    ensures |rs| == |ts| && forall i :: 0 <= i < |ts| ==> rs[i] == Render(ts[i])
  {
    if ts == [] then [] else [Render(ts[0])] + RenderAll(ts[1..])
  }

  /** `2020-01-01 open <account padded to 42> <currency>` */
  function OpenLine(account: string, currency: string): string {
    "2020-01-01 open " + account + Spaces(if |account| < 42 then 42 - |account| else 0) + currency
  }

  function OpenLines(accounts: seq<(string, string)>): string {
    if accounts == [] then "" else OpenLine(accounts[0].0, accounts[0].1) + "\n" + OpenLines(accounts[1..])
  }

  const HeaderTop: string :=
    "option \"title\" \"Demo Financials\"\n" +
    "option \"operating_currency\" \"GBP\"\n" +
    "plugin \"beancount.plugins.auto_accounts\"\n" +
    "\n" +
    "; Fava extensions\n" +
    "2020-01-01 custom \"fava-extension\" \"fava_dashboards\"\n" +
    "2020-01-01 custom \"fava-extension\" \"fava_portfolio_returns\" \"{\n" +
    "  'beangrow_config': 'beangrow.pbtxt',\n" +
    "}\"\n" +
    "\n" +
    "; Commodities\n" +
    "2020-01-01 commodity GOOG\n" +
    "  name: \"Alphabet Inc Class C\"\n" +
    "2020-01-01 commodity VWRL\n" +
    "  name: \"Vanguard FTSE All-World UCITS ETF\"\n" +
    "2020-01-01 commodity USD\n" +
    "2020-01-01 commodity GBP\n" +
    "\n"

  const HeaderBottom: string :=
    "\n" +
    "; Initial Balance\n" +
    "2021-12-31 * \"Opening Balance\"\n" +
    "  Assets:Lalit:UK:HSBC:Current:GBP              5000.00 GBP\n" +
    "  Equity:Opening-Balances\n" +
    "\n"

  /** The fixed header: options, commodities, the open directives and the
      opening-balance transaction. */
  const Header: string := HeaderTop + OpenLines(OpenAccounts) + HeaderBottom

  const IncludeLine: string := "include \"prices.beancount\"\n"

  /** The journal document: the header, the transaction blocks separated by
      blank lines, and the trailer (a blank line and the include directive). */
  function Document(header: string, blocks: seq<string>, trailer: string): string {
    header + Join(blocks, "\n\n") + trailer
  }

  const Trailer: string := "\n\n" + IncludeLine

  function Journal(ts: seq<Transaction>): string {
    Document(Header, RenderAll(ts), Trailer)
  }

  /** The document opens with the header and closes with the trailer, and in
      between the `i`-th block is written whole at its place, with a blank
      line after it when another block follows. */
  lemma DocumentLayout(header: string, blocks: seq<string>, trailer: string, i: nat)
    requires i < |blocks|
    ensures Document(header, blocks, trailer)[..|header|] == header
    ensures Document(header, blocks, trailer)[|Document(header, blocks, trailer)| - |trailer|..] == trailer
    ensures |header| + Offset(blocks, 2, i) + |blocks[i]| <= |Document(header, blocks, trailer)|
    ensures Document(header, blocks, trailer)[|header| + Offset(blocks, 2, i)..|header| + Offset(blocks, 2, i) + |blocks[i]|]
      == blocks[i]
    ensures i + 1 < |blocks| ==> |header| + Offset(blocks, 2, i + 1) <= |Document(header, blocks, trailer)|
    ensures i + 1 < |blocks| ==>
      Document(header, blocks, trailer)[|header| + Offset(blocks, 2, i) + |blocks[i]|..|header| + Offset(blocks, 2, i + 1)]
      == "\n\n"
  {
    var body := Join(blocks, "\n\n");
    DocumentEnds(header, body, trailer);
    JoinLayout(blocks, "\n\n", i);
    var lo, mid := Offset(blocks, 2, i), Offset(blocks, 2, i) + |blocks[i]|;
    SliceMiddle(header, body, trailer, lo, mid);
    if i + 1 < |blocks| {
      SliceMiddle(header, body, trailer, mid, Offset(blocks, 2, i + 1));
    }
  }

  lemma DocumentEnds(header: string, body: string, trailer: string)
    ensures (header + body + trailer)[..|header|] == header
    ensures (header + body + trailer)[|header + body + trailer| - |trailer|..] == trailer
  {
    assert header + body + trailer == header + (body + trailer);
  }

  lemma SliceMiddle(a: string, b: string, c: string, lo: nat, hi: nat)
    requires lo <= hi <= |b|
    ensures (a + b + c)[|a| + lo..|a| + hi] == b[lo..hi]
  {
    assert a + b + c == a + (b + c);
    assert (b + c)[lo..hi] == b[lo..hi];
  }
}
