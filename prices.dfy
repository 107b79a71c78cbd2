/** The price-file loader (`load_prices` in demo/generate.py): every line of the
    form `<date> price <SYMBOL> <value> <currency>` sets `prices[date][SYMBOL]`,
    every other line is skipped, and a price line whose date or value does not
    parse aborts the load with the error Python raises. Reading the file itself
    is left to the caller: the loader takes its lines. */
module PriceFile {
  import opened Wrappers
  import opened Text
  import opened Calendar
  import opened Fixed

  /** date -> symbol -> price, as the loader builds it. */
  type PriceTable = map<Date, map<string, Decimal>>

  /** The ValueError raised by `strptime` or by `float`, with the offending word. */
  datatype LoadError = BadDate(word: string) | BadNumber(word: string)

  /** What the loader makes of one line. */
  datatype LineKind =
    | Blank
    | Comment
    | NotAPrice
    | Price(date: Date, symbol: string, value: Decimal)
    | Malformed(error: LoadError)

  predicate Skipped(k: LineKind) {
    k.Blank? || k.Comment? || k.NotAPrice?
  }

  /** One line: blank or `;` after stripping is skipped; fewer than five words
      or a second word other than `price` is skipped; otherwise the first word
      must be a date and the fourth a number. */
  function ClassifyLine(line: string): (k: LineKind)
    ensures k.Blank? <==> Strip(line) == []
    ensures k.Comment? <==> Strip(line) != [] && Strip(line)[0] == ';'
    ensures Skipped(k) <==>
      || Strip(line) == [] || Strip(line)[0] == ';'
      || |Words(Strip(line))| < 5 || Words(Strip(line))[1] != "price"
  {
    var stripped := Strip(line);
    if stripped == [] then Blank
    else if stripped[0] == ';' then Comment
    else
      var parts := Words(stripped);
      if |parts| < 5 || parts[1] != "price" then NotAPrice
      else
        match ParseDate(parts[0])
        case None => Malformed(BadDate(parts[0]))
        case Some(d) =>
          match ParseNumber(parts[3])
          case None => Malformed(BadNumber(parts[3]))
          case Some(v) => Price(d, parts[2], v)
  }

  /** `prices.setdefault(date, {})[symbol] = value`: the entry for this date and
      symbol becomes the value; every other entry, under this date or another,
      stays as it was. */
  function Record(t: PriceTable, d: Date, s: string, v: Decimal): (r: PriceTable)
    ensures d in r && s in r[d] && r[d][s] == v
    ensures forall s' :: s' != s ==> (s' in r[d] <==> d in t && s' in t[d])
    ensures forall s' :: s' != s && s' in r[d] ==> r[d][s'] == t[d][s']
    ensures forall d' :: d' != d ==> (d' in r <==> d' in t)
    ensures forall d' :: d' != d && d' in r ==> r[d'] == t[d']
  {
    t[d := (if d in t then t[d] else map[])[s := v]]
  }

  /** The table after the loader has read `lines`, starting from `t`. */
  function LoadFrom(t: PriceTable, lines: seq<string>): Result<PriceTable, LoadError>
    decreases |lines|
  {
    if lines == [] then Ok(t)
    else
      match ClassifyLine(lines[0])
      case Price(d, s, v) => LoadFrom(Record(t, d, s, v), lines[1..])
      case Malformed(e) => Err(e)
      case _ => LoadFrom(t, lines[1..])
  }

  /** `load_prices`, reading the lines of the price file in order into a table. */
  method LoadPrices(lines: seq<string>) returns (r: Result<PriceTable, LoadError>)
    ensures r == LoadFrom(map[], lines)
  {
    var prices: PriceTable := map[];
    for i := 0 to |lines|
      invariant LoadFrom(prices, lines[i..]) == LoadFrom(map[], lines)
    {
      LoadStep(prices, lines, i);
      var line := Strip(lines[i]);
      if line == [] || line[0] == ';' {
        continue;
      }
      var parts := Words(line);
      if |parts| >= 5 && parts[1] == "price" {
        var date := ParseDate(parts[0]);
        if date.None? {
          return Err(BadDate(parts[0]));
        }
        var symbol := parts[2];
        var value := ParseNumber(parts[3]);
        if value.None? {
          return Err(BadNumber(parts[3]));
        }
        ClassifyPriceLine(lines[i]);
        ghost var before := prices;
        if date.value !in prices {
          prices := prices[date.value := map[]];
        }
        prices := prices[date.value := prices[date.value][symbol := value.value]];
        SetDefaultIsRecord(before, date.value, symbol, value.value);
      }
    }
    assert lines[|lines|..] == [];
    return Ok(prices);
  }

  /** A line with at least five words, the second `price`, is read from its
      first, third and fourth words. */
  lemma ClassifyPriceLine(line: string)
    requires Strip(line) != [] && Strip(line)[0] != ';'
    requires |Words(Strip(line))| >= 5 && Words(Strip(line))[1] == "price"
    ensures var parts := Words(Strip(line));
      && (ParseDate(parts[0]).None? ==> ClassifyLine(line) == Malformed(BadDate(parts[0])))
      && (ParseDate(parts[0]).Some? && ParseNumber(parts[3]).None? ==>
            ClassifyLine(line) == Malformed(BadNumber(parts[3])))
      && (ParseDate(parts[0]).Some? && ParseNumber(parts[3]).Some? ==>
            ClassifyLine(line) == Price(ParseDate(parts[0]).value, parts[2], ParseNumber(parts[3]).value))
  {
  }

  /** The loop's two-step `setdefault` update is `Record`. */
  lemma SetDefaultIsRecord(t: PriceTable, d: Date, s: string, v: Decimal)
    ensures var u := if d in t then t else t[d := map[]];
      u[d := u[d][s := v]] == Record(t, d, s, v)
  {
  }

  /** Reading from line `i` on is reading line `i`, then the lines after it. */
  lemma LoadStep(t: PriceTable, lines: seq<string>, i: nat)
    requires i < |lines|
    ensures var k := ClassifyLine(lines[i]);
      && (k.Price? ==> LoadFrom(t, lines[i..]) == LoadFrom(Record(t, k.date, k.symbol, k.value), lines[i + 1..]))
      && (k.Malformed? ==> LoadFrom(t, lines[i..]) == Err(k.error))
      && (Skipped(k) ==> LoadFrom(t, lines[i..]) == LoadFrom(t, lines[i + 1..]))
  {
    assert lines[i..][0] == lines[i] && lines[i..][1..] == lines[i + 1..];
  }

  /** The value of the last line of `lines` that prices `s` on `d`, if any. */
  function LastPrice(lines: seq<string>, d: Date, s: string): Option<Decimal>
  {
    if lines == [] then None
    else
      match LastPrice(lines[1..], d, s)
      case Some(v) => Some(v)
      case None =>
        var k := ClassifyLine(lines[0]);
        if k.Price? && k.date == d && k.symbol == s then Some(k.value) else None
  }

  /** After a successful load every (date, symbol) entry holds the value of the
      LAST line that priced it, later lines overwriting earlier ones; an entry
      no line priced is the one the table started with, and no entry appears
      from nowhere. */
  lemma {:induction false} LoadKeepsLastPrice(t: PriceTable, lines: seq<string>, d: Date, s: string)
    requires LoadFrom(t, lines).Ok?
    ensures var r := LoadFrom(t, lines).value;
      match LastPrice(lines, d, s)
      case Some(v) => d in r && s in r[d] && r[d][s] == v
      case None => (d in r && s in r[d]) <==> (d in t && s in t[d])
    ensures var r := LoadFrom(t, lines).value;
      LastPrice(lines, d, s).None? && d in t && s in t[d] ==> r[d][s] == t[d][s]
    decreases |lines|
  {
    if lines != [] {
      var k := ClassifyLine(lines[0]);
      var t' := if k.Price? then Record(t, k.date, k.symbol, k.value) else t;
      assert LoadFrom(t, lines) == LoadFrom(t', lines[1..]);
      LoadKeepsLastPrice(t', lines[1..], d, s);
      if LastPrice(lines[1..], d, s).None? && k.Price? && (k.date != d || k.symbol != s) {
        assert (d in t' && s in t'[d]) <==> (d in t && s in t[d]);
        assert d in t && s in t[d] ==> t'[d][s] == t[d][s];
      }
    }
  }

  /** Some line is malformed with error `e`, and no earlier line is malformed. */
  predicate FirstMalformed(lines: seq<string>, e: LoadError) {
    exists i :: 0 <= i < |lines| && ClassifyLine(lines[i]) == Malformed(e) &&
      forall j :: 0 <= j < i ==> !ClassifyLine(lines[j]).Malformed?
  }

  /** The load fails exactly when some line is a malformed price line, and
      the error is the first such line's. */
  lemma {:induction false} LoadFailsAtFirstMalformed(t: PriceTable, lines: seq<string>, e: LoadError)
    ensures LoadFrom(t, lines) == Err(e) <==> FirstMalformed(lines, e)
    decreases |lines|
  {
    if lines != [] {
      var k := ClassifyLine(lines[0]);
      if k.Malformed? {
        if FirstMalformed(lines, e) {
          var i :| 0 <= i < |lines| && ClassifyLine(lines[i]) == Malformed(e) &&
            forall j :: 0 <= j < i ==> !ClassifyLine(lines[j]).Malformed?;
          assert i == 0;
        }
        if e == k.error {
          assert ClassifyLine(lines[0]) == Malformed(e);
          assert FirstMalformed(lines, e);
        }
      } else {
        var t' := if k.Price? then Record(t, k.date, k.symbol, k.value) else t;
        assert LoadFrom(t, lines) == LoadFrom(t', lines[1..]);
        LoadFailsAtFirstMalformed(t', lines[1..], e);
        FirstMalformedTail(lines, e);
      }
    }
  }

  lemma FirstMalformedTail(lines: seq<string>, e: LoadError)
    requires lines != [] && !ClassifyLine(lines[0]).Malformed?
    ensures FirstMalformed(lines, e) <==> FirstMalformed(lines[1..], e)
  {
    if FirstMalformed(lines, e) {
      var i :| 0 <= i < |lines| && ClassifyLine(lines[i]) == Malformed(e) &&
        forall j :: 0 <= j < i ==> !ClassifyLine(lines[j]).Malformed?;
      FirstMalformedDrop(lines, e, i);
    }
    if FirstMalformed(lines[1..], e) {
      var i :| 0 <= i < |lines[1..]| && ClassifyLine(lines[1..][i]) == Malformed(e) &&
        forall j :: 0 <= j < i ==> !ClassifyLine(lines[1..][j]).Malformed?;
      FirstMalformedAdd(lines, e, i);
    }
  }

  lemma FirstMalformedDrop(lines: seq<string>, e: LoadError, i: nat)
    requires lines != [] && !ClassifyLine(lines[0]).Malformed?
    requires i < |lines| && ClassifyLine(lines[i]) == Malformed(e)
    requires forall j :: 0 <= j < i ==> !ClassifyLine(lines[j]).Malformed?
    ensures FirstMalformed(lines[1..], e)
  {
    var tail := lines[1..];
    assert ClassifyLine(tail[i - 1]) == Malformed(e);
    forall j | 0 <= j < i - 1 ensures !ClassifyLine(tail[j]).Malformed? {
      assert tail[j] == lines[j + 1];
    }
  }

  lemma FirstMalformedAdd(lines: seq<string>, e: LoadError, i: nat)
    requires lines != [] && !ClassifyLine(lines[0]).Malformed?
    requires i < |lines| - 1 && ClassifyLine(lines[1..][i]) == Malformed(e)
    requires forall j :: 0 <= j < i ==> !ClassifyLine(lines[1..][j]).Malformed?
    ensures FirstMalformed(lines, e)
  {
    var tail := lines[1..];
    assert ClassifyLine(lines[i + 1]) == Malformed(e);
    forall j | 0 <= j < i + 1 ensures !ClassifyLine(lines[j]).Malformed? {
      if j > 0 { assert lines[j] == tail[j - 1]; }
    }
  }

  /** `<date> price <SYMBOL> <value> <ccy>`, one space between the words. */
  function PriceLine(d: Date, symbol: string, value: string, currency: string): string
  {
    Join([FormatDate(d), "price", symbol, value, currency], " ")
  }

  /** A line written in the price-file format is read back as that price. */
  lemma PriceLineIsRead(d: Date, symbol: string, value: string, currency: string)
    requires symbol != [] && NoSpace(symbol) && currency != [] && NoSpace(currency)
    requires value != [] && NoSpace(value) && ParseNumber(value).Some?
    ensures ClassifyLine(PriceLine(d, symbol, value, currency)) == Price(d, symbol, ParseNumber(value).value)
  {
    var date := FormatDate(d);
    assert NoSpace(date) && date != [];
    var parts := [date, "price", symbol, value, currency];
    var line := PriceLine(d, symbol, value, currency);
    PriceLineIsStripped(d, symbol, value, currency);
    WordsOfJoin(parts);
    ParseFormatDate(d);
    ClassifyPriceLine(line);
  }

  lemma PriceLineIsStripped(d: Date, symbol: string, value: string, currency: string)
    requires symbol != [] && currency != [] && !IsSpace(currency[|currency| - 1])
    ensures Strip(PriceLine(d, symbol, value, currency)) == PriceLine(d, symbol, value, currency)
    ensures PriceLine(d, symbol, value, currency)[0] != ';'
  {
    var date := FormatDate(d);
    var parts := [date, "price", symbol, value, currency];
    var line := PriceLine(d, symbol, value, currency);
    assert line == date + " " + Join(parts[1..], " ");
    assert line[0] == date[0] && IsDigit(date[0]);
    JoinEndsWithLast(parts, " ");
    assert line[|line| - 1] == line[|line| - |currency|..][|currency| - 1];
    assert StripLeft(line) == line;
  }
}
