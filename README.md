# Demo ledger generator and HSBC filename logic, in Dafny

This project models two pieces of a personal-finance repository built on
Beancount.

The main piece is the demo journal generator, `demo/generate.py`. It does four things:

- It reads a price file of `<date> price <SYMBOL> <value> <currency>` lines into a table of date → symbol → price.
- It resolves the VWRL and GOOG prices for each day. A table hit updates a map of last-known prices. On a miss it falls back to the last known price, then a seed price, then 100.
- It walks every day from 2022-01-01 to 2024-04-01 and emits transactions:
  - on the 1st of each month: salary, rent, a two-unit GOOG vest and purchase, and ISA and GIA transfers with VWRL purchases;
  - on every day: randomly drawn groceries and dinners;
  - on the 25th: a 500.00 card payment.
- It writes the journal: a fixed header, then the transactions separated by blank lines, then an `include` of the price file.

The second piece is the filename logic of the chapter-3 HSBC current-account importer (`chapter-3/importers/hsbc.py`): `name`, `account`, `identify` and `date`.

Modules, one per file:

- `Wrappers`: `Option` and `Result`.
- `Text`: the Python string operations the code relies on:
  - `strip`, `split()`, `split(sep)`, `sub in s`, `replace(pat, '')` and `join`;
  - digit strings.
- `Calendar`: `datetime.date` over years 1..9999:
  - validity, order, and the next day;
  - `%Y-%m-%d` formatting and parsing.
- `Fixed`: exact decimals with a mantissa and an exponent:
  - `round(x, 2)` as whole cents (halves to even);
  - `"{:.2f}"` output and reading it back;
  - `int(a / p)` as a truncated quotient.
- `PriceFile`: `load_prices`:
  - a line classifier;
  - a specification function over the lines;
  - the loading loop as a method proved equal to that function.
- `Resolver`: `INITIAL_PRICES` and `get_price`:
  - the `last_known` map is a `LastKnown` object that `GetPrice` updates in place;
  - carry-forward correctness is stated with ghost predicates over the table.
- `Ledger`:
  - transactions and postings with their balance rule and the accounts the header opens;
  - rendering of a transaction and of the whole document.
- `Events`: the transactions one day produces, from the two prices and a stream of random draws.
- `Generator`:
  - `Run` is the day-by-day specification;
  - `Generate` is the `while` loop, with a `LastKnown` object and an accumulating list, proved equal to `Run`;
  - `GenerateJournal` is `generate()` as a whole: loading, the loop over the configured dates, and the journal text;
  - lemmas cover order, range, balance, open accounts, carried prices, days visited and failures.
- `HsbcImporter`: the importer's path logic over `pathlib` semantics (`name`, `suffix`, `stem`, `str(path)`).

Where the code and its prose description differ, the model follows the code:

- The Salary and Rent transactions leave their second posting without an amount (`generate.py:123-129`).
- A start date after the end date yields no transactions and no error (`generate.py:114`).
- The GOOG vest is a fixed 2 units (`generate.py:133`).
- A seed price is returned but never stored in `last_known` (`generate.py:96`).

Money is in whole cents wherever the code rounds to two places. The random source is a parameter `rng: nat -> real`: the k-th call to `random.random()`. `random.uniform(a, b)` is `a + (b - a) * rng(k)`. A day draws twice, plus once more for each purchase that fires.

## Model

| member | source | states |
|---|---|---|
| Calendar.DaysInMonth | demo/generate.py:187 | A month has 28 to 31 days, and February has 29 exactly in Gregorian leap years. |
| Calendar.MakeDate | chapter-3/importers/hsbc.py:54 | `datetime.date(y, m, d)` succeeds exactly for a valid calendar date and then yields that date. |
| Calendar.NextDay | demo/generate.py:187 | Adding one day fails only on 9999-12-31 (OverflowError) and otherwise gives a later date. |
| Calendar.NextDayIsSuccessor | demo/generate.py:187 | The next day is the immediate successor: every date after `d` is on or after `NextDay(d)`. |
| Calendar.FormatDate | demo/generate.py:115 | `strftime("%Y-%m-%d")` is ten characters of digits and dashes. |
| Calendar.ParseFormatDate | demo/generate.py:74 | `ParseDate` (`strptime(..., "%Y-%m-%d")`) reads back exactly the date `FormatDate` (`strftime`) wrote. |
| Fixed.ParseUnsigned | demo/generate.py:76 | An unsigned numeral reads as a non-negative decimal. |
| Fixed.ParsePointedValue | demo/generate.py:76 | `float()` of a numeral `w.f` is exactly the digits of `w` and `f` run together, over 10 to the number of digits in `f`. So `84.1234` reads as 841234 / 10^4 and `007.5` reads as 75 / 10. |
| Fixed.ParseWholeValue | demo/generate.py:76 | `float()` of a numeral without a point is exactly the whole number its digits spell. |
| Fixed.RoundCents | demo/generate.py:132-134 | `round(x, 2)` gives the nearest whole cents, within half a cent, and the even one on an exact tie. |
| Fixed.RealCents | demo/generate.py:168-170 | `.2f` of a drawn amount is the nearest whole cents, halves rounded up. |
| Fixed.FormatInt | demo/generate.py:140 | `str(n)` is non-empty text. Its value is pinned by `Fixed.ParseFormatInt`, which reads it back as `n`. |
| Fixed.ParseFormatCents | demo/generate.py:124 | `ParseNumber` (`float()`) of the `FormatCents` (`.2f`) text of a cent amount is exactly those cents. |
| Fixed.ParseFormatInt | demo/generate.py:140 | The printed unit count reads back as the same integer. |
| Fixed.PurchaseUnits | demo/generate.py:145 | `int(amount / price)` for a positive price is the largest count whose cost fits the amount. For a negative price it is the truncated quotient. |
| PriceFile.ClassifyLine | demo/generate.py:67-75 | A line is blank or a comment exactly when, after stripping, it is empty or starts with `;`. It is skipped exactly when it is blank, a comment, shorter than five words, or its second word is not `price`. |
| PriceFile.Record | demo/generate.py:77-79 | Recording a price sets that date and symbol and keeps every other entry of the table, under the same date or any other. |
| PriceFile.LoadPrices | demo/generate.py:61-81 | The loading loop over the file's lines yields exactly the table (or error) of `LoadFrom`, the line-by-line specification. |
| PriceFile.LoadKeepsLastPrice | demo/generate.py:74-79 | After a successful `LoadFrom`, each (date, symbol) holds the value of the last line that priced it. Entries no line priced are unchanged, and none appear from nowhere. |
| PriceFile.LoadFailsAtFirstMalformed | demo/generate.py:73-76 | `LoadFrom` fails exactly when some accepted price line has a bad date or number, with the error of the first such line. |
| PriceFile.PriceLineIsRead | demo/generate.py:71-76 | A line written as `<date> price <SYMBOL> <value> <ccy>` is read as that date, symbol and the `ParseNumber` value. |
| Resolver.Resolve | demo/generate.py:85-96 | A table hit returns the table price and stores it under the symbol alone. A miss leaves the map unchanged and returns the stored price, else `SeedPrice`: GOOG 136.0, VWRL 84.0, USD 0.74, otherwise 100.0. |
| Resolver.LastKnown.constructor | demo/generate.py:110 | The last-known map starts empty. |
| Resolver.GetPrice | demo/generate.py:92-96 | The method's result and the object's new map are the resolver's result, computed from the old map. |
| Resolver.TracksAtStart | demo/generate.py:110-112 | The empty map is correct for the empty window before the first day. |
| Resolver.ResolveCarriesForward | demo/generate.py:94-96 | If the map tracks the latest table price before day `d`, resolving on `d` returns the price of the latest table date in [start, d] (or the seed when there is none), and the map then tracks through `d`. |
| Resolver.ResolveOtherKeepsTracks | demo/generate.py:94-95 | Resolving one symbol never disturbs what the map records for another. |
| Resolver.NextDayKeepsTracks | demo/generate.py:187 | A map that tracks through day `d` tracks up to the next day. |
| Ledger.RenderLines | demo/generate.py:123-125 | `Render` writes a transaction as its title line followed by exactly one line per posting. |
| Ledger.RenderAll | demo/generate.py:192 | Every transaction is rendered on its own, in order. |
| Ledger.DocumentLayout | demo/generate.py:190-195 | `Document`, of which `Journal` is the instance with the fixed header and the include trailer, starts with the header and ends with the trailer. The i-th block sits at its join offset after the header, followed by a blank line when it is not the last. |
| Events.MonthStart | demo/generate.py:132-164 | The first-of-month batch fails exactly when VWRL rounds to 0.00 (the ZeroDivisionError). Otherwise it is the eight transactions built from the rounded prices. |
| Events.MonthlyPostings | demo/generate.py:123-164 | The first-of-month batch has exactly eight transactions. |
| Events.MonthlyFacts | demo/generate.py:122-164 | The batch is, in order, Salary, Rent, RSU Vest, Buy GOOG, ISA Transfer, ISA Buy VWRL, GIA Transfer, GIA Buy VWRL. Each is dated that day, balanced, posts to opened accounts, and carries the day's rounded prices as cost. Salary is 3500.00 GBP and Rent 1200.00 GBP, each with its other leg left to infer. The vest is 2 GOOG: the cash leg is twice the rounded GOOG price and the purchase is 2 GOOG at that price. |
| Events.MonthlyBalanced | demo/generate.py:123-164 | Each of the eight has two postings that cancel in one currency, or one leg left for Beancount to infer. |
| Events.MonthlyOpen | demo/generate.py:37-51 | Each of the eight posts only to an (account, currency) pair the header opens. |
| Events.PurchaseBounds | demo/generate.py:144-157 | For a positive VWRL price, the ISA and GIA unit counts satisfy `units * p <= amount < (units + 1) * p`. Each transfer is exactly `units * p` GBP, the cost of the units its purchase buys, and so lies between 0 and the investment amount. |
| Events.Occasional | demo/generate.py:167-175 | A purchase fires exactly when the draw is below its probability. It consumes two draws when it fires and one otherwise, and its amount lies in [lo, hi]. The amount is `uniform(lo, hi)` of the second draw, `lo + (hi - lo) * rng(k + 1)`, written in cents. |
| Events.DiscretionaryDraws | demo/generate.py:166-178 | The first draw decides the groceries (below 0.15), which come first and cost `uniform(30, 120)` of the next draw. The draw after those decides the dinner (below 0.08), which comes last and costs `uniform(20, 80)` of the draw after it. The day ends at the draw after the dinner's. |
| Events.DiscretionaryFacts | demo/generate.py:166-178 | Random spending on a day is zero to two Amex-funded transactions: groceries of 30.00–120.00 or dinner of 20.00–80.00. Each is balanced and dated that day, and the count matches the draws used. |
| Events.CardSpendFacts | demo/generate.py:169-178 | A card purchase, when there is one, is a single well-formed transaction charged to the Amex card for exactly the drawn amount. |
| Events.PaymentFacts | demo/generate.py:181-185 | On a 25th the card payment is one well-formed transaction of 500.00 GBP from the current account to the Amex card. On any other day there is none. |
| Events.DayEntryCounts | demo/generate.py:122-185 | `DayEvents` writes exactly one Salary, on a 1st, and exactly one Payment, on a 25th, and none dated any other day. |
| Events.DayEventsFacts | demo/generate.py:118-185 | `DayEvents` fails exactly on a 1st whose VWRL price rounds to 0.00. Otherwise it uses two to four draws, and every transaction is well formed. A day holds exactly 8 (on a 1st) plus one per random purchase plus 1 (on a 25th) transactions. A 1st starts with exactly the eight monthly transactions of `MonthlyPostings`, with their amounts at the day's rounded prices, and a 25th ends with the 500.00 GBP payment from the current account to the Amex card. |
| Generator.Generate | demo/generate.py:109-187 | The `while` loop, with its last-known object and growing list, yields exactly `Run`, the day-by-day specification, from the start date with an empty map and draw 0. |
| Generator.GenerateJournal | demo/generate.py:99-195 | `generate()` end to end, over the dates 2022-01-01 to 2024-04-01. A malformed price line aborts it with that line's error, and so does a failed run, so nothing is written. Otherwise the text written is the journal of exactly the transactions `Run` produces from an empty map and draw 0. |
| Generator.RunPast | demo/generate.py:114 | A start after the end produces no transactions and no error. |
| Generator.RunIsWellFormed | demo/generate.py:114-187 | Every generated transaction is dated within [start, end] and balanced. It posts only to opened accounts once the run starts on or after their opening date. |
| Generator.RunIsSorted | demo/generate.py:114-187 | Generated transactions are in non-decreasing date order. |
| Generator.RunVisitsDay | demo/generate.py:112-187 | Each day is visited exactly once: every 1st in [start, end] has exactly one Salary and every 25th exactly one Payment. No other date has either. |
| Generator.DayStep | demo/generate.py:118-119 | Resolving VWRL then GOOG on a day returns both carried-forward prices, and the map then tracks both through that day. |
| Generator.RunUsesCarriedPrices | demo/generate.py:112-119 | Every cost-basis leg uses the rounded carried-forward price: from the latest table date since the start, or the seed. |
| Generator.RunOverflow | demo/generate.py:187 | A run fails by stepping past 9999-12-31 (OverflowError) only when its end date is 9999-12-31. |
| Generator.RunToLastDateFails | demo/generate.py:114-187 | Conversely, a run ending on 9999-12-31 always fails, because `current_date <= END_DATE` holds for every date. It raises on some day or steps past the last date. |
| Generator.RunFailures | demo/generate.py:144-145 | A run fails with a ZeroDivisionError only on a 1st of the month in [current, end] whose VWRL price, carried forward from the start, rounds to 0.00. |
| Generator.GenerateOutput | demo/generate.py:109-187 | A successful run from an empty map is within range, balanced, priced at carried-forward prices and sorted. |
| Generator.ZeroPriceDayFails | demo/generate.py:112-145 | Conversely, if some 1st in [current, end] has a carried VWRL price that rounds to 0.00, the run fails with a ZeroDivisionError on that day or an earlier one. |
| Generator.GenerateFailures | demo/generate.py:114-187 | With an end before 9999-12-31, the run cannot overflow. It fails if and only if some 1st in range has a carried VWRL price that rounds to 0.00, and the error names such a day. |
| HsbcImporter.ImporterName | chapter-3/importers/hsbc.py:26-28 | `name()` is always `hsbc_current`. |
| HsbcImporter.Account | chapter-3/importers/hsbc.py:41-43 | `account()` returns the constructor's account for any file. |
| HsbcImporter.SuffixIsCsv | chapter-3/importers/hsbc.py:35 | `path.suffix == '.csv'` exactly when the final component is longer than four characters and ends in `.csv`. |
| HsbcImporter.IdentifyIff | chapter-3/importers/hsbc.py:30-39 | `Identify` (`identify`) holds exactly when the name ends in `.csv` (with a non-empty stem) and `hsbc-current` occurs in the path string. |
| HsbcImporter.StatementFileIdentified | chapter-3/importers/hsbc.py:33-39 | A `statement-YYYY-MM.csv` file under an `hsbc-current` directory is claimed. |
| HsbcImporter.FileDate | chapter-3/importers/hsbc.py:45-55 | Any date `date` returns is a first of the month or today. Whenever the stem contains `statement-` and leaves at least two `-` parts once every tag is removed, a returned date is a first of the month. |
| HsbcImporter.StatementFileDate | chapter-3/importers/hsbc.py:49-54 | A `statement-YYYY-MM.csv` file, under any directories, is dated the first of that month. |
| HsbcImporter.UntaggedIsToday | chapter-3/importers/hsbc.py:51-55 | A stem without `statement-`, or with fewer than two parts after removing it, is dated today. |
| HsbcImporter.PrefixedStatementRaises | chapter-3/importers/hsbc.py:52-54 | Every `statement-` is removed, not only a prefix. So `<word>-statement-….csv`, for a word of lower-case letters without `s` (such as `bank`), hands the word to `int()`, which raises. The lemma does not cover words containing `s`. For the word `statement`, both tags are removed: `statement-statement-2024-01.csv` is dated 2024-01-01. |

## Left out

- Reading the price file, `os.makedirs`, writing `journal.beancount` and `print` are not modelled. The loader takes the file's lines, and the document is a string.
- Python's Mersenne Twister (`random.seed(42)`, `random.random`, `random.uniform`) is replaced by the draw stream `rng`. The concrete demo transactions therefore are not reproduced.
- Floating point is modelled with exact decimals:
  - `float()` of a price is read as an exact decimal, and `round(x, 2)` rounds that decimal half to even, where Python rounds the nearest binary double.
  - `.2f` of a drawn amount rounds the exact real half up.
  - `int(a / p)` divides exactly.
  - On values that binary floats do not represent exactly, these can differ from the program by one cent or one unit.
  - Negative zero is not modelled. In Python, `round(x, 2)` gives `-0.0` for a GOOG numeral that reads as `-0.0` (such as `-0.0` or `-0`). It does the same for a negative numeral that reads as a double above the double nearest -0.005. Such numerals lie strictly between about -0.0049999999999999996704025 and 0. The RSU Vest is then written `-0.00` and `--0.00`, where the model writes `0.00` and `-0.00`. Buy GOOG is written with cost `{-0.00 USD}` and cash leg `--0.00 USD`, where the model writes `{0.00 USD}` and `-0.00 USD`. A GOOG price of `0` or `0.0` is written `0.00` by both.
  - Overflow to infinity is not modelled. A price numeral beyond the double range becomes `inf` in Python, and the program writes `inf` or `nan` text without an error. The model computes with the exact value.
- `Events.MonthStart`: its failure condition holds under the model's decimal rounding, and so do those of `Events.DayEventsFacts`, `Generator.RunFailures` and `Generator.GenerateFailures`.
  - The set that differs is every VWRL numeral that `float()` reads as the same double as `0.005`, and at most 0.005. Those are the numerals strictly above m ≈ 0.0049999999999999996704025395644066520617 and at most 0.005, where m is the midpoint between that double and the next double below it.
  - The model rounds such a numeral, for example `0.0049999999999999999999` or `0.005`, to 0.00, so a 1st fails. In the program that double lies just above 0.005, so `round(x, 2)` gives 0.01 and the run goes on.
  - The same holds for the negated numerals, which the program rounds to -0.01.
  - Numerals above 0.005 read as the same double in the program and round to 0.01 in both. Numerals at or below m round to 0.00 in both. So no other VWRL numeral fails in one and not in the other.
- `Fixed.ParseUnsigned`: `float()` is modelled only for plain decimal numerals in ASCII digits with an optional sign. Python also accepts exponents, `inf`/`nan`, underscores and non-ASCII decimal digits (such as `١٨٢.٠١`, read as 182.01). The model reads those as a `BadNumber` error, which stops the load where the program goes on.
- `Calendar.ParseDate`: only ASCII digits are read. `strptime('%Y-%m-%d')` also accepts any Unicode decimal digit in the year, and in the day's second digit when the first is `1` or `2`. So `٢٠٢٢-01-03` reads as 2022-01-03 in the program, and `2022-01-1٣` reads as 2022-01-13. The model reads such a date as a `BadDate` error, which stops the load where the program goes on.
- `HsbcImporter.FileDate`: `int()` accepts surrounding whitespace, a sign and ASCII digits only. Underscore separators and non-ASCII digits, which Python also accepts, are not modelled.
- `Calendar.FormatDate`: years below 1000 are written with four digits. The program never produces them; on some platforms `strftime` writes them unpadded.
- `Ledger.RenderAll`: a negative price would render as `--x.xx`, as the source's literal `-` before the formatted amount does. The model keeps that text, but no lemma states the parsed value of such a line.
- The header literal (`generate.py:19-58`) is the constant `Ledger.Header`. No lemma states `Ledger.DocumentLayout` for the concrete header; it is stated for any header and trailer.
- `Generator.Generate` takes the start and end dates as parameters. `Generator.GenerateJournal` fixes them to the configured dates.
- `datetime.date.today()` in `date` is the parameter `today`.
- `filepath.name` handling for beangulp's `_FileMemo` objects is not modelled. Paths are plain strings.
- `extract` and its CSV, `Decimal` and Beancount plumbing are not part of this model.
