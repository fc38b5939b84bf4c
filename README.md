# Kazakh exchange rates: the rate table and the calculator rules

A model of the decision logic of the console program
`kazakh-exchange-rates-with-calculator.py`, which scrapes buy and sell rates
of USD, EUR and RUB against the tenge from an exchange page and converts
amounts in either direction.

The program's deterministic core is small, and the model covers all of it:

- **Fetcher** (`fetcher.dfy`): how the fetcher builds its table from the
  three text columns of the page (currency names, buy texts, sell texts).
  - If the three columns differ in length, the table is empty.
  - Otherwise the rows are walked in order. Each rate text has its decimal
    commas turned into points (`NormaliseDecimal`).
  - Only rows named exactly `USD`, `EUR` or `RUB` are stored, and a later row
    overwrites an earlier one.
  - Python's `float()` is the parameter `parse`. There `None` stands for its
    `ValueError`, and the fetcher does not catch it, so the fetch ends at the
    first stored row whose buy or sell text does not parse (`FetchError`).
  - `FetchRates` is the loop itself, as a method. It is proved equal to the
    function `FetchTable`, and the lemmas state the table's properties in
    terms of `FetchTable`.
- **Calculator** (`calculator.dfy`): the rules of one pass of the calculator
  loop.
  - The currency menu maps `1`/`2`/`3` to USD/EUR/RUB and the direction menu
    maps `1`/`2` to tenge→foreign and foreign→tenge (`ChooseCurrency`,
    `ChooseDirection`).
  - The formulas (`ConvertAt`, and `Convert` with the table lookup in front):
    tenge→foreign divides the amount by the buy rate and by the sell rate.
    Foreign→tenge multiplies, and the result the program labels "buy" is
    taken with the *sell* rate, the "sell" result with the *buy* rate. The
    model keeps this cross-wiring as written.
  - A currency missing from the table (Python `KeyError`) and a zero divisor
    (`ZeroDivisionError`) end the program. Both are modelled as errors
    (`ConvertError`).
  - `CalculatorPass` is one pass from the three answers to its outcome:
    start over, crash, or a conversion. The amount text is parsed as typed,
    with no comma normalisation.
- **Replies** (`replies.dfy`): the yes/no questions.
  - A reply is stripped of white space, using the characters of Python's
    `str.isspace()`, and lower-cased.
  - The calculator goes on only on `да` (`ContinueReply`). The opening
    question also accepts `нет`, and asks again for anything else
    (`OpeningDecision`).

The foreign→tenge cross-wiring could be a dealer's convention or a slip. The
model keeps it as written and proves what it implies. Converting tenge to
foreign and back returns the start amount when the "buy" result of one
direction is paired with the "sell" result of the other
(`TengeRoundTrip`, `ForeignRoundTrip`).

For foreign→tenge at buy 450 / sell 455, 10 units give
`result_buy = 10 * 455 = 4550` and `result_sell = 10 * 450 = 4500`
(`ForeignToTengeExample`). Line 92 prints `result_sell` as the amount "by
the selling rate" although it was worked out with the buy rate, and line 93
does the same the other way round.

## Model

| member | source | states |
|---|---|---|
| `Fetcher.NormaliseDecimal` | kazakh-exchange-rates-with-calculator.py:21-22 | the normalised text has the same length, has '.' where the input had ',' and the input's character everywhere else, and contains no comma |
| `Fetcher.NormaliseFixesCommaFree` | kazakh-exchange-rates-with-calculator.py:21-22 | a text that has no comma is left unchanged |
| `Fetcher.NormaliseIdempotent` | kazakh-exchange-rates-with-calculator.py:21-22 | normalising twice gives the same text as normalising once |
| `Fetcher.NormaliseAppend` | kazakh-exchange-rates-with-calculator.py:21-22 | normalising a concatenation is concatenating the normalised parts, since the replacement is per character |
| `Fetcher.NormaliseDecimalComma` | kazakh-exchange-rates-with-calculator.py:21-22 | a rate written `whole,fraction` reads as `whole.fraction` |
| `Fetcher.FetchRates` | kazakh-exchange-rates-with-calculator.py:15-35 | the loop returns exactly `FetchTable`: empty table when the columns differ in length, otherwise the rows processed in index order, stopping at the first unparsable stored rate |
| `Fetcher.MisalignedGivesEmptyTable` | kazakh-exchange-rates-with-calculator.py:15-35 | when the three columns do not all have the same length, the result is the empty table and no row is read |
| `Fetcher.FetchKeysTracked` | kazakh-exchange-rates-with-calculator.py:24-31 | every key of a fetched table is one of `USD`, `EUR`, `RUB` (names are compared exactly, so other spellings are never keys) |
| `Fetcher.FetchKeyIffOccurs` | kazakh-exchange-rates-with-calculator.py:17-31 | with aligned columns, a name is a key of the table exactly when it is tracked and occurs in the names column |
| `Fetcher.FetchLastRowWins` | kazakh-exchange-rates-with-calculator.py:19-31 | the entry of a tracked name holds the buy and sell values parsed from the normalised texts of the last row with that name |
| `Fetcher.FetchFailsAtFirstBadRow` | kazakh-exchange-rates-with-calculator.py:19-31 | with aligned columns the fetch fails exactly when some tracked row has an unparsable buy or sell text, and the error names the first such row |
| `Fetcher.AssembleErrorPersists` | kazakh-exchange-rates-with-calculator.py:28-31 | once a row's parse has failed, processing further rows keeps that same error (the exception leaves the loop) |
| `Fetcher.AssembleError` | kazakh-exchange-rates-with-calculator.py:19-31 | after any prefix of rows: failure exactly when a row of the prefix fails, the reported error being that of the first failing row, buy text checked before sell text |
| `Fetcher.AssembleKeys` | kazakh-exchange-rates-with-calculator.py:19-31 | after a successful prefix, the keys are exactly the tracked names occurring in it |
| `Fetcher.AssembleLastRowWins` | kazakh-exchange-rates-with-calculator.py:19-31 | after a successful prefix, a tracked name maps to the rate of its last row in the prefix |
| `Fetcher.SamplePage` | kazakh-exchange-rates-with-calculator.py:15-35 | a page listing USD, EUR, RUB once each plus an untracked currency yields exactly those three keys with each row's parsed rates |
| `Calculator.CodesAreTracked` | kazakh-exchange-rates-with-calculator.py:48-53 | every menu currency is stored under a code the fetcher keeps, and distinct currencies have distinct codes |
| `Calculator.ChooseCurrencyMatchesKey` | kazakh-exchange-rates-with-calculator.py:47-56 | the currency menu selects a currency exactly when its own key ("1" USD, "2" EUR, "3" RUB) was typed |
| `Calculator.ChooseCurrencyAccepts` | kazakh-exchange-rates-with-calculator.py:47-56 | the currency menu selects something exactly for "1", "2" and "3" |
| `Calculator.ChooseDirectionMatchesKey` | kazakh-exchange-rates-with-calculator.py:63-71 | the direction menu selects a direction exactly when its own key ("1" tenge to foreign, "2" foreign to tenge) was typed |
| `Calculator.ChooseDirectionAccepts` | kazakh-exchange-rates-with-calculator.py:63-71 | the direction menu selects something exactly for "1" and "2" |
| `Calculator.ConvertFailsExactly` | kazakh-exchange-rates-with-calculator.py:83-91 | a conversion fails with a missing currency exactly when the code is not in the table, with a division by zero exactly when converting tenge to foreign at a zero buy or sell rate, and succeeds otherwise |
| `Calculator.TengeToForeignPricesBack` | kazakh-exchange-rates-with-calculator.py:83-85 | the two tenge-to-foreign results, multiplied by the buy and by the sell rate respectively, give back the tenge amount |
| `Calculator.TengeRoundTrip` | kazakh-exchange-rates-with-calculator.py:83-91 | tenge to foreign and back returns the amount when the "buy" result is brought back as the "sell" result and vice versa (the cross-wiring) |
| `Calculator.ForeignRoundTrip` | kazakh-exchange-rates-with-calculator.py:83-91 | foreign to tenge and back returns the amount under the same crossed pairing, whenever both rates are non-zero |
| `Calculator.ForeignToTengeExample` | kazakh-exchange-rates-with-calculator.py:89-91 | for buy 450 and sell 455, 10 foreign units give 4550 as the "buy" result and 4500 as the "sell" result |
| `Calculator.PassRestartsExactly` | kazakh-exchange-rates-with-calculator.py:47-80 | a pass starts over exactly when the currency answer is not "1"-"3", the direction answer not "1"-"2", or the amount does not parse |
| `Calculator.PassConvertsByKeys` | kazakh-exchange-rates-with-calculator.py:47-91 | a converting pass used the currency and direction whose keys were typed, the parsed amount, and the conversion formulas |
| `Calculator.PassCrashesExactly` | kazakh-exchange-rates-with-calculator.py:76-91 | with valid answers and a parsable amount, a pass crashes exactly when the conversion fails |
| `Replies.SkipSpace` | kazakh-exchange-rates-with-calculator.py:96 | the index found is the end of the white-space run starting at the given index: everything skipped is white space and the character there, if any, is not |
| `Replies.SkipSpaceBack` | kazakh-exchange-rates-with-calculator.py:96 | going back from the end, everything skipped is white space and the character just before the index found, if inside the range, is not |
| `Replies.StripSplitsReply` | kazakh-exchange-rates-with-calculator.py:96 | a reply is its leading white space, then the stripped text, then its trailing white space, and the stripped text neither starts nor ends with white space |
| `Replies.StripPadded` | kazakh-exchange-rates-with-calculator.py:96 | a word with non-space ends, written between runs of white space, strips back to exactly the word (with StripSplitsReply, this pins down Strip completely) |
| `Replies.SkipPadded` | kazakh-exchange-rates-with-calculator.py:96 | from anywhere inside a white-space run, the forward skip stops at the run's end |
| `Replies.SkipBackPadded` | kazakh-exchange-rates-with-calculator.py:96 | from anywhere inside a trailing white-space run, the backward skip stops at the run's start |
| `Replies.Lower` | kazakh-exchange-rates-with-calculator.py:96 | lower-casing keeps the length and maps each character by itself |
| `Replies.LowerToDeA` | kazakh-exchange-rates-with-calculator.py:96-97 | only 'д'/'Д' lower-case to 'д' and only 'а'/'А' to 'а' |
| `Replies.ContinueExactly` | kazakh-exchange-rates-with-calculator.py:96-99 | the calculator continues exactly when the stripped reply is the two letters д, а in any case |
| `Replies.ContinueOnPaddedYes` | kazakh-exchange-rates-with-calculator.py:96-99 | " Да" followed by a newline continues |
| `Replies.StopOnNo` | kazakh-exchange-rates-with-calculator.py:96-99 | "нет" ends the calculator |
| `Replies.StopOnSplitYes` | kazakh-exchange-rates-with-calculator.py:96-99 | "д а" ends the calculator: only the ends of a reply are stripped |
| `Replies.LowerToNet` | kazakh-exchange-rates-with-calculator.py:106 | only 'н'/'Н' lower-case to 'н', only 'е'/'Е' to 'е' and only 'т'/'Т' to 'т' |
| `Replies.DeclineExactly` | kazakh-exchange-rates-with-calculator.py:106-115 | the opening question declines exactly when the stripped reply is the three letters н, е, т in any case |
| `Replies.OpeningAgreesWithContinue` | kazakh-exchange-rates-with-calculator.py:106-115 | the opening question opens the calculator exactly on the replies on which the calculator continues, and a "нет" there is never a continue |

## Left out

- The HTTP request to the exchange page and the HTML parsing with CSS classes and `get_text(strip=True)` (lines 7-13, 20-22): network I/O and a foreign library. The three extracted, stripped text columns are the inputs.
- Python's `float()`: it is the parameter `parse`. Infinities, NaN, binary floating-point rounding and overflow are not modelled; the formulas are over exact `real` numbers.
- The `:.2f` rounding of the printed results (lines 86-93): presentation only.
- All `print` and `input` calls, and the two `while True` prompt loops themselves (lines 39-99 and 105-116). What one pass decides is modelled (`CalculatorPass`, `ContinueReply`, `OpeningDecision`), not the repetition of passes.
- The order of keys in the Python dictionary: a `map` has none, and nothing in the program ever iterates `rates`.
- `Replies.Lower` maps only A-Z and the Cyrillic capitals U+0400-U+042F, not the whole Unicode case mapping of `str.lower()`. No omitted character lower-cases to a letter of "да" or "нет", so the outcome of the two comparisons is unaffected.
- `GUI for erwc.py` is not part of this model: the desktop window, its theme settings file and its timed refresh. It also takes the shortest column length instead of returning an empty table on a mismatch, and the model follows the console program.
