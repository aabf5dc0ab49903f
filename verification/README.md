# Enrollment dashboard: the data behind the charts

`visualize.js` draws five charts over a table of schools loaded from a CSV
file, one row per school, with a `School` column and, per quarter `q` in
Q1..Q5, the columns `Quarterly Total_q`, `Dependent Students_q` and
`Independent Students_q`. Every cell arrives as a string. Before drawing,
four of the five charts (all but `drawMap`, see "## Left out") derive a small
dataset from the rows (`globalData`) with unary `+` and
`map`/`filter`/`sort`/`slice`. This project models that derivation
layer, plus the `formatNumber` helper, and proves what each step promises.

- `Values` (values.dfy): a row is a map from header to cell text. A cell
  read from a row is a string or `undefined`. A JavaScript number is an
  integer or NaN. Unary `+` on a cell is `ToNumber`: `undefined` is NaN, and
  the text of a string cell is read by `ParseNumber`:
  - white space around the text is ignored;
  - a blank cell is 0;
  - one optional sign may come before the digits;
  - anything else is NaN, so "1,000" is NaN.
- `Sequences` (sequences.dfy): `map` and `filter`, and the facts about
  `filter` that the histogram, scatter and growth datasets rely on: it
  never grows its input, it keeps exactly the accepted elements, and it
  keeps their order.
- `Format` (format.dfy): `formatNumber` as the empty matches of
  `/\B(?=(\d{3})+(?!\d))/g` on `num.toString()`, each replaced by a comma.
- `Derive` (derive.dfy): the histogram values, the scatter points and the
  growth records for the Vega-Lite plot. The growth step is the `forEach`
  that sets `Growth` in place on an array of records.
- `Ranking` (ranking.dfy): the bar chart's data. `[...globalData]` is sorted
  in place with `d3.descending`, then the first ten rows are taken. Also the
  upper end of the y-domain. The spread copy holds references to the row
  objects of `globalData`. The model represents each reference by the row's
  position in `globalData`, so rows with equal contents stay distinct.

`globalData` is a parameter of every derivation, an immutable sequence. The
sort runs on a freshly allocated copy. No derivation can change the loaded
rows.

## Model

| member | source | states |
|---|---|---|
| `Values.Get` | visualize.js:122 | `d[col]`: the cell's text when the row has the column, `undefined` otherwise |
| `Values.IsJsSpace` | visualize.js:122 | the white space and line terminators StringToNumber ignores around a literal |
| `Values.TrimStart` | visualize.js:122 | the result is a suffix of the text, only white space was dropped, and it does not start with white space |
| `Values.TrimEnd` | visualize.js:122 | the result is a prefix of the text, only white space was dropped, and it does not end with white space |
| `Values.TotalColumn` | visualize.js:121 | `"Quarterly Total_" + q`, the column read by the histogram, the bar chart (line 194), the scatter plot and the growth records |
| `Values.ParseNumber` | visualize.js:122 | unary `+` on a cell's text: white space trimmed, then `ParseTrimmed`; what it yields is stated by `ParseBlank`, `ParseComma` and `ParseIntToString` |
| `Values.ParseTrimmed` | visualize.js:122 | StringToNumber on the trimmed literal: blank is 0, an optional sign before decimal digits, anything else NaN; stated by `TrimmedComma`, `ParseDigits` and `ParseNegative` |
| `Values.ParseDigits` | visualize.js:122 | a non-empty digit string is read as its decimal value |
| `Values.ParseNegative` | visualize.js:122 | a minus sign before a non-empty digit string is read as the negated value |
| `Values.ToNumber` | visualize.js:122 | `+undefined` is NaN; `+` on a string is `ParseNumber` |
| `Values.NumberAt` | visualize.js:197 | `+d[col]` on a row, as in the sort comparator, the scatter fields (lines 275-277) and the growth records (lines 362-366) |
| `Values.IntToString` | visualize.js:29 | `n.toString()`: non-empty, starting with `-` exactly when `n` is negative, otherwise only digits; `NatToString` states the digits' value and `ParseIntToString` the round trip |
| `Values.NatToString` | visualize.js:29 | `toString()` of a non-negative integer is a digit string whose value is the integer, has no leading zero, and has as many digits as the integer's magnitude needs |
| `Values.ShortDigits` | visualize.js:29 | an integer prints with at most three digits exactly when it is below 1000 |
| `Values.ParseBlank` | visualize.js:122 | `+""` and a cell of only white space are 0, not NaN, so such a row is kept |
| `Values.ParseComma` | visualize.js:122 | a cell containing a comma, such as "1,000", is NaN |
| `Values.TrimmedComma` | visualize.js:122 | once the white space is gone, a literal holding a comma is neither a digit string nor a signed one, so it is NaN |
| `Values.ParseIntToString` | visualize.js:122 | unary `+` on an integer's `toString()` gives the integer back |
| `Sequences.Map` | visualize.js:122 | `map`, as at lines 122, 273 and 360: one result per element, each the callback applied to the element at the same index |
| `Sequences.Filter` | visualize.js:122 | `filter` never grows its input; every element kept is accepted and comes from the input; every accepted element of the input is kept |
| `Sequences.FilterAppend` | visualize.js:122 | filtering keeps order: filtering a concatenation is concatenating the filtered pieces |
| `Sequences.FilterOne` | visualize.js:122 | a single element is kept exactly when it is accepted |
| `Sequences.FilterKeepsAll` | visualize.js:122 | a filter that accepts everything returns its input |
| `Sequences.MapAppend` | visualize.js:122 | `map` commutes with concatenation |
| `Format.IsWordChar` | visualize.js:29 | the class `\w` that `\B` tests: ASCII letters, digits and `_` |
| `Format.DigitRun` | visualize.js:29 | the length of the run of `\d` the look-ahead sees from a position; `DigitRunToEnd` states it on digit strings |
| `Format.CommaAt` | visualize.js:29 | one empty match of `/\B(?=(\d{3})+(?!\d))/`: a word character before, then a positive multiple of three digits up to a non-digit or the end; its consequences are stated by `GroupsFrom` and `FormatDigits` |
| `Format.FormatFrom` | visualize.js:29 | the global replace applied from a position on; stated by `StripFormatFrom`, `GroupsFrom`, `FormatNoCommas` and `FormatShiftFrom` |
| `Format.FormatNumber` | visualize.js:28-30 | `formatNumber` on a value whose `toString()` is the given text; stated by `StripFormatNumber`, `FormatDigits` and `FormatDigitsStrip` |
| `Format.FormatInt` | visualize.js:28-30 | `formatNumber(n)` for an integer; stated by `FormatNegative`, `FormatIntRoundTrip` and `GroupedIsNaN` |
| `Format.StripFormatFrom` | visualize.js:29 | from any position on, the replacement only inserts commas |
| `Format.StripFormatNumber` | visualize.js:28-30 | deleting every comma from `formatNumber`'s result gives the input with its commas deleted, and exactly the input when it had none |
| `Format.DigitRunToEnd` | visualize.js:29 | in a digit string the look-ahead's digit run reaches the end |
| `Format.GroupsFrom` | visualize.js:29 | after the first digit, the output has one comma per three digits and a comma sits exactly where a multiple of four characters follows |
| `Format.FormatDigits` | visualize.js:28-30 | for a non-negative integer: `(digits - 1) / 3` commas; a comma exactly where a multiple of four characters follows; so the first group has 1 to 3 digits and each later group 3; no leading or trailing comma |
| `Format.FormatDigitsStrip` | visualize.js:28-30 | the digits come back in order once the commas are deleted; up to three digits come back unchanged |
| `Format.FormatNoCommas` | visualize.js:29 | fewer than three digits after a position leave no room for a comma |
| `Format.FormatShiftFrom` | visualize.js:29 | after a leading `-`, which is not a word character, `\B` fails and the digits are grouped as if the sign were absent |
| `Format.FormatNegative` | visualize.js:28-30 | `formatNumber(n)` for negative `n` is `-` followed by `formatNumber(-n)` |
| `Format.FormatIntRoundTrip` | visualize.js:28-30 | for every integer, deleting the commas gives `n.toString()`; integers of magnitude below 1000 come back unchanged |
| `Format.GroupedIsNaN` | visualize.js:29 | from magnitude 1000 up, the output holds a comma, so unary `+` reads it as NaN |
| `Derive.IsNumber` | visualize.js:122 | `!isNaN(d)`: the value is not NaN |
| `Derive.HistogramValues` | visualize.js:121-122 | at most one value per row; every value is a number and is the parsed total of some row; every row whose total parses contributes its value |
| `Derive.HistogramValuesAppend` | visualize.js:122 | values keep the order of their rows |
| `Derive.HistogramValuesOne` | visualize.js:122 | a row contributes its total exactly when the total is not NaN |
| `Derive.GroupedTotalDropped` | visualize.js:122 | a row whose total is written with a thousands separator is dropped from the histogram |
| `Derive.ScatterPointOf` | visualize.js:273-277 | the `{school, dep, ind, total}` literal built from a row; `ScatterDataOne` states what it contributes |
| `Derive.Plottable` | visualize.js:278 | `!isNaN(d.dep) && !isNaN(d.ind)`; the total is not looked at |
| `Derive.ScatterData` | visualize.js:273-278 | at most one point per row; every point has numeric `dep` and `ind` and is the record built from some row |
| `Derive.ScatterDataAppend` | visualize.js:273-278 | points keep the order of their rows |
| `Derive.ScatterDataOne` | visualize.js:273-278 | a row yields a point, with `school` copied and `total` unchecked, exactly when both `dep` and `ind` parse |
| `Derive.ScatterKeepsNaNTotal` | visualize.js:277-278 | a row without a total column is still plotted, with a NaN total |
| `Derive.GrowthRecordOf` | visualize.js:360-366 | the `{School, Q1, ..., Q5}` literal built from a row, with no `Growth` yet; `AltairRecordsOne` states what it contributes |
| `Derive.HasEnds` | visualize.js:367 | `!isNaN(d.Q1) && !isNaN(d.Q5)` |
| `Derive.AltairRecords` | visualize.js:360-367 | at most one record per row; every record has numeric Q1 and Q5, no `Growth` yet, and is built from some row |
| `Derive.AltairRecordsAppend` | visualize.js:360-367 | records keep the order of their rows |
| `Derive.AltairRecordsOne` | visualize.js:360-367 | a row yields a record exactly when both its Q1 and Q5 totals parse |
| `Derive.Minus` | visualize.js:371 | `d.Q5 - d.Q1`: NaN exactly when either side is NaN, otherwise the number that added to Q1 gives Q5 |
| `Derive.AddGrowth` | visualize.js:370-371 | the `forEach` sets `Growth = Q5 - Q1` (JavaScript subtraction) on every record in place and changes nothing else |
| `Derive.GrowthOnArray` | visualize.js:370-371 | the `forEach` on records with numeric Q1 and Q5 and no `Growth` keeps their number and order, sets `Growth` to exactly Q5 minus Q1, and leaves every other field as it was |
| `Derive.AltairData` | visualize.js:360-373 | one record per row with numeric Q1 and Q5, in row order, each carrying `Growth` equal to Q5 minus Q1 |
| `Ranking.Totals` | visualize.js:197 | `+d[col]` for every row, in row order: one total per row |
| `Ranking.Descending` | visualize.js:197 | `d3.descending`: NaN exactly when either total is NaN, otherwise -1, 0 or 1, negative exactly when the first is larger and positive exactly when the second is |
| `Ranking.SortCompare` | visualize.js:197 | `Array.prototype.sort` reads a NaN comparator result as 0; `Insert` moves a row left only while this is positive |
| `Ranking.Positions` | visualize.js:196 | `[...globalData]` before the sort: every row once, in input order; `SortByTotal` requires the copy to start so |
| `Ranking.SortByTotal` | visualize.js:196-197 | the sorted copy is a permutation of the rows; when every total parses it is in descending order of total, with equal totals in input order |
| `Ranking.Insert` | visualize.js:197 | one insertion pass keeps the rows and extends the ranked prefix by one row |
| `Ranking.Swap` | visualize.js:197 | exchanging two neighbouring cells keeps the rows of the copy |
| `Ranking.BarChartData` | visualize.js:194-198 | the chart gets `min(10, rows)` distinct rows of `globalData`; when all totals parse they come in descending order with ties in input order, and every row left out has a total no larger than the last one shown, coming after it when equal |
| `Ranking.TopRanks` | visualize.js:196-198 | on the totals alone: the first `min(10, rows)` positions of the sorted copy are distinct rows; when all totals parse they are ranked, and every row left out comes after the last one shown |
| `Ranking.LeftOutBehind` | visualize.js:198 | in a ranked permutation of the rows, every row outside the first `m` comes after the `m`-th, so `slice(0, 10)` keeps the ten highest |
| `Ranking.DistinctPositions` | visualize.js:196 | the sorted copy holds each row once |
| `Ranking.RankedUnique` | visualize.js:197-198 | when all totals parse, only one ordering of the rows is ranked, so any stable sort gives the same bar chart |
| `Ranking.MaxNumber` | visualize.js:217 | `d3.max` ignores NaN: the result is undefined iff all values are NaN, otherwise it is one of the values and no value exceeds it |
| `Ranking.YDomainMax` | visualize.js:217 | the y-domain ends at the largest numeric total among the chart's rows, or at 0 when none is numeric |
| `Ranking.YDomainIsFirst` | visualize.js:217 | on the ranked top rows the y-domain ends at the first row's total, or at 0 when there are no rows |

## Left out

- Drawing: SVG, scales, axes, transitions, tooltips, Vega-Lite specs and event handlers. These are calls into D3 and Vega-Lite, whose code is not part of this model.
- `drawMap`'s region counts come from `Math.random`. They are simulated data, not derived from the rows.
- `d3.bin().thresholds(20)`: D3's threshold rule is not part of this model. Only the values handed to it are modelled.
- `GrowthRate = (Q5 - Q1) / Q1` is floating-point division. It has no zero guard (Q1 = 0 gives Infinity or NaN). It is not modelled.
- Loading with `d3.csv`, `vegaEmbed` and their promises are asynchronous I/O. The loaded rows are a parameter.
- Reassigning `globalData`, `selectedQuarter` and `selectedSchool` in the load, tab-click and point-click handlers is UI wiring. The quarter is a parameter of each derivation.
- `highlightSchool`, `resetHighlight` and `highlightRegion` only log.
- ParseNumber, Derive.Minus, Ranking.Descending: the model's numbers are exact, unbounded integers. JavaScript numbers are doubles: `+` rounds digit strings above 2^53 (`+"9007199254740993"` is 9007199254740992) and reads more than about 309 digits as `Infinity`, `Q5 - Q1` rounds, and totals that round to the same double tie in `d3.descending`. Enrollment counts stay far below 2^53, so this does not affect the dashboard's data.
- ParseNumber: only decimal integers are read. JavaScript also reads fractions ("1.5"), exponents ("1e3"), hexadecimal, binary and octal literals and "Infinity"; the model reads these as NaN.
- Values.IntToString: magnitudes from 10^21 up, which JavaScript prints in exponent form, are printed as plain digits.
- Format.FormatNumber: non-integer arguments (bin thresholds can be fractions) are not modelled. Strings are sequences of Unicode scalar values, not UTF-16 code units.
- Ranking.SortByTotal: the order with NaN totals is not specified. `d3.descending` then returns NaN, which `Array.prototype.sort` reads as 0. That makes the comparator inconsistent, and the resulting order depends on the engine's sort algorithm. The model sorts by straight insertion. It proves only that the result is a permutation when some total is NaN. When all totals parse, `RankedUnique` shows that every stable sort agrees with it.
