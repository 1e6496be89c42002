# Linear regression dashboard: the statistics core

This project models the statistics pipeline behind a browser dashboard where
a user pastes CSV text, picks two numeric columns, and sees an ordinary
least squares line, its error metrics and a chart. The pipeline has two parts:

- `parseCSV` is a minimal comma-separated reader with no quoting and no
  escaping.
  - It trims the text and cuts it at every line feed.
  - The first line's trimmed comma-separated fields name the columns.
  - Every later line, blank ones included, becomes one record that maps
    each header to `parseFloat` of its cell, with NaN stored as `0`.
  - Fewer than two lines throws an error.
- `performAnalysis` validates the records and pulls out the two chosen
  columns. It fits the closed-form least squares line
  (`simpleLinearRegression`) and scores it with MAE, MSE, RMSE and R²
  (`calculateMetrics`). It returns a tagged success or error state with
  one chart row per record, the chosen variables and a description.

Modules, in dependency order:

| file | module | models |
|---|---|---|
| `wrappers.dfy` | `Wrappers` | `Option`, and `Result` whose `Err` stands for a thrown `Error` |
| `text.dfy` | `Text` | `String.prototype.trim`, `split` on one character, `parseFloat`, and the decimal text of a whole number |
| `csv.dfy` | `Csv` | `DataPoint`, `parseCSV`: the `forEach` over headers is the method `BuildRecord`, and the `map` over lines is the method `BuildRecords` |
| `sums.dfy` | `Sums` | the `reduce` sums over exact reals, and the algebra of least squares |
| `numbers.dfy` | `Numbers` | JavaScript numbers as a finite real, NaN or a signed infinity, with the IEEE 754 special-value rules |
| `regression.dfy` | `Regression` | `simpleLinearRegression` and `calculateMetrics` |
| `analysis.dfy` | `Analysis` | `AnalysisState`, `performAnalysis`, the chart rows and the description |

Arithmetic is exact: sums of finite values are real sums. The only
non-finite values the statistics code can produce come from dividing by
zero (`0/0` is NaN, `x/0` is an infinity), and the model keeps those, so
the degenerate cases are proved instead of assumed away. With constant x,
slope and intercept are NaN. With varying x, the line is finite, passes
through the mean point, solves the normal equations and minimises the
squared error. The metrics are finite, and R² lies in `[0, 1]` unless y
is constant, in which case it is NaN.

`src/lib/analysis.ts:29-32` counts the lines of the trimmed text, so a
blank interior line is still a line and becomes an all-zero record
(`Csv.ParseCsv`, `Csv.TooFewLinesIffNoLineFeed`, `Csv.NoDigitLineIsZero`).

Records are plain JavaScript objects, and the model keeps the two places
where that shows:
- `point['__proto__'] = value` at `src/lib/analysis.ts:40` runs the
  inherited `__proto__` setter, which ignores a number. A `__proto__`
  header is therefore never stored (`Csv.Store`), and analysing on it
  gives the mismatch error (`Analysis.ParsedDataIsAnalysed`).
- Reading a name inherited from `Object.prototype` (`constructor`,
  `toString`, …) from a record that does not own it gives a function,
  not `undefined`. The column filter at `src/lib/analysis.ts:86-87`
  drops it as NaN, and the chart at `src/lib/analysis.ts:99` gets a NaN
  prediction instead of `null` (`Analysis.ChartRowOf`).

## Model

| member | source | states |
|---|---|---|
| Csv.ParseCsv | src/lib/analysis.ts:28-46 | fails with the fixed message exactly when the trimmed text has fewer than two lines; otherwise the headers are the first line's trimmed fields and there is one record per later line, in order, built from that line's comma-separated cells |
| Csv.BuildRecords | src/lib/analysis.ts:35-43 | the `map` over the data lines yields one record per line, in order, each built from the line split on commas |
| Csv.BuildRecord | src/lib/analysis.ts:37-41 | the `forEach` loop assigning each header its cell in turn builds exactly the record `RecordOf` describes |
| Csv.TooFewLinesIffNoLineFeed | src/lib/analysis.ts:29-32 | there are fewer than two lines exactly when no line feed is left after trimming; empty text is still one (empty) line |
| Csv.HeaderNamesAreTrimmedFields | src/lib/analysis.ts:34 | there is one more header than the first line has commas; each header is the corresponding field trimmed, in order, and holds no comma |
| Csv.RecordKeys | src/lib/analysis.ts:37-41 | a record's keys are exactly the header names other than `__proto__`, which the assignment never stores |
| Csv.RecordLastWins | src/lib/analysis.ts:38-41 | a header other than `__proto__` holds the cell at its last position among the headers, so duplicate headers collapse and the last one wins |
| Csv.ExtraCellsIgnored | src/lib/analysis.ts:38-40 | when a row has at least as many cells as there are headers, cells past the last header do not change the record |
| Csv.MissingCellIsZero | src/lib/analysis.ts:38-40 | a header whose cell at its last position is past the end of a short row, or is rejected by `parseFloat`, is stored in the record as `0` |
| Csv.NoDigitLineIsZero | src/lib/analysis.ts:35-41 | a line without a digit, such as a blank interior line, gives a record whose every value is `0` |
| Csv.ParsedRecordsHaveHeaderKeys | src/lib/analysis.ts:34-43 | after a successful parse, every record has exactly the header names other than `__proto__` as keys |
| Text.TrimShape | src/lib/analysis.ts:29 | `trim` returns a contiguous piece of its input, and everything it cuts off on either side is whitespace |
| Text.TrimEnds | src/lib/analysis.ts:29 | the trimmed text neither starts nor ends with whitespace |
| Text.TrimIdempotent | src/lib/analysis.ts:29 | trimming twice is trimming once |
| Text.TrimAllWhitespace | src/lib/analysis.ts:29 | text made only of whitespace trims to the empty string |
| Text.TrimAvoids | src/lib/analysis.ts:34 | a character absent from a field is absent from the trimmed field |
| Text.Split | src/lib/analysis.ts:29 | `split` on one character gives one piece more than the separator occurs; no piece holds the separator, and joining the pieces gives the text back |
| Text.SplitJoin | src/lib/analysis.ts:36 | splitting the join of separator-free pieces gives the same pieces back |
| Text.SplitFree | src/lib/analysis.ts:36 | text without the separator splits into itself alone |
| Text.SplitPrefix | src/lib/analysis.ts:36 | a separator-free piece followed by the separator splits off as the first piece |
| Text.SplitSingle | src/lib/analysis.ts:29-32 | `split` gives a single piece exactly when the separator does not occur |
| Text.ParseDigits | src/lib/analysis.ts:39 | digits followed by text that cannot continue a number parse to their decimal value |
| Text.ParseNatText | src/lib/analysis.ts:39 | the decimal spelling of a whole number, after optional whitespace and minus sign and before text that cannot continue a number, parses back to that number |
| Text.ParseNoDigits | src/lib/analysis.ts:39-40 | text without a digit anywhere is NaN to `parseFloat` |
| Text.TrimStartPrefix | src/lib/analysis.ts:39 | `parseFloat` skips exactly the leading whitespace |
| Text.ParseWholeText | src/lib/analysis.ts:113 | the decimal spelling of a whole number, before text that cannot continue a number, parses back to that number |
| Text.NatText | src/lib/analysis.ts:113 | the decimal spelling of a count is non-empty, all digits, and reads back as the count |
| Numbers.SumNOfFinite | src/lib/analysis.ts:68-74 | the `reduce` sum over finite numbers is the real sum |
| Numbers.SumNOfNaN | src/lib/analysis.ts:68-74 | one NaN term makes the `reduce` sum NaN |
| Sums.SumSquaresNonnegative | src/lib/analysis.ts:69 | a sum of squares is non-negative, and zero exactly when every term is |
| Sums.SumAbsNonnegative | src/lib/analysis.ts:68 | a sum of absolute values is non-negative, and zero exactly when every term is |
| Sums.SpreadZeroIffConstant | src/lib/analysis.ts:72-73 | the squared spread about the mean is zero exactly when all values are equal |
| Sums.SumSquaresOfDeviations | src/lib/analysis.ts:73 | `Σ(s - c)² = Σs² - 2c·Σs + n·c²` |
| Sums.CenteredSquares | src/lib/analysis.ts:58 | the slope denominator `n·Σx² - (Σx)²` is `n` times the squared spread of x about its mean |
| Sums.ResidualSumsHold | src/lib/analysis.ts:66 | the sum of a line's residuals and their dot product with x are determined by the sums of the data |
| Sums.SseShift | src/lib/analysis.ts:66-69 | when a line's residuals sum to zero and are orthogonal to x, every other line's squared error is that line's plus the squared size of the difference |
| Sums.FlatLineResiduals | src/lib/analysis.ts:66 | the residuals of a flat line are the deviations from its height |
| Regression.FitOfFlatColumn | src/lib/analysis.ts:58-59 | a `0/0` slope makes both coefficients NaN |
| Regression.FitOfSpreadColumn | src/lib/analysis.ts:55-59 | over a positive denominator the slope is the closed-form quotient and the intercept is `meanY - slope·meanX`, both finite |
| Regression.SlopeUndefinedIffConstant | src/lib/analysis.ts:58-59 | the slope is NaN exactly when all x are equal and is never infinite; an undefined slope makes the intercept NaN |
| Regression.ConstantXUndefinedFit | src/lib/analysis.ts:58-59 | all-equal x values give slope and intercept NaN |
| Regression.VaryingXFiniteFit | src/lib/analysis.ts:58-59 | varying x values give a finite slope and intercept |
| Regression.VaryingDenominator | src/lib/analysis.ts:58 | when x varies, the slope denominator is positive |
| Regression.FitPassesThroughMeans | src/lib/analysis.ts:55-59 | with varying x the fitted line passes through `(meanX, meanY)` |
| Regression.NormalEquations | src/lib/analysis.ts:48-62 | with varying x the fitted line's residuals sum to zero and are orthogonal to x |
| Regression.FitBalances | src/lib/analysis.ts:50-59 | over a positive denominator the fitted coefficients solve the normal equations stated on the four sums |
| Regression.LeastSquares | src/lib/analysis.ts:48-62 | with varying x no line has a smaller sum of squared errors than the fitted one |
| Regression.PerfectLineRecovered | src/lib/analysis.ts:48-62 | points lying exactly on a line, with varying x, give back that line's slope and intercept |
| Regression.PerfectFitMetrics | src/lib/analysis.ts:64-78 | points lying exactly on a line with varying x score zero `mae`, `mse` and `rmse`, and an `r2` of 1, or NaN when the line is flat |
| Regression.ExactPredictions | src/lib/analysis.ts:64-78 | predictions equal to the observed values give zero errors and an `r2` of 1, or NaN when the observed values are all equal |
| Regression.MetricsOfZeroSums | src/lib/analysis.ts:68-75 | zero residual sums give zero `mae`, `mse` and `rmse`, and an `r2` of 1 over a positive total or NaN over a zero one |
| Regression.LineBalanced | src/lib/analysis.ts:50-53 | the points of a line solve the normal equations for that line |
| Regression.FitOfBalancedLine | src/lib/analysis.ts:55-59 | over a positive denominator, a line solving the normal equations is the fitted line |
| Regression.MetricsOfFiniteSums | src/lib/analysis.ts:68-75 | over finite sums `mae` and `mse` are the sums over the count, `rmse` is the non-negative root of `mse`, and `r2` is `1 - ssRes/ssTot` over a positive total, NaN or `-Infinity` over a zero one |
| Regression.FiniteSums | src/lib/analysis.ts:64-75 | over finite predictions the sums inside `calculateMetrics` are the real sums of the residuals and of the spread |
| Regression.TotalSquares | src/lib/analysis.ts:72-73 | `ssTotal` is the squared spread of the observed values about their mean |
| Regression.MetricsOfFinitePredictions | src/lib/analysis.ts:64-78 | over finite predictions `mae` is the mean absolute residual and `mse` the mean squared residual, both finite and non-negative with `rmse² = mse`; `ssTotal` is zero exactly when y is constant, and `r2` follows from it |
| Regression.NaNPredictionSpoilsMetrics | src/lib/analysis.ts:64-78 | a single NaN prediction makes every metric NaN |
| Regression.FinitePredictions | src/lib/analysis.ts:94 | a finite line's predictions are the line's values at each x |
| Regression.FiniteResiduals | src/lib/analysis.ts:66 | residuals against finite predictions are the real residuals |
| Regression.ConstantXSpoilsFit | src/lib/analysis.ts:93-95 | with all x equal, every prediction and every metric is NaN |
| Regression.MetricsOfFit | src/lib/analysis.ts:93-95 | for the fitted line on varying x the errors are finite and non-negative with `rmse² = mse`; `r2` lies in `[0, 1]` when y varies and is NaN when it does not |
| Regression.R2OfFit | src/lib/analysis.ts:75 | with `0 ≤ ssRes ≤ ssTot`, `r2` is in `[0, 1]`, or NaN when `ssTot` is zero |
| Analysis.ColumnShape | src/lib/analysis.ts:86-87 | a filtered column has at most one value per record, and exactly one per record, in order, precisely when every record has the key |
| Analysis.AnalysisFailsIff | src/lib/analysis.ts:81-91 | the error state is returned exactly when there are fewer than two records or the filtered columns differ in length or hold fewer than two values, with the message for each case |
| Analysis.KeyedDataIsAnalysed | src/lib/analysis.ts:82-91 | two or more records that all have both variables always succeed, with one x and one y value per record |
| Analysis.ParsedDataIsAnalysed | src/lib/analysis.ts:80-91 | records from a successful parse with at least two data rows, analysed on two header names, succeed, with one x and one y value per record, exactly when neither name is `__proto__`; otherwise the result is the mismatch error |
| Analysis.ProtoVariableFails | src/lib/analysis.ts:86-90 | analysing on `__proto__` records that do not store it gives the mismatch error |
| Analysis.AbsentKeyColumn | src/lib/analysis.ts:86-87 | a key no record has gives an empty column |
| Analysis.SuccessParts | src/lib/analysis.ts:93-107 | on success the line is the fit of the two filtered columns and the chart row of each record is built from that record and that line |
| Analysis.ChartDataFollowsData | src/lib/analysis.ts:97-112 | on success the chart has one row per record, in order; each keeps the record's fields; its prediction is `null` exactly when the record neither has nor inherits the x name, and NaN when it only inherits it; the variables are echoed |
| Analysis.ChartOfFiniteLine | src/lib/analysis.ts:99 | against a finite line each record with an x value is charted at `slope·x + intercept` |
| Analysis.LineOfVaryingX | src/lib/analysis.ts:93 | on success with varying x the line is finite, passes through the mean point of the columns and has the least squared error |
| Analysis.FittedColumns | src/lib/analysis.ts:86-93 | the fit of two equally long filtered columns with varying x is finite, passes through their mean point and has the least squared error |
| Analysis.MetricsOfVaryingX | src/lib/analysis.ts:95 | on success with varying x the errors are finite and non-negative with `rmse² = mse`, and `r2` is in `[0, 1]` or NaN when y is constant |
| Analysis.AnalysisOfConstantX | src/lib/analysis.ts:93-100 | on success with all x equal the slope, intercept, every metric and every charted prediction are NaN |
| Analysis.DescriptionCountReadsBack | src/lib/analysis.ts:113 | the description starts with its fixed lead, followed by the record count, which `parseFloat` reads back |
| Analysis.DescriptionShape | src/lib/analysis.ts:113 | after the fixed lead the description holds the count's digits, then text that cannot continue a number |

## Left out

- Floating-point rounding and overflow are not modelled: finite values are exact reals. The NaN and infinity that division by zero produces are modelled.
- Signed zero is not modelled. Every zero divisor in this code is a count, a sum of squares or `n·Σx² - (Σx)²` on equal values, and each is taken as `+0`.
- `Math.sqrt` becomes the parameter `sqrt`. Where it matters it is required to return the non-negative square root (`IsSquareRoot`).
- `Text.ParseFloat` does not read the words `Infinity`, `+Infinity` and `-Infinity`. The model parses them as NaN, so their cell becomes `0`; JavaScript would store an infinity. The model does not cover decimal overflow either.
- `Csv.DataPoint` is a map to exact reals holding a record's own properties. A NaN or infinite value cannot be stored in a record, so the `!isNaN(v)` half of the column filter at `src/lib/analysis.ts:86-87` always passes for an own property. Records reach `performAnalysis` only from `parseCSV`, which never stores NaN.
- `Csv.InheritedKeys` stands for the prototype chain. The model covers records whose prototype is a standard `Object.prototype`. It does not cover records with another prototype, own getters, or an `Object.prototype` that other code has extended.
- `Analysis.Description` takes the column list (`Object.keys(data[0])`) as the parameter `columns`. A map keeps no insertion order, so the model does not tie that list to the first record's keys.
- The `catch` branch at `src/lib/analysis.ts:115-120` is not modelled. Nothing in the `try` block throws on the records the model admits, and `Analysis.PerformAnalysis` is total, so "never throws" is captured by its totality.
- Regression.SimpleLinearRegression: requires the two columns to have equal length. Its one caller checks this at `src/lib/analysis.ts:89`; with unequal columns, JavaScript would read `undefined` past the end of `y`.
- Regression.CalculateMetrics: requires one prediction per observed value. Its one caller builds exactly that at `src/lib/analysis.ts:94`.
- The recursive sums fold from the right (`s[0] + Sum(s[1..])`), while `reduce` folds from the left. Over exact reals the two agree; under rounding they could differ.
- The React components, the simulated latency and the metric formatting are not part of this model. They are UI rendering and browser library behaviour.
- The assumption-checking flow is not part of this model. It is an asynchronous call to a hosted language model.
