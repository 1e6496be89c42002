/**
 * `performAnalysis`: validates the records, pulls out the two chosen
 * columns, fits the least squares line, scores it, and builds the chart rows
 * and the success or error state the dashboard shows.
 */
module Analysis {
  import opened Wrappers
  import opened Sums
  import opened Numbers
  import opened Text
  import opened Csv
  import opened Regression

  /** A record as charted: its own fields plus the line's `prediction` (`null` as `None`). */
  datatype ChartRow = ChartRow(fields: DataPoint, prediction: Option<Number>)

  datatype Results = Results(metrics: Metrics, regressionLine: RegressionLine, chartData: seq<ChartRow>)

  datatype Variables = Variables(independent: string, dependent: string)

  /** `AnalysisState`: `status: 'success'` or `status: 'error'`. */
  datatype AnalysisState =
    | Success(results: Results, variables: Variables, dataDescription: string)
    | Error(message: string)

  const TooFewRecordsMessage := "Insufficient data. At least 2 data points are required for linear regression."

  const MismatchMessage := "Mismatch in valid data points between selected variables, or insufficient valid data."

  const PredictionKey := "prediction"

  const DescriptionLead := "The dataset contains "

  /**
   * `data.map(p => p[key]).filter(v => v !== undefined && !isNaN(v))`:
   * the values of `key`, in record order, from the records that have it.
   * A record without the key reads `undefined`, or for an inherited name a
   * function or object that `isNaN` rejects, so it contributes nothing.
   */
  function Column(data: seq<DataPoint>, key: string): seq<real>
  {
    if |data| == 0 then []
    else (if key in data[0] then [data[0][key]] else []) + Column(data[1..], key)
  }

  /**
   * `{...point, prediction: …}`: every field of the record, with `prediction`
   * set to the line's value at the record's x. It is `null` when the read
   * gives `undefined`, and NaN when the name is inherited from
   * `Object.prototype`, whose value does not convert to a number.
   */
  function ChartRowOf(point: DataPoint, independentVar: string, line: RegressionLine): ChartRow
  {
    ChartRow(point - {PredictionKey},
             if independentVar in point then Some(LineAt(line, point[independentVar]))
             else if independentVar in InheritedKeys then Some(NaN)
             else None)
  }

  /** `parts.join(sep)` */
  function JoinWith(parts: seq<string>, sep: string): string
  {
    if |parts| == 0 then ""
    else if |parts| == 1 then parts[0]
    else parts[0] + sep + JoinWith(parts[1..], sep)
  }

  /**
   * `dataDescription`. `columns` is `Object.keys(data[0])`: the first
   * record's keys in insertion order, which a map does not keep.
   */
  function Description(count: nat, columns: seq<string>, dependentVar: string, independentVar: string): string
  {
    DescriptionLead + NatText(count) + DescriptionTail(columns, dependentVar, independentVar)
  }

  /** The part of the description after the record count. */
  function DescriptionTail(columns: seq<string>, dependentVar: string, independentVar: string): string
  {
    " records with columns: " + JoinWith(columns, ", ")
      + ". Analysis was performed to predict '" + dependentVar + "' using '" + independentVar + "'."
  }

  /** `performAnalysis`. `sqrt` stands for `Math.sqrt`. */
  function PerformAnalysis(data: seq<DataPoint>, independentVar: string, dependentVar: string,
                           columns: seq<string>, sqrt: real -> real): AnalysisState
  {
    if |data| < 2 then Error(TooFewRecordsMessage)
    else
      var x := Column(data, independentVar);
      var y := Column(data, dependentVar);
      if |x| != |y| || |x| < 2 then Error(MismatchMessage)
      else
        var line := SimpleLinearRegression(x, y);
        var metrics := CalculateMetrics(y, Predictions(x, line), sqrt);
        var chartData := seq(|data|, i requires 0 <= i < |data| => ChartRowOf(data[i], independentVar, line));
        Success(Results(metrics, line, chartData),
                Variables(independentVar, dependentVar),
                Description(|data|, columns, dependentVar, independentVar))
  }

  // ---------------------------------------------------------------------
  // Columns

  /**
   * A column has at most one value per record, and exactly one per record,
   * in record order, precisely when every record has the key.
   */
  lemma {:induction false} ColumnShape(data: seq<DataPoint>, key: string)
    ensures |Column(data, key)| <= |data|
    ensures |Column(data, key)| == |data| <==> forall i :: 0 <= i < |data| ==> key in data[i]
    ensures (forall i :: 0 <= i < |data| ==> key in data[i]) ==>
      forall i :: 0 <= i < |data| ==> Column(data, key)[i] == data[i][key]
  {
    if |data| > 0 {
      ColumnShape(data[1..], key);
      if forall i :: 0 <= i < |data| ==> key in data[i] {
        assert forall i :: 0 <= i < |data[1..]| ==> key in data[1..][i] by {
          forall i | 0 <= i < |data[1..]| ensures key in data[1..][i] {
            assert data[1..][i] == data[i + 1];
          }
        }
        forall i | 0 <= i < |data| ensures Column(data, key)[i] == data[i][key] {
          if i > 0 {
            assert data[1..][i - 1] == data[i];
          }
        }
      }
      if |Column(data, key)| == |data| {
        assert key in data[0];
        forall i | 0 <= i < |data| ensures key in data[i] {
          if i > 0 {
            assert data[1..][i - 1] == data[i];
          }
        }
      }
    }
  }

  // ---------------------------------------------------------------------
  // The analysis

  /**
   * The error state, with its message, is returned exactly when there are
   * fewer than two records, or the two filtered columns differ in length or
   * hold fewer than two values; every other input succeeds.
   */
  lemma {:induction false} AnalysisFailsIff(data: seq<DataPoint>, independentVar: string, dependentVar: string,
                                            columns: seq<string>, sqrt: real -> real)
    ensures var x := Column(data, independentVar);
      var y := Column(data, dependentVar);
      var state := PerformAnalysis(data, independentVar, dependentVar, columns, sqrt);
      && (state.Error? <==> |data| < 2 || |x| != |y| || |x| < 2)
      && (state.Error? && |data| < 2 ==> state.message == TooFewRecordsMessage)
      && (state.Error? && |data| >= 2 ==> state.message == MismatchMessage)
  {
  }

  /**
   * On success the chart has one row per record, in order; each row keeps
   * the record's fields, and its prediction is `null` exactly when the record
   * neither has nor inherits the independent variable, and NaN when it only
   * inherits it; the chosen variables are echoed.
   */
  lemma {:induction false} ChartDataFollowsData(data: seq<DataPoint>, independentVar: string, dependentVar: string,
                                                columns: seq<string>, sqrt: real -> real)
    requires PerformAnalysis(data, independentVar, dependentVar, columns, sqrt).Success?
    ensures var state := PerformAnalysis(data, independentVar, dependentVar, columns, sqrt);
      && state.variables == Variables(independentVar, dependentVar)
      && |state.results.chartData| == |data|
      && forall i :: 0 <= i < |data| ==>
           && state.results.chartData[i].fields == data[i] - {PredictionKey}
           && (state.results.chartData[i].prediction.None? <==>
                 independentVar !in data[i] && independentVar !in InheritedKeys)
           && (independentVar !in data[i] && independentVar in InheritedKeys ==>
                 state.results.chartData[i].prediction == Some(NaN))
  {
  }

  /**
   * On success with varying x the line is finite and passes through the
   * mean point of the two columns, and no line fits them with a smaller
   * squared error.
   */
  lemma {:induction false} LineOfVaryingX(data: seq<DataPoint>, independentVar: string, dependentVar: string,
                                          columns: seq<string>, sqrt: real -> real, a2: real, b2: real)
    requires PerformAnalysis(data, independentVar, dependentVar, columns, sqrt).Success?
    requires !Constant(Column(data, independentVar))
    ensures var x := Column(data, independentVar);
      var y := Column(data, dependentVar);
      var line := PerformAnalysis(data, independentVar, dependentVar, columns, sqrt).results.regressionLine;
      && line.slope.Finite? && line.intercept.Finite?
      && ThroughMeanPoint(x, y, line.slope.value, line.intercept.value)
      && Sse(x, y, line.slope.value, line.intercept.value) <= Sse(x, y, a2, b2)
  {
    SuccessParts(data, independentVar, dependentVar, columns, sqrt);
    FittedColumns(data, independentVar, dependentVar, a2, b2);
  }

  lemma {:induction false} FittedColumns(data: seq<DataPoint>, independentVar: string, dependentVar: string,
                                         a2: real, b2: real)
    requires |Column(data, independentVar)| == |Column(data, dependentVar)|
    requires !Constant(Column(data, independentVar))
    ensures var x := Column(data, independentVar);
      var y := Column(data, dependentVar);
      var line := SimpleLinearRegression(x, y);
      && line.slope.Finite? && line.intercept.Finite?
      && ThroughMeanPoint(x, y, line.slope.value, line.intercept.value)
      && Sse(x, y, line.slope.value, line.intercept.value) <= Sse(x, y, a2, b2)
  {
    var x := Column(data, independentVar);
    var y := Column(data, dependentVar);
    FitPassesThroughMeans(x, y);
    LeastSquares(x, y, a2, b2);
  }

  /** The success state's line is the fit of the two columns, and its chart has one row per record. */
  lemma {:induction false} SuccessParts(data: seq<DataPoint>, independentVar: string, dependentVar: string,
                                        columns: seq<string>, sqrt: real -> real)
    requires PerformAnalysis(data, independentVar, dependentVar, columns, sqrt).Success?
    ensures var results := PerformAnalysis(data, independentVar, dependentVar, columns, sqrt).results;
      && results.regressionLine == SimpleLinearRegression(Column(data, independentVar), Column(data, dependentVar))
      && |results.chartData| == |data|
      && forall i :: 0 <= i < |data| ==>
           results.chartData[i] == ChartRowOf(data[i], independentVar, results.regressionLine)
  {
  }

  /**
   * On success with varying x the errors are finite and non-negative with
   * `rmse² = mse`, and `r2` lies in `[0, 1]` when y varies and is NaN when
   * it does not.
   */
  lemma {:induction false} MetricsOfVaryingX(data: seq<DataPoint>, independentVar: string, dependentVar: string,
                                             columns: seq<string>, sqrt: real -> real)
    requires IsSquareRoot(sqrt)
    requires PerformAnalysis(data, independentVar, dependentVar, columns, sqrt).Success?
    requires !Constant(Column(data, independentVar))
    ensures var y := Column(data, dependentVar);
      var metrics := PerformAnalysis(data, independentVar, dependentVar, columns, sqrt).results.metrics;
      && SoundErrors(metrics)
      && (Constant(y) ==> metrics.r2 == NaN)
      && (!Constant(y) ==> metrics.r2.Finite? && 0.0 <= metrics.r2.value <= 1.0)
  {
    MetricsOfFit(Column(data, independentVar), Column(data, dependentVar), sqrt);
  }

  /** Against a finite line, each record with an x value is charted at the line's height there. */
  lemma {:induction false} ChartOfFiniteLine(data: seq<DataPoint>, independentVar: string, line: RegressionLine,
                                             chart: seq<ChartRow>)
    requires line.slope.Finite? && line.intercept.Finite?
    requires |chart| == |data|
    requires forall i :: 0 <= i < |data| ==> chart[i] == ChartRowOf(data[i], independentVar, line)
    ensures forall i :: 0 <= i < |data| && independentVar in data[i] ==>
      chart[i].prediction == Some(Finite(line.slope.value * data[i][independentVar] + line.intercept.value))
  {
    FiniteLineValues(line);
  }

  lemma {:induction false} FiniteLineValues(line: RegressionLine)
    requires line.slope.Finite? && line.intercept.Finite?
    ensures forall v :: LineAt(line, v) == Finite(line.slope.value * v + line.intercept.value)
  {
  }

  /**
   * On success with all x values equal: slope and intercept are NaN, every
   * charted prediction is NaN, and so is every metric.
   */
  lemma {:induction false} AnalysisOfConstantX(data: seq<DataPoint>, independentVar: string, dependentVar: string,
                                               columns: seq<string>, sqrt: real -> real)
    requires PerformAnalysis(data, independentVar, dependentVar, columns, sqrt).Success?
    requires Constant(Column(data, independentVar))
    ensures var results := PerformAnalysis(data, independentVar, dependentVar, columns, sqrt).results;
      && results.regressionLine == RegressionLine(NaN, NaN)
      && results.metrics == Metrics(NaN, NaN, NaN, NaN)
      && forall i :: 0 <= i < |data| && independentVar in data[i] ==>
           results.chartData[i].prediction == Some(NaN)
  {
    var x := Column(data, independentVar);
    var y := Column(data, dependentVar);
    ConstantXUndefinedFit(x, y);
    ConstantXSpoilsFit(x, y, sqrt);
  }

  /**
   * Records parsed from CSV text with at least two data rows, analysed on
   * two header names, succeed, with one x and one y value per record,
   * exactly when neither name is `__proto__`, which no record stores; with
   * it the columns do not match.
   */
  lemma {:induction false} ParsedDataIsAnalysed(d: Dataset, text: string, independentVar: string, dependentVar: string,
                                                columns: seq<string>, sqrt: real -> real)
    requires |Lines(text)| >= 2
    requires d.headers == HeaderNames(Lines(text)[0])
    requires |d.data| == |Lines(text)| - 1
    requires forall k :: 0 <= k < |d.data| ==> d.data[k] == RecordOf(d.headers, Split(Lines(text)[k + 1], ','))
    requires independentVar in d.headers && dependentVar in d.headers && |d.data| >= 2
    ensures var state := PerformAnalysis(d.data, independentVar, dependentVar, columns, sqrt);
      && (state.Success? <==> independentVar != ProtoKey && dependentVar != ProtoKey)
      && (state.Error? ==> state.message == MismatchMessage)
      && (state.Success? ==> |Column(d.data, independentVar)| == |d.data| == |Column(d.data, dependentVar)|)
  {
    ParsedRecordsHaveHeaderKeys(d, text);
    if independentVar != ProtoKey && dependentVar != ProtoKey {
      KeyedDataIsAnalysed(d.data, independentVar, dependentVar, columns, sqrt);
    } else {
      ProtoVariableFails(d.data, independentVar, dependentVar, columns, sqrt);
    }
  }

  /** Analysed on `__proto__`, records that do not store it give the mismatch error. */
  lemma {:induction false} ProtoVariableFails(data: seq<DataPoint>, independentVar: string, dependentVar: string,
                                              columns: seq<string>, sqrt: real -> real)
    requires |data| >= 2
    requires forall k :: 0 <= k < |data| ==> ProtoKey !in data[k]
    requires independentVar == ProtoKey || dependentVar == ProtoKey
    ensures PerformAnalysis(data, independentVar, dependentVar, columns, sqrt) == Error(MismatchMessage)
  {
    AbsentKeyColumn(data, ProtoKey);
  }

  /** A key no record has gives an empty column. */
  lemma {:induction false} AbsentKeyColumn(data: seq<DataPoint>, key: string)
    requires forall k :: 0 <= k < |data| ==> key !in data[k]
    ensures Column(data, key) == []
  {
    if |data| > 0 {
      assert forall k :: 0 <= k < |data[1..]| ==> data[1..][k] == data[k + 1];
      AbsentKeyColumn(data[1..], key);
    }
  }

  /** Two or more records that all have both variables always get a result. */
  lemma {:induction false} KeyedDataIsAnalysed(data: seq<DataPoint>, independentVar: string, dependentVar: string,
                                               columns: seq<string>, sqrt: real -> real)
    requires |data| >= 2
    requires forall k :: 0 <= k < |data| ==> independentVar in data[k] && dependentVar in data[k]
    ensures PerformAnalysis(data, independentVar, dependentVar, columns, sqrt).Success?
    ensures |Column(data, independentVar)| == |data| == |Column(data, dependentVar)|
  {
    ColumnShape(data, independentVar);
    ColumnShape(data, dependentVar);
  }

  /** The description starts with the record count, which reads back as a number. */
  lemma {:induction false} DescriptionCountReadsBack(count: nat, columns: seq<string>, dependentVar: string,
                                                     independentVar: string)
    ensures var text := Description(count, columns, dependentVar, independentVar);
      && |DescriptionLead| <= |text| && text[..|DescriptionLead|] == DescriptionLead
      && ParseFloat(text[|DescriptionLead|..]) == Some(count as real)
  {
    DescriptionShape(count, columns, dependentVar, independentVar);
    ParseWholeText(count, DescriptionTail(columns, dependentVar, independentVar));
  }

  lemma {:induction false} DescriptionShape(count: nat, columns: seq<string>, dependentVar: string,
                                            independentVar: string)
    ensures var text := Description(count, columns, dependentVar, independentVar);
      var tail := DescriptionTail(columns, dependentVar, independentVar);
      && |DescriptionLead| <= |text| && text[..|DescriptionLead|] == DescriptionLead
      && text[|DescriptionLead|..] == NatText(count) + tail
      && EndsNumber(tail)
  {
    var tail := DescriptionTail(columns, dependentVar, independentVar);
    var number := NatText(count);
    TailStartsWithSpace(columns, dependentVar, independentVar);
    Regroup(DescriptionLead, number, tail);
    SplitAfter(DescriptionLead, number + tail);
  }

  lemma {:induction false} TailStartsWithSpace(columns: seq<string>, dependentVar: string, independentVar: string)
    ensures |DescriptionTail(columns, dependentVar, independentVar)| > 0
    ensures DescriptionTail(columns, dependentVar, independentVar)[0] == ' '
  {
    var lead := " records with columns: ";
    var tail := DescriptionTail(columns, dependentVar, independentVar);
    assert tail == lead + (tail[|lead|..]);
  }

  lemma {:induction false} Regroup(a: string, b: string, c: string)
    ensures a + b + c == a + (b + c)
  {
  }

  lemma {:induction false} SplitAfter(a: string, b: string)
    ensures |a| <= |a + b| && (a + b)[..|a|] == a && (a + b)[|a|..] == b
  {
  }
}
