/**
 * `parseCSV`: the minimal comma-separated reader. No quoting and no
 * escaping: the trimmed text is cut at every line feed, the first line names
 * the columns, and every later line becomes one record.
 */
module Csv {
  import opened Wrappers
  import opened Text

  /** A record: column name to number, its own properties. `parseCSV` never stores NaN. */
  type DataPoint = map<string, real>

  /**
   * The one name a plain object cannot take as an own property by
   * assignment: `point['__proto__'] = v` runs the inherited `__proto__`
   * setter, which ignores a value that is not an object.
   */
  const ProtoKey := "__proto__"

  /**
   * The names every plain object inherits from `Object.prototype`. Reading
   * one that is not an own property gives a function, or for `__proto__`
   * the prototype object itself, never `undefined` and never a number.
   */
  const InheritedKeys: set<string> := {
    "constructor", "hasOwnProperty", "isPrototypeOf", "propertyIsEnumerable", "toLocaleString",
    "toString", "valueOf", "__defineGetter__", "__defineSetter__", "__lookupGetter__",
    "__lookupSetter__", ProtoKey
  }

  datatype Dataset = Dataset(data: seq<DataPoint>, headers: seq<string>)

  const NoDataRowMessage := "CSV must have a header and at least one data row."

  /** `csvText.trim().split('\n')` */
  function Lines(text: string): seq<string>
  {
    Split(Trim(text), '\n')
  }

  /** `line.split(',').map(h => h.trim())` */
  function HeaderNames(line: string): seq<string>
  {
    var fields := Split(line, ',');
    seq(|fields|, i requires 0 <= i < |fields| => Trim(fields[i]))
  }

  /** `parseFloat(values[index])` with NaN stored as `0`; a missing cell reads as NaN. */
  function CellValue(values: seq<string>, index: nat): real
  {
    if index < |values| then
      match ParseFloat(values[index])
      case Some(v) => v
      case None => 0.0
    else 0.0
  }

  /** The cell values `headers.forEach` reads, one per header position. */
  function Cells(values: seq<string>, count: nat): seq<real>
  {
    seq(count, i requires 0 <= i < count => CellValue(values, i))
  }

  /**
   * `point[header] = value` for each header in turn, so a repeated header
   * ends up with the value of its last occurrence and `__proto__` is never
   * stored.
   */
  function Assign(headers: seq<string>, cells: seq<real>): DataPoint
    requires |headers| <= |cells|
  {
    if |headers| == 0 then map[]
    else
      var n := |headers| - 1;
      Store(Assign(headers[..n], cells), headers[n], cells[n])
  }

  /** `point[key] = value` on a plain object. */
  function Store(point: DataPoint, key: string, value: real): DataPoint
  {
    if key == ProtoKey then point else point[key := value]
  }

  /** The record `headers.forEach` builds from one line's comma-separated cells. */
  function RecordOf(headers: seq<string>, values: seq<string>): DataPoint
  {
    Assign(headers, Cells(values, |headers|))
  }

  /** Builds one record by assigning every header in order, as the `forEach` loop does. */
  method BuildRecord(headers: seq<string>, values: seq<string>) returns (point: DataPoint)
    ensures point == RecordOf(headers, values)
  {
    ghost var cells := Cells(values, |headers|);
    point := map[];
    var index := 0;
    while index < |headers|
      invariant 0 <= index <= |headers|
      invariant point == Assign(headers[..index], cells)
    {
      assert headers[..index + 1][..index] == headers[..index];
      point := Store(point, headers[index], CellValue(values, index));
      index := index + 1;
    }
    assert headers[..index] == headers;
  }

  /**
   * `parseCSV`: fails, with the fixed message, exactly when the trimmed text
   * has fewer than two lines; otherwise the headers are the trimmed fields of
   * the first line and every later line, blank ones included, gives one
   * record built from its comma-separated cells.
   */
  method ParseCsv(text: string) returns (r: Result<Dataset, string>)
    ensures r.Err? <==> |Lines(text)| < 2
    ensures r.Err? ==> r.error == NoDataRowMessage
    ensures r.Ok? ==>
      var lines := Lines(text);
      && r.value.headers == HeaderNames(lines[0])
      && |r.value.data| == |lines| - 1
      && forall k :: 0 <= k < |r.value.data| ==>
           r.value.data[k] == RecordOf(r.value.headers, Split(lines[k + 1], ','))
  {
    var lines := Lines(text);
    if |lines| < 2 {
      return Err(NoDataRowMessage);
    }
    var headers := HeaderNames(lines[0]);
    var data := BuildRecords(headers, lines[1..]);
    assert forall k :: 0 <= k < |data| ==> lines[1..][k] == lines[k + 1];
    return Ok(Dataset(data, headers));
  }

  /** `lines.slice(1).map(...)`: one record per line, in order. */
  method BuildRecords(headers: seq<string>, rows: seq<string>) returns (data: seq<DataPoint>)
    ensures |data| == |rows|
    ensures forall k :: 0 <= k < |rows| ==> data[k] == RecordOf(headers, Split(rows[k], ','))
  {
    data := [];
    var k := 0;
    while k < |rows|
      invariant 0 <= k <= |rows|
      invariant |data| == k
      invariant forall j :: 0 <= j < k ==> data[j] == RecordOf(headers, Split(rows[j], ','))
    {
      var point := BuildRecord(headers, Split(rows[k], ','));
      ghost var before := data;
      data := data + [point];
      forall j | 0 <= j <= k ensures data[j] == RecordOf(headers, Split(rows[j], ',')) {
        if j < k {
          assert data[j] == before[j];
        }
      }
      k := k + 1;
    }
  }

  /** Fewer than two lines means there is no line feed left after trimming; empty text is one empty line. */
  lemma {:induction false} TooFewLinesIffNoLineFeed(text: string)
    ensures |Lines(text)| < 2 <==> '\n' !in Trim(text)
    ensures |Lines(text)| >= 1
  {
    SplitSingle(Trim(text), '\n');
  }

  /** The headers are the first line's comma-separated fields, trimmed, in order. */
  lemma {:induction false} HeaderNamesAreTrimmedFields(line: string)
    ensures |HeaderNames(line)| == Occurrences(line, ',') + 1
    ensures forall i :: 0 <= i < |HeaderNames(line)| ==>
      HeaderNames(line)[i] == Trim(Split(line, ',')[i]) && ',' !in HeaderNames(line)[i]
  {
    var fields := Split(line, ',');
    forall i | 0 <= i < |fields| ensures ',' !in Trim(fields[i]) {
      TrimAvoids(fields[i], ',');
    }
  }

  /** Every record's keys are exactly the header names other than `__proto__`. */
  lemma {:induction false} RecordKeys(headers: seq<string>, values: seq<string>)
    ensures forall h :: h in RecordOf(headers, values) <==> h in headers && h != ProtoKey
  {
    AssignKeys(headers, Cells(values, |headers|));
  }

  lemma {:induction false} AssignKeys(headers: seq<string>, cells: seq<real>)
    requires |headers| <= |cells|
    ensures forall h :: h in Assign(headers, cells) <==> h in headers && h != ProtoKey
  {
    if |headers| > 0 {
      var n := |headers| - 1;
      AssignKeys(headers[..n], cells);
      assert headers == headers[..n] + [headers[n]];
    }
  }

  /** A header other than `__proto__` holds the cell at its last position among the headers. */
  lemma {:induction false} RecordLastWins(headers: seq<string>, values: seq<string>, i: nat)
    requires i < |headers| && headers[i] != ProtoKey
    requires forall j :: i < j < |headers| ==> headers[j] != headers[i]
    ensures headers[i] in RecordOf(headers, values)
    ensures RecordOf(headers, values)[headers[i]] == CellValue(values, i)
  {
    AssignLastWins(headers, Cells(values, |headers|), i);
  }

  lemma {:induction false} AssignLastWins(headers: seq<string>, cells: seq<real>, i: nat)
    requires |headers| <= |cells|
    requires i < |headers| && headers[i] != ProtoKey
    requires forall j :: i < j < |headers| ==> headers[j] != headers[i]
    ensures headers[i] in Assign(headers, cells)
    ensures Assign(headers, cells)[headers[i]] == cells[i]
  {
    var n := |headers| - 1;
    if i < n {
      assert headers[..n][i] == headers[i];
      AssignLastWins(headers[..n], cells, i);
    }
  }

  /** Cells past the last header are ignored. */
  lemma {:induction false} ExtraCellsIgnored(headers: seq<string>, values: seq<string>, extra: seq<string>)
    requires |values| >= |headers|
    ensures RecordOf(headers, values + extra) == RecordOf(headers, values)
  {
    forall i | 0 <= i < |headers| ensures CellValue(values + extra, i) == CellValue(values, i) {
      assert (values + extra)[i] == values[i];
    }
    assert Cells(values + extra, |headers|) == Cells(values, |headers|);
  }

  /**
   * A header whose cell, at its last position, is past the end of a short
   * row or is rejected by `parseFloat` is stored as `0`.
   */
  lemma {:induction false} MissingCellIsZero(headers: seq<string>, values: seq<string>, i: nat)
    requires i < |headers| && headers[i] != ProtoKey
    requires forall j :: i < j < |headers| ==> headers[j] != headers[i]
    requires i >= |values| || ParseFloat(values[i]).None?
    ensures headers[i] in RecordOf(headers, values)
    ensures RecordOf(headers, values)[headers[i]] == 0.0
  {
    RecordLastWins(headers, values, i);
  }

  /** A line without a single digit, such as a blank interior line, gives an all-zero record. */
  lemma {:induction false} NoDigitLineIsZero(headers: seq<string>, line: string)
    requires forall i :: 0 <= i < |line| ==> !IsDigit(line[i])
    ensures forall h :: h in RecordOf(headers, Split(line, ',')) ==> RecordOf(headers, Split(line, ','))[h] == 0.0
  {
    var values := Split(line, ',');
    forall k | 0 <= k < |values| ensures ParseFloat(values[k]) == None {
      forall i | 0 <= i < |values[k]| ensures !IsDigit(values[k][i]) {
        JoinContains(values, ',', k, i);
      }
      ParseNoDigits(values[k]);
    }
    AllCellsZero(headers, values);
  }

  lemma {:induction false} AllCellsZero(headers: seq<string>, values: seq<string>)
    requires forall k :: 0 <= k < |values| ==> ParseFloat(values[k]) == None
    ensures forall h :: h in RecordOf(headers, values) ==> RecordOf(headers, values)[h] == 0.0
  {
    var cells := Cells(values, |headers|);
    forall i | 0 <= i < |cells| ensures cells[i] == 0.0 {
      assert cells[i] == CellValue(values, i);
    }
    AssignZeros(headers, cells);
  }

  lemma {:induction false} AssignZeros(headers: seq<string>, cells: seq<real>)
    requires |headers| <= |cells|
    requires forall i :: 0 <= i < |cells| ==> cells[i] == 0.0
    ensures forall h :: h in Assign(headers, cells) ==> Assign(headers, cells)[h] == 0.0
  {
    if |headers| > 0 {
      AssignZeros(headers[..|headers| - 1], cells);
    }
  }

  /** Every character of a piece occurs in the joined text. */
  lemma {:induction false} JoinContains(parts: seq<string>, sep: char, k: nat, i: nat)
    requires k < |parts| && i < |parts[k]|
    ensures exists j :: 0 <= j < |Join(parts, sep)| && Join(parts, sep)[j] == parts[k][i]
  {
    if |parts| == 1 {
      assert Join(parts, sep)[i] == parts[k][i];
    } else if k == 0 {
      assert Join(parts, sep)[i] == parts[0][i];
    } else {
      JoinContains(parts[1..], sep, k - 1, i);
      var j :| 0 <= j < |Join(parts[1..], sep)| && Join(parts[1..], sep)[j] == parts[1..][k - 1][i];
      assert Join(parts, sep)[|parts[0]| + 1 + j] == parts[k][i];
    }
  }

  /** A successful parse gives every record exactly the header names other than `__proto__` as keys. */
  lemma {:induction false} ParsedRecordsHaveHeaderKeys(d: Dataset, text: string)
    requires |Lines(text)| >= 2
    requires d.headers == HeaderNames(Lines(text)[0])
    requires |d.data| == |Lines(text)| - 1
    requires forall k :: 0 <= k < |d.data| ==> d.data[k] == RecordOf(d.headers, Split(Lines(text)[k + 1], ','))
    ensures forall k, h :: 0 <= k < |d.data| ==> (h in d.data[k] <==> h in d.headers && h != ProtoKey)
  {
    forall k | 0 <= k < |d.data| ensures forall h :: h in d.data[k] <==> h in d.headers && h != ProtoKey {
      RecordKeys(d.headers, Split(Lines(text)[k + 1], ','));
    }
  }
}
