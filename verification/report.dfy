/**
 * The report loop of the statistics emitter: the CSV reader skips comment
 * lines, every other row goes through the per-row transform in order, and
 * the first row that fails aborts the whole report (the source panics).
 */
module Report {
  import opened Wrappers
  import opened Transform

  /** Lines the CSV reader skips: those starting with the comment character `#`. */
  predicate IsComment(row: Row) {
    |row| > 0 && |row[0]| > 0 && row[0][0] == '#'
  }

  /** The data rows of a report, in their original order. */
  function DataRows(rows: seq<Row>): (data: seq<Row>)
    ensures |data| <= |rows|
    ensures forall k :: 0 <= k < |data| ==> data[k] in rows && !IsComment(data[k])
    ensures forall j :: 0 <= j < |rows| && !IsComment(rows[j]) ==> rows[j] in data
    decreases |rows|
  {
    if |rows| == 0 then []
    else
      var earlier := DataRows(rows[..|rows| - 1]);
      assert forall j :: 0 <= j < |rows| - 1 ==> rows[..|rows| - 1][j] == rows[j];
      if IsComment(rows[|rows| - 1]) then earlier else earlier + [rows[|rows| - 1]]
  }

  /** Filtering a report in two pieces is filtering it whole. */
  lemma {:induction false} DataRowsConcat(first: seq<Row>, second: seq<Row>)
    ensures DataRows(first + second) == DataRows(first) + DataRows(second)
    decreases |second|
  {
    if |second| == 0 {
      assert first + second == first;
    } else {
      var shorter := second[..|second| - 1];
      assert (first + second)[..|first + second| - 1] == first + shorter;
      assert (first + second)[|first + second| - 1] == second[|second| - 1];
      DataRowsConcat(first, shorter);
      if !IsComment(second[|second| - 1]) {
        var last := second[|second| - 1];
        assert DataRows(first) + DataRows(shorter) + [last] == DataRows(first) + (DataRows(shorter) + [last]);
      }
    }
  }

  /** Comment lines hold no data rows. */
  lemma {:induction false} CommentsNoData(rows: seq<Row>)
    requires forall j :: 0 <= j < |rows| ==> IsComment(rows[j])
    ensures DataRows(rows) == []
    decreases |rows|
  {
    if |rows| > 0 {
      CommentsNoData(rows[..|rows| - 1]);
    }
  }

  /** The field count every data row must have: that of the first data row. */
  function ReportWidth(rows: seq<Row>): nat {
    var data := DataRows(rows);
    if |data| == 0 then 0 else |data[0]|
  }

  /** Why a report stopped at a line. */
  datatype Failure =
    | WrongFieldCount(expected: nat, width: nat)  // the reader's field-count check
    | BadRow(cause: RowError)                      // the per-row transform

  /** Where a report stopped: the index of the offending line and why. */
  datatype ReportError = ReportError(line: nat, failure: Failure)

  /**
   * What one line contributes when data rows must have `width` fields:
   * nothing for a comment, a field-count failure for a row of another
   * width, else the row's transform.
   */
  function LineOutcome(width: nat, row: Row): (o: Option<Result<Metrics, Failure>>)
    ensures o.None? <==> IsComment(row)
    ensures o == Some(Err(WrongFieldCount(width, |row|))) <==> !IsComment(row) && |row| != width
  {
    if IsComment(row) then None
    else if |row| != width then Some(Err(WrongFieldCount(width, |row|)))
    else match ExtractRow(row)
      case Err(cause) => Some(Err(BadRow(cause)))
      case Ok(gauges) => Some(Ok(gauges))
  }

  /**
   * Processing one more line numbered `line`: a report that already failed
   * stays failed, a comment adds nothing, a failing line stops the report and
   * a good row appends its gauges.
   */
  function Step(done: Result<seq<Metrics>, ReportError>, outcome: Option<Result<Metrics, Failure>>, line: nat)
    : (r: Result<seq<Metrics>, ReportError>)
    ensures done.Err? ==> r == done
    ensures r.Ok? ==> done.Ok? && |r.value| == |done.value| + (if outcome.Some? then 1 else 0)
    ensures done.Ok? && outcome.Some? ==> (r.Ok? <==> outcome.value.Ok?)
    ensures done.Ok? && outcome.Some? && outcome.value.Err? ==> r == Err(ReportError(line, outcome.value.error))
    ensures r.Ok? && outcome.Some? && outcome.value.Ok? ==> r.value == done.value + [outcome.value.value]
    ensures outcome.None? ==> r == done
  {
    match done
    case Err(e) => Err(e)
    case Ok(gauges) =>
      match outcome
      case None => Ok(gauges)
      case Some(Err(failure)) => Err(ReportError(line, failure))
      case Some(Ok(metrics)) => Ok(gauges + [metrics])
  }

  /**
   * Processing `rows` in order, where `outcome` says what each line
   * contributes; line numbers are indices into `rows`.
   */
  function Fold(rows: seq<Row>, outcome: Row -> Option<Result<Metrics, Failure>>)
    : (r: Result<seq<Metrics>, ReportError>)
    ensures r.Ok? ==> |r.value| <= |rows|
    ensures r.Err? ==> r.error.line < |rows|
    decreases |rows|
  {
    if |rows| == 0 then Ok([])
    else Step(Fold(rows[..|rows| - 1], outcome), outcome(rows[|rows| - 1]), |rows| - 1)
  }

  /** Reading rows when every data row must have `width` fields. */
  function ReadRows(width: nat, rows: seq<Row>): (r: Result<seq<Metrics>, ReportError>)
    ensures r.Ok? ==> |r.value| <= |rows|
    ensures r.Err? ==> r.error.line < |rows|
  {
    Fold(rows, row => LineOutcome(width, row))
  }

  /**
   * The gauges of every data row, in report order, or the failure of the
   * first line that cannot be read or transformed. The reader takes the
   * field count of the first data row as the one every data row must have.
   */
  function ProcessReport(rows: seq<Row>): (r: Result<seq<Metrics>, ReportError>)
    ensures r.Ok? ==> |r.value| <= |rows|
    ensures r.Err? ==> r.error.line < |rows|
  {
    ReadRows(ReportWidth(rows), rows)
  }

  /** Reading succeeds exactly when every data row has the expected width and transforms. */
  lemma {:induction false} ReadRowsSucceeds(width: nat, rows: seq<Row>)
    ensures ReadRows(width, rows).Ok? <==>
      forall j :: 0 <= j < |rows| && !IsComment(rows[j]) ==> |rows[j]| == width && ExtractRow(rows[j]).Ok?
    decreases |rows|
  {
    if |rows| > 0 {
      var prefix := rows[..|rows| - 1];
      ReadRowsSucceeds(width, prefix);
      assert forall j :: 0 <= j < |prefix| ==> prefix[j] == rows[j];
    }
  }

  /** Successful reading holds the gauges of each data row, in report order. */
  lemma {:induction false} ReadRowsGauges(width: nat, rows: seq<Row>)
    requires ReadRows(width, rows).Ok?
    ensures var gauges := ReadRows(width, rows).value;
      && |gauges| == |DataRows(rows)|
      && forall k :: 0 <= k < |gauges| ==> ExtractRow(DataRows(rows)[k]) == Ok(gauges[k])
    decreases |rows|
  {
    if |rows| > 0 {
      ReadRowsGauges(width, rows[..|rows| - 1]);
    }
  }

  /**
   * Failed reading names the first line that failed, a data row of the
   * wrong width or one the transform rejects; every line before it reads
   * successfully.
   */
  lemma {:induction false} ReadRowsFailure(width: nat, rows: seq<Row>)
    requires ReadRows(width, rows).Err?
    ensures var e := ReadRows(width, rows).error;
      && e.line < |rows|
      && !IsComment(rows[e.line])
      && (if |rows[e.line]| != width then e.failure == WrongFieldCount(width, |rows[e.line]|)
          else ExtractRow(rows[e.line]).Err? && e.failure == BadRow(ExtractRow(rows[e.line]).error))
      && ReadRows(width, rows[..e.line]).Ok?
    decreases |rows|
  {
    var prefix := rows[..|rows| - 1];
    match ReadRows(width, prefix)
    case Err(e) =>
      ReadRowsFailure(width, prefix);
      assert prefix[..e.line] == rows[..e.line];
      assert prefix[e.line] == rows[e.line];
    case Ok(_) =>
      assert rows[..|rows| - 1] == prefix;
  }

  /**
   * A report succeeds exactly when all its data rows have the field count
   * of the first one and every one of them transforms.
   */
  lemma ProcessReportSucceeds(rows: seq<Row>)
    ensures ProcessReport(rows).Ok? <==>
      forall j :: 0 <= j < |rows| && !IsComment(rows[j]) ==>
        |rows[j]| == ReportWidth(rows) && ExtractRow(rows[j]).Ok?
  {
    ReadRowsSucceeds(ReportWidth(rows), rows);
  }

  /** A successful report holds the gauges of each data row, in report order. */
  lemma ProcessReportGauges(rows: seq<Row>)
    requires ProcessReport(rows).Ok?
    ensures var gauges := ProcessReport(rows).value;
      && |gauges| == |DataRows(rows)|
      && forall k :: 0 <= k < |gauges| ==> ExtractRow(DataRows(rows)[k]) == Ok(gauges[k])
  {
    ReadRowsGauges(ReportWidth(rows), rows);
  }

  /** A report made only of comment lines sends nothing and does not fail. */
  lemma {:induction false} CommentOnlyReport(width: nat, rows: seq<Row>)
    requires forall j :: 0 <= j < |rows| ==> IsComment(rows[j])
    ensures ReadRows(width, rows) == Ok([])
    decreases |rows|
  {
    if |rows| > 0 {
      CommentOnlyReport(width, rows[..|rows| - 1]);
    }
  }

  /**
   * The outcome of running `first` and then `second`, where the lines of
   * `second` are numbered after the `offset` lines of `first`.
   */
  function Chain(first: Result<seq<Metrics>, ReportError>, second: Result<seq<Metrics>, ReportError>, offset: nat)
    : Result<seq<Metrics>, ReportError>
  {
    match first
    case Err(e) => Err(e)
    case Ok(earlier) =>
      match second
      case Err(e) => Err(ReportError(e.line + offset, e.failure))
      case Ok(later) => Ok(earlier + later)
  }

  /** Appending a line to the second half of a chained report is stepping the whole. */
  lemma StepChain(first: Result<seq<Metrics>, ReportError>, second: Result<seq<Metrics>, ReportError>,
                  outcome: Option<Result<Metrics, Failure>>, offset: nat, line: nat)
    ensures Step(Chain(first, second, offset), outcome, offset + line)
         == Chain(first, Step(second, outcome, line), offset)
  {
    if first.Ok? && second.Ok? && outcome.Some? && outcome.value.Ok? {
      var earlier, later, metrics := first.value, second.value, outcome.value.value;
      assert earlier + later + [metrics] == earlier + (later + [metrics]);
    }
  }

  /** Folding two pieces in turn is folding the whole, with the second's lines renumbered. */
  lemma {:induction false} FoldConcat(first: seq<Row>, second: seq<Row>, outcome: Row -> Option<Result<Metrics, Failure>>)
    ensures Fold(first + second, outcome) == Chain(Fold(first, outcome), Fold(second, outcome), |first|)
    decreases |second|
  {
    if |second| == 0 {
      assert first + second == first;
      if Fold(first, outcome).Ok? {
        assert Fold(first, outcome).value + [] == Fold(first, outcome).value;
      }
    } else {
      var rows := first + second;
      var shorter := second[..|second| - 1];
      assert rows[..|rows| - 1] == first + shorter;
      assert rows[|rows| - 1] == second[|second| - 1];
      FoldConcat(first, shorter, outcome);
      StepChain(Fold(first, outcome), Fold(shorter, outcome), outcome(second[|second| - 1]), |first|, |second| - 1);
    }
  }

  /**
   * Besides the expected field count, no state is carried from one row to
   * the next: reading rows in two pieces gives the outcome of reading them
   * whole.
   */
  lemma ReadRowsConcat(width: nat, first: seq<Row>, second: seq<Row>)
    ensures ReadRows(width, first + second) == Chain(ReadRows(width, first), ReadRows(width, second), |first|)
  {
    FoldConcat(first, second, row => LineOutcome(width, row));
  }

  /**
   * The expected field count is fixed by the first data row: comment lines
   * before it do not change it, and it is the count of that row.
   */
  lemma ReportWidthFirstDataRow(comments: seq<Row>, row: Row, rest: seq<Row>)
    requires forall j :: 0 <= j < |comments| ==> IsComment(comments[j])
    requires !IsComment(row)
    ensures ReportWidth(comments + [row] + rest) == |row|
  {
    DataRowsConcat(comments + [row], rest);
    DataRowsConcat(comments, [row]);
    CommentsNoData(comments);
  }
}
