/**
 * The per-row transform of the statistics emitter: one already-split CSV row
 * of the HAProxy report becomes the gauges sent for it, keyed by metric name.
 * `Select` builds the record of the eighteen selected columns, `Dispatch`
 * converts its sixteen numeric values and names them, `ExtractRow` is both.
 */
module Transform {
  import opened Wrappers
  import opened Strconv
  import opened Naming
  import opened Fields

  /** One record of the report, as split by the CSV reader. */
  type Row = seq<string>

  /** The gauges derived from one row: metric name to value. */
  type Metrics = map<string, int>

  /** Why a row cannot be turned into gauges (the source panics on both). */
  datatype RowError =
    | ShortRow(width: nat)
    | InvalidNumber(key: string, text: string)

  /** An empty value is sent as zero. */
  function Normalize(text: string): (r: string)
    ensures |r| > 0
    ensures |text| > 0 ==> r == text
  {
    if |text| == 0 then "0" else text
  }

  /**
   * The gauge value of a field, or `None` when the text is not an int64.
   * The empty case is split off so that the solver need not evaluate
   * `Atoi("0")` at every use; `ParseValueNormalizes` shows this is the
   * source's `Atoi` of the normalized text.
   */
  function ParseValue(text: string): (r: Option<int>)
    ensures |text| == 0 ==> r == Some(0)
  {
    if |text| == 0 then Some(0) else Atoi(text)
  }

  /** `ParseValue` is `Atoi` applied after the empty-to-zero replacement. */
  lemma ParseValueNormalizes(text: string)
    ensures ParseValue(text) == Atoi(Normalize(text))
    ensures |text| == 0 ==> ParseValue(text) == Some(0)
  {
    if |text| == 0 {
      assert Accumulate("0", 0, 0) == Some(0);
    }
  }

  /**
   * The record the source builds from a row: each selected key holds the
   * text of its column.
   */
  function Properties(row: Row): map<string, string>
    requires |row| >= RowWidth
  {
    SelectedKeysDistinct();
    map i | 0 <= i < |Selected| :: Selected[i].key := row[Selected[i].column]
  }

  /** The literal record has exactly the keys of the `Selected` table. */
  lemma PropertiesKeys(row: Row)
    requires |row| >= RowWidth
    ensures Properties(row).Keys == Keys(Selected)
  {
  }

  /** Each key of the literal record holds the column the `Selected` table gives it. */
  lemma PropertiesColumns(row: Row)
    requires |row| >= RowWidth
    ensures forall i :: 0 <= i < |Selected| ==>
      Selected[i].key in Properties(row) && Properties(row)[Selected[i].key] == row[Selected[i].column]
  {
    SelectedKeysDistinct();
  }

  /**
   * The record of selected columns, with `:` in the proxy name already
   * replaced; a row too short to index fails before anything is read.
   */
  function Select(row: Row): (r: Result<map<string, string>, RowError>)
    ensures r.Ok? <==> |row| >= RowWidth
    ensures r.Err? ==> r.error == ShortRow(|row|)
    ensures r.Ok? ==> PxName.key in r.value && r.value[PxName.key] == Sanitize(row[PxName.column])
    ensures r.Ok? ==> SvName.key in r.value && r.value[SvName.key] == row[SvName.column]
    ensures r.Ok? ==> forall i :: 0 <= i < |NumericFields| ==>
      NumericFields[i].key in r.value && r.value[NumericFields[i].key] == row[NumericFields[i].column]
  {
    if |row| < RowWidth then Err(ShortRow(|row|))
    else
      var properties := Properties(row);
      PropertiesColumns(row);
      assert properties[PxName.key] == row[PxName.column] by {
        assert Selected[0] == PxName;
      }
      assert properties[SvName.key] == row[SvName.column] by {
        assert Selected[1] == SvName;
      }
      assert forall i :: 0 <= i < |NumericFields| ==> NumericFields[i] == Selected[i + 2];
      IdentifierKeysNotNumeric();
      Ok(properties[PxName.key := Sanitize(properties[PxName.key])])
  }

  /** The record holds exactly the eighteen selected keys. */
  lemma SelectKeys(row: Row)
    requires |row| >= RowWidth
    ensures Select(row).value.Keys == Keys(Selected)
  {
    PropertiesKeys(row);
    assert Selected[0].key == PxName.key;
  }

  /** One (key, value text) pair of the record, as the dispatch loop visits it. */
  datatype Entry = Entry(key: string, text: string)

  /** The numeric entries of a record, in table order; the identifiers are left out. */
  function NumericEntries(record: map<string, string>): seq<Entry>
    requires forall i :: 0 <= i < |NumericFields| ==> NumericFields[i].key in record
  {
    seq(|NumericFields|, i requires 0 <= i < |NumericFields| =>
      Entry(NumericFields[i].key, record[NumericFields[i].key]))
  }

  predicate UniqueKeys(entries: seq<Entry>) {
    forall i, j :: 0 <= i < j < |entries| ==> entries[i].key != entries[j].key
  }

  /** The names of the gauges for the given entries of one proxy and server. */
  function EntryNames(pxname: string, svname: string, entries: seq<Entry>): set<string> {
    set i | 0 <= i < |entries| :: MetricName(pxname, svname, entries[i].key)
  }

  /**
   * Converts and names record entries, one gauge per entry. The first
   * value (in the given order) that is not an integer stops the row; the
   * source visits its record in map order, so all the contract promises
   * about the error is that it names some entry whose value is invalid.
   */
  function Dispatch(pxname: string, svname: string, entries: seq<Entry>): (r: Result<Metrics, RowError>)
    ensures r.Ok? <==> forall i :: 0 <= i < |entries| ==> ParseValue(entries[i].text).Some?
    ensures r.Err? ==>
      && r.error.InvalidNumber?
      && ParseValue(r.error.text).None?
      && exists i :: 0 <= i < |entries| && entries[i] == Entry(r.error.key, r.error.text)
    decreases |entries|
  {
    if |entries| == 0 then Ok(map[])
    else
      var entry := entries[0];
      match ParseValue(entry.text)
      case None => Err(InvalidNumber(entry.key, entry.text))
      case Some(value) =>
        match Dispatch(pxname, svname, entries[1..])
        case Err(e) =>
          assert exists i :: 0 <= i < |entries| && entries[i] == Entry(e.key, e.text) by {
            var j :| 0 <= j < |entries[1..]| && entries[1..][j] == Entry(e.key, e.text);
            assert entries[j + 1] == entries[1..][j];
          }
          Err(e)
        case Ok(rest) =>
          assert forall i :: 1 <= i < |entries| ==> entries[i] == entries[1..][i - 1];
          Ok(rest[MetricName(pxname, svname, entry.key) := value])
  }

  /** A dispatched row has one gauge name per entry, and no other. */
  lemma {:induction false} DispatchNames(pxname: string, svname: string, entries: seq<Entry>)
    requires Dispatch(pxname, svname, entries).Ok?
    ensures Dispatch(pxname, svname, entries).value.Keys == EntryNames(pxname, svname, entries)
    decreases |entries|
  {
    if |entries| > 0 {
      DispatchNames(pxname, svname, entries[1..]);
      var tail := EntryNames(pxname, svname, entries[1..]);
      var head := MetricName(pxname, svname, entries[0].key);
      assert EntryNames(pxname, svname, entries) == tail + {head} by {
        forall n | n in EntryNames(pxname, svname, entries) ensures n in tail + {head} {
          var i :| 0 <= i < |entries| && MetricName(pxname, svname, entries[i].key) == n;
          if i > 0 {
            assert entries[1..][i - 1] == entries[i];
          }
        }
        forall n | n in tail ensures n in EntryNames(pxname, svname, entries) {
          var j :| 0 <= j < |entries[1..]| && MetricName(pxname, svname, entries[1..][j].key) == n;
          assert entries[j + 1] == entries[1..][j];
        }
      }
    }
  }

  /** With unique keys, each entry's gauge carries that entry's value, and there is one gauge per entry. */
  lemma {:induction false} DispatchValues(pxname: string, svname: string, entries: seq<Entry>)
    requires UniqueKeys(entries)
    requires Dispatch(pxname, svname, entries).Ok?
    ensures |Dispatch(pxname, svname, entries).value| == |entries|
    ensures var gauges := Dispatch(pxname, svname, entries).value;
      forall i :: 0 <= i < |entries| ==>
        && MetricName(pxname, svname, entries[i].key) in gauges
        && gauges[MetricName(pxname, svname, entries[i].key)] == ParseValue(entries[i].text).value
    decreases |entries|
  {
    if |entries| > 0 {
      var rest := Dispatch(pxname, svname, entries[1..]).value;
      var gauges := Dispatch(pxname, svname, entries).value;
      var name := MetricName(pxname, svname, entries[0].key);
      DispatchValues(pxname, svname, entries[1..]);
      DispatchNames(pxname, svname, entries[1..]);
      if name in rest {
        var j :| 0 <= j < |entries[1..]| && MetricName(pxname, svname, entries[1..][j].key) == name;
        MetricNameInjective(pxname, svname, entries[1..][j].key, entries[0].key);
        assert false;
      }
      forall i | 1 <= i < |entries|
        ensures MetricName(pxname, svname, entries[i].key) in gauges
        ensures gauges[MetricName(pxname, svname, entries[i].key)] == ParseValue(entries[i].text).value
      {
        assert entries[1..][i - 1] == entries[i];
      }
    }
  }

  /**
   * The whole per-row transform: select the columns, then convert and name
   * the sixteen numeric ones. A row too short to index fails first; a wide
   * enough row can only fail on a numeric value (`ExtractRowSucceeds` says
   * exactly when).
   */
  function ExtractRow(row: Row): (r: Result<Metrics, RowError>)
    ensures |row| < RowWidth <==> r == Err(ShortRow(|row|))
    ensures |row| >= RowWidth && r.Err? ==> r.error.InvalidNumber?
  {
    match Select(row)
    case Err(e) => Err(e)
    case Ok(record) => Dispatch(record[PxName.key], record[SvName.key], NumericEntries(record))
  }

  /** A row transforms exactly when it is wide enough and each of its numeric values is an integer. */
  lemma ExtractRowSucceeds(row: Row)
    ensures ExtractRow(row).Ok? <==>
      && |row| >= RowWidth
      && forall i :: 0 <= i < |NumericFields| ==> ParseValue(row[NumericFields[i].column]).Some?
  {
    if |row| >= RowWidth {
      NumericEntriesOfRow(row);
    }
  }

  /** The entries of a selected row are its numeric columns, in table order. */
  lemma NumericEntriesOfRow(row: Row)
    requires |row| >= RowWidth
    ensures var entries := NumericEntries(Select(row).value);
      && |entries| == |NumericFields|
      && forall i :: 0 <= i < |entries| ==> entries[i] == Entry(NumericFields[i].key, row[NumericFields[i].column])
  {
  }

  /** A long enough row that fails names a numeric field whose column holds a non-integer. */
  lemma ExtractRowError(row: Row)
    requires |row| >= RowWidth
    ensures ExtractRow(row).Err? ==>
      var e := ExtractRow(row).error;
      && e.InvalidNumber?
      && ParseValue(e.text).None?
      && exists i :: 0 <= i < |NumericFields| && NumericFields[i].key == e.key && row[NumericFields[i].column] == e.text
  {
    ExtractRowUnfold(row);
    NumericEntriesOfRow(row);
    if ExtractRow(row).Err? {
      var e := ExtractRow(row).error;
      var entries := NumericEntries(Select(row).value);
      var i :| 0 <= i < |entries| && entries[i] == Entry(e.key, e.text);
    }
  }

  /** The names of the sixteen gauges of one proxy and server. */
  function RowMetricNames(pxname: string, svname: string): set<string> {
    set i | 0 <= i < |NumericFields| :: MetricName(pxname, svname, NumericFields[i].key)
  }

  /** The record and entries `ExtractRow` works on, for a row wide enough to select from. */
  lemma ExtractRowUnfold(row: Row)
    requires |row| >= RowWidth
    ensures var record := Select(row).value;
      && record[PxName.key] == Sanitize(row[0])
      && record[SvName.key] == row[1]
      && UniqueKeys(NumericEntries(record))
      && ExtractRow(row) == Dispatch(Sanitize(row[0]), row[1], NumericEntries(record))
  {
    SelectedKeysDistinct();
  }

  /**
   * A successful row yields one gauge per numeric key, named
   * `<sanitized pxname>.<svname>.<key>`, and no other.
   */
  lemma ExtractRowNames(row: Row)
    requires ExtractRow(row).Ok?
    ensures ExtractRow(row).value.Keys == RowMetricNames(Sanitize(row[0]), row[1])
  {
    ExtractRowUnfold(row);
    var entries := NumericEntries(Select(row).value);
    DispatchNames(Sanitize(row[0]), row[1], entries);
    var px, sv := Sanitize(row[0]), row[1];
    assert forall i :: 0 <= i < |entries| ==> entries[i].key == NumericFields[i].key;
    assert EntryNames(px, sv, entries) == RowMetricNames(px, sv) by {
      forall n | n in EntryNames(px, sv, entries) ensures n in RowMetricNames(px, sv) {
        var i :| 0 <= i < |entries| && MetricName(px, sv, entries[i].key) == n;
        assert MetricName(px, sv, NumericFields[i].key) == n;
      }
      forall n | n in RowMetricNames(px, sv) ensures n in EntryNames(px, sv, entries) {
        var i :| 0 <= i < |NumericFields| && MetricName(px, sv, NumericFields[i].key) == n;
        assert MetricName(px, sv, entries[i].key) == n;
      }
    }
  }

  /** A successful row yields exactly sixteen gauges: none overwrites another. */
  lemma ExtractRowCount(row: Row)
    requires ExtractRow(row).Ok?
    ensures |ExtractRow(row).value| == 16
  {
    ExtractRowUnfold(row);
    DispatchValues(Sanitize(row[0]), row[1], NumericEntries(Select(row).value));
    NumericFieldsCount();
  }

  /** Each gauge holds the integer read from its own fixed column. */
  lemma ExtractRowValues(row: Row)
    requires ExtractRow(row).Ok?
    ensures forall i :: 0 <= i < |NumericFields| ==>
      && MetricName(Sanitize(row[0]), row[1], NumericFields[i].key) in ExtractRow(row).value
      && Some(ExtractRow(row).value[MetricName(Sanitize(row[0]), row[1], NumericFields[i].key)])
         == ParseValue(row[NumericFields[i].column])
  {
    ExtractRowUnfold(row);
    var entries := NumericEntries(Select(row).value);
    DispatchValues(Sanitize(row[0]), row[1], entries);
    assert forall i :: 0 <= i < |NumericFields| ==> entries[i].text == row[NumericFields[i].column];
  }

  /** `ExtractRowValues` for the `i`-th numeric field alone. */
  lemma ExtractRowField(row: Row, i: nat)
    requires ExtractRow(row).Ok? && i < |NumericFields|
    ensures var name := MetricName(Sanitize(row[0]), row[1], NumericFields[i].key);
      name in ExtractRow(row).value && Some(ExtractRow(row).value[name]) == ParseValue(row[NumericFields[i].column])
  {
    ExtractRowValues(row);
  }

  /** A field whose column is empty is sent as zero. */
  lemma EmptyFieldIsZero(row: Row, i: nat)
    requires ExtractRow(row).Ok?
    requires i < |NumericFields| && row[NumericFields[i].column] == ""
    ensures && MetricName(Sanitize(row[0]), row[1], NumericFields[i].key) in ExtractRow(row).value
            && ExtractRow(row).value[MetricName(Sanitize(row[0]), row[1], NumericFields[i].key)] == 0
  {
    ExtractRowValues(row);
  }

  /** The proxy and server names are identifiers, never gauges of their own. */
  lemma IdentifiersNotEmitted(row: Row)
    requires ExtractRow(row).Ok?
    ensures MetricName(Sanitize(row[0]), row[1], PxName.key) !in ExtractRow(row).value
    ensures MetricName(Sanitize(row[0]), row[1], SvName.key) !in ExtractRow(row).value
  {
    var px, sv := Sanitize(row[0]), row[1];
    ExtractRowNames(row);
    IdentifierKeysNotNumeric();
    forall k | k == PxName.key || k == SvName.key
      ensures MetricName(px, sv, k) !in RowMetricNames(px, sv)
    {
      if MetricName(px, sv, k) in RowMetricNames(px, sv) {
        var i :| 0 <= i < |NumericFields| && MetricName(px, sv, NumericFields[i].key) == MetricName(px, sv, k);
        MetricNameInjective(px, sv, NumericFields[i].key, k);
        assert false;
      }
    }
  }

  /**
   * The sink separates a gauge's name from its value with `:`. After the
   * proxy name is sanitized, a gauge name holds a `:` exactly when the
   * server name does.
   */
  lemma GaugeNamesColon(row: Row)
    requires ExtractRow(row).Ok?
    ensures forall name :: name in ExtractRow(row).value ==> (':' in name <==> ':' in row[1])
  {
    var px, sv := Sanitize(row[0]), row[1];
    ExtractRowNames(row);
    NumericKeysPlain();
    forall name | name in ExtractRow(row).value ensures ':' in name <==> ':' in sv {
      var i :| 0 <= i < |NumericFields| && MetricName(px, sv, NumericFields[i].key) == name;
      assert ':' !in NumericFields[i].key;
      MetricNameColon(row[0], sv, NumericFields[i].key);
    }
  }

  /**
   * Only the selected columns matter: two rows wide enough to select from,
   * however many extra columns they carry, that agree on every selected
   * column give the same result.
   */
  lemma ExtractRowSelectedColumnsOnly(row1: Row, row2: Row)
    requires |row1| >= RowWidth && |row2| >= RowWidth
    requires forall c :: c in Columns(Selected) ==> row1[c] == row2[c]
    ensures ExtractRow(row1) == ExtractRow(row2)
  {
    assert Properties(row1) == Properties(row2);
  }

  lemma UpdateOutsideSelected(row: Row, c: nat, text: string)
    requires c < |row| && c !in Columns(Selected)
    ensures forall k :: k in Columns(Selected) && k < |row| ==> row[c := text][k] == row[k]
  {
  }

  /** Changing a column the emitter does not select leaves the result unchanged. */
  lemma ExtractRowIgnoresColumn(row: Row, c: nat, text: string)
    requires c < |row| && c !in Columns(Selected)
    ensures ExtractRow(row[c := text]) == ExtractRow(row)
  {
    if |row| >= RowWidth {
      UpdateOutsideSelected(row, c, text);
      ExtractRowSelectedColumnsOnly(row[c := text], row);
    }
  }

  /** A row with request and connection error counts `5` and `10` sends gauges `ereq` 5 and `econ` 10. */
  lemma ErrorCountsExample(row: Row)
    requires ExtractRow(row).Ok? && row[12] == "5" && row[13] == "10"
    ensures var gauges, px, sv := ExtractRow(row).value, Sanitize(row[0]), row[1];
      && MetricName(px, sv, "ereq") in gauges && gauges[MetricName(px, sv, "ereq")] == 5
      && MetricName(px, sv, "econ") in gauges && gauges[MetricName(px, sv, "econ")] == 10
  {
    assert NumericFields[2] == Field("econ", 13) && NumericFields[3] == Field("ereq", 12);
    ExtractRowField(row, 2);
    ExtractRowField(row, 3);
    ParseSmallCounts();
  }

  /** The two counts of `ErrorCountsExample`, converted. */
  lemma ParseSmallCounts()
    ensures ParseValue("5") == Some(5) && ParseValue("10") == Some(10)
  {
  }

  /**
   * A row whose numeric columns are all empty (as HAProxy leaves counters
   * that do not apply to a line) is sent in full, every gauge zero.
   */
  lemma BlankRowGaugesZero(row: Row)
    requires |row| >= RowWidth
    requires forall i :: 0 <= i < |NumericFields| ==> row[NumericFields[i].column] == ""
    ensures ExtractRow(row).Ok?
    ensures forall name :: name in ExtractRow(row).value ==> ExtractRow(row).value[name] == 0
  {
    ExtractRowSucceeds(row);
    ExtractRowNames(row);
    ExtractRowValues(row);
    var px, sv := Sanitize(row[0]), row[1];
    forall name | name in ExtractRow(row).value ensures ExtractRow(row).value[name] == 0 {
      var i :| 0 <= i < |NumericFields| && MetricName(px, sv, NumericFields[i].key) == name;
    }
  }
}
