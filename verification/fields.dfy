/**
 * The columns of the HAProxy 1.5 CSV statistics report that the emitter
 * reads, as one declarative table of (key, 0-based column) pairs.
 */
module Fields {

  /** A 0-based position within a row the emitter can read. */
  type ColumnIndex = c: nat | c < RowWidth

  /** One selected column: the key it is stored under and its position in a row. */
  datatype Field = Field(key: string, column: ColumnIndex)

  /** Proxy (frontend/backend) name. */
  const PxName: Field := Field("pxname", 0)

  /** Server name within the proxy. */
  const SvName: Field := Field("svname", 1)

  /**
   * The sixteen numeric columns forwarded as gauges. The source keeps them
   * in a map, so their order carries no meaning; they are listed by
   * ascending `Signature`, which lets key distinctness be checked on
   * neighbours only.
   */
  const NumericFields: seq<Field> := [
    Field("bin", 8),
    Field("bout", 9), Field("econ", 13), Field("ereq", 12), Field("rate", 33),
    Field("scur", 4), Field("smax", 5),
    Field("ctime", 59), Field("qtime", 58), Field("rtime", 60), Field("ttime", 61),
    Field("hrsp_1xx", 39), Field("hrsp_2xx", 40), Field("hrsp_3xx", 41),
    Field("hrsp_4xx", 42), Field("hrsp_5xx", 43)
  ]

  /** Every column the emitter reads. */
  const Selected: seq<Field> := [PxName, SvName] + NumericFields

  /** A row must have this many fields: `ttime`, at column 61, is the highest index read. */
  const RowWidth: nat := 62

  /** The keys of a table. */
  function Keys(fields: seq<Field>): set<string> {
    set i | 0 <= i < |fields| :: fields[i].key
  }

  /** The columns of a table. */
  function Columns(fields: seq<Field>): set<nat> {
    set i | 0 <= i < |fields| :: fields[i].column
  }

  predicate DistinctKeys(fields: seq<Field>) {
    forall i, j :: 0 <= i < j < |fields| ==> fields[i].key != fields[j].key
  }

  /**
   * A number computed from a key's length and its characters at positions
   * 0, 1 and 5. Equal keys have equal signatures, so keys whose signatures
   * differ are different.
   */
  function Signature(key: string): nat {
    var c0 := if |key| > 0 then key[0] as nat else 0;
    var c1 := if |key| > 1 then key[1] as nat else 0;
    var c5 := if |key| > 5 then key[5] as nat else 0;
    ((|key| * 0x11_0000 + c0) * 0x11_0000 + c1) * 0x11_0000 + c5
  }

  /** Neighbouring keys have strictly increasing signatures. */
  predicate Ascending(fields: seq<Field>) {
    forall i :: 0 < i < |fields| ==> Signature(fields[i - 1].key) < Signature(fields[i].key)
  }

  lemma {:induction false} AscendingBelow(fields: seq<Field>, i: nat, j: nat)
    requires Ascending(fields) && i < j < |fields|
    ensures Signature(fields[i].key) < Signature(fields[j].key)
    decreases j - i
  {
    if i + 1 < j {
      AscendingBelow(fields, i, j - 1);
    }
  }

  /** A table listed by ascending signature has no key twice. */
  lemma {:induction false} AscendingDistinct(fields: seq<Field>)
    requires Ascending(fields)
    ensures DistinctKeys(fields)
  {
    forall i, j | 0 <= i < j < |fields| ensures fields[i].key != fields[j].key {
      AscendingBelow(fields, i, j);
    }
  }

  /** Keys are spelt with lower-case letters, digits and `_` only. */
  predicate PlainKey(key: string) {
    forall i :: 0 <= i < |key| ==> 'a' <= key[i] <= 'z' || '0' <= key[i] <= '9' || key[i] == '_'
  }

  // Facts about the table, checked by evaluating it.

  lemma NumericFieldsCount()
    ensures |NumericFields| == 16 && |Selected| == 18
  {
  }

  lemma NumericFieldsAscending()
    ensures Ascending(NumericFields)
  {
    // One comparison per neighbouring pair, so that the solver does not search over index pairs.
    assert Signature(NumericFields[0].key) < Signature(NumericFields[1].key);
    assert Signature(NumericFields[1].key) < Signature(NumericFields[2].key);
    assert Signature(NumericFields[2].key) < Signature(NumericFields[3].key);
    assert Signature(NumericFields[3].key) < Signature(NumericFields[4].key);
    assert Signature(NumericFields[4].key) < Signature(NumericFields[5].key);
    assert Signature(NumericFields[5].key) < Signature(NumericFields[6].key);
    assert Signature(NumericFields[6].key) < Signature(NumericFields[7].key);
    assert Signature(NumericFields[7].key) < Signature(NumericFields[8].key);
    assert Signature(NumericFields[8].key) < Signature(NumericFields[9].key);
    assert Signature(NumericFields[9].key) < Signature(NumericFields[10].key);
    assert Signature(NumericFields[10].key) < Signature(NumericFields[11].key);
    assert Signature(NumericFields[11].key) < Signature(NumericFields[12].key);
    assert Signature(NumericFields[12].key) < Signature(NumericFields[13].key);
    assert Signature(NumericFields[13].key) < Signature(NumericFields[14].key);
    assert Signature(NumericFields[14].key) < Signature(NumericFields[15].key);
  }

  /** `RowWidth` is no larger than needed: the last column of a row is read. */
  lemma RowWidthTight()
    ensures exists i :: 0 <= i < |Selected| && Selected[i].column == RowWidth - 1
  {
    assert Selected[12].column == RowWidth - 1;
  }

  /** The identifier keys are not among the numeric keys. */
  lemma IdentifierKeysNotNumeric()
    ensures forall i :: 0 <= i < |NumericFields| ==>
      NumericFields[i].key != PxName.key && NumericFields[i].key != SvName.key
  {
  }

  /** No key is selected twice, so no gauge overwrites another. */
  lemma SelectedKeysDistinct()
    ensures DistinctKeys(Selected) && DistinctKeys(NumericFields)
  {
    NumericFieldsAscending();
    AscendingDistinct(NumericFields);
    IdentifierKeysNotNumeric();
    forall i, j | 0 <= i < j < |Selected| ensures Selected[i].key != Selected[j].key {
      if 2 <= i {
        assert Selected[i] == NumericFields[i - 2] && Selected[j] == NumericFields[j - 2];
      } else if j >= 2 {
        assert Selected[j] == NumericFields[j - 2];
      }
    }
  }

  lemma NumericKeysPlain()
    ensures forall k :: 0 <= k < |NumericFields| ==> PlainKey(NumericFields[k].key)
  {
  }

  /**
   * The selected (key, column) pairs, spelt out in the order the source
   * stores them.
   */
  lemma SelectedPairsSpelled()
    ensures (set i | 0 <= i < |Selected| :: (Selected[i].key, Selected[i].column as nat)) == {
      ("pxname", 0), ("svname", 1), ("scur", 4), ("smax", 5), ("bin", 8), ("bout", 9),
      ("ereq", 12), ("econ", 13), ("rate", 33),
      ("hrsp_1xx", 39), ("hrsp_2xx", 40), ("hrsp_3xx", 41), ("hrsp_4xx", 42), ("hrsp_5xx", 43),
      ("qtime", 58), ("ctime", 59), ("rtime", 60), ("ttime", 61)}
  {
    assert Selected[0] == Field("pxname", 0);
    assert Selected[1] == Field("svname", 1);
    assert Selected[2] == Field("bin", 8);
    assert Selected[3] == Field("bout", 9);
    assert Selected[4] == Field("econ", 13);
    assert Selected[5] == Field("ereq", 12);
    assert Selected[6] == Field("rate", 33);
    assert Selected[7] == Field("scur", 4);
    assert Selected[8] == Field("smax", 5);
    assert Selected[9] == Field("ctime", 59);
    assert Selected[10] == Field("qtime", 58);
    assert Selected[11] == Field("rtime", 60);
    assert Selected[12] == Field("ttime", 61);
    assert Selected[13] == Field("hrsp_1xx", 39);
    assert Selected[14] == Field("hrsp_2xx", 40);
    assert Selected[15] == Field("hrsp_3xx", 41);
    assert Selected[16] == Field("hrsp_4xx", 42);
    assert Selected[17] == Field("hrsp_5xx", 43);
  }
}
