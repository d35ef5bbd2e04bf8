/**
 * The payload of one outbound call: every row without its excluded columns and with
 * its keys renamed, one item per row or one combined item for all of them.
 */
module Payload {
  import opened Rows
  import opened Json
  import opened Collapse
  import opened RowIdentity

  const DEFAULT_ROWS_FIELD := "rows"

  /** The fields that may leave. */
  function Kept(data: Props, excluded: set<string>): Props {
    if data == [] then []
    else Kept(data[..|data| - 1], excluded) + (if data[|data| - 1].key in excluded then [] else [data[|data| - 1]])
  }

  /** A row as it goes out. */
  function Outgoing(row: OutRow, excluded: set<string>): OutRow {
    OutRow(row.id, CamelProps(Kept(row.data, excluded)))
  }

  function CamelKeys(keys: seq<string>): seq<string> {
    if keys == [] then [] else CamelKeys(keys[..|keys| - 1]) + [CamelKey(keys[|keys| - 1])]
  }

  ghost predicate AreOutgoing(rows: seq<OutRow>, excluded: set<string>, camel: seq<OutRow>) {
    |camel| == |rows| && forall i :: 0 <= i < |rows| ==> camel[i] == Outgoing(rows[i], excluded)
  }

  /** An item that is a row: its id, and the renamed fields that may leave. */
  ghost predicate IsItem(row: OutRow, excluded: set<string>, item: Json) {
    && item.JObj? && Get(item.props, "internal_ref") == Some(JStr(row.id))
    && forall k :: k != "internal_ref" ==> Get(item.props, k) == Get(CamelProps(Kept(row.data, excluded)), k)
  }

  // --------------------------------------------------------------- building

  method RenameRows(rows: seq<OutRow>, excluded: set<string>) returns (camel: seq<OutRow>)
    ensures AreOutgoing(rows, excluded, camel)
  {
    camel := [];
    for i := 0 to |rows|
      invariant |camel| == i && forall j :: 0 <= j < i ==> camel[j] == Outgoing(rows[j], excluded)
    {
      camel := camel + [Outgoing(rows[i], excluded)];
    }
  }

  /** The reference, and over it the fields of the row. */
  method BuildItem(row: OutRow, ghost source: OutRow, ghost excluded: set<string>) returns (item: Json)
    requires row == Outgoing(source, excluded)
    ensures IsItem(source, excluded, item)
  {
    var props := [Prop(INTERNAL_REF, JStr(row.id))];
    assert props[..0] == [];
    for n := 0 to |row.data|
      invariant forall k :: Get(props, k) == if Get(row.data[..n], k).Some? then Get(row.data[..n], k)
                                            else if k == INTERNAL_REF then Some(JStr(row.id)) else None
    {
      assert row.data[..n + 1][..n] == row.data[..n];
      Spread(props, row.data[n]);
      props := Put(props, row.data[n].key, row.data[n].value);
    }
    assert row.data[..|row.data|] == row.data;
    CamelPropsAreCamelKeyed(Kept(source.data, excluded));
    item := JObj(props);
  }

  /** The payload of a call; `collapse` holds the configured name of the rows, if calls are combined. */
  method BuildPayload(rows: seq<OutRow>, excluded: set<string>, groupBy: seq<string>, collapse: Option<string>, batchId: string)
      returns (payload: seq<Json>, ghost camel: seq<OutRow>)
    ensures AreOutgoing(rows, excluded, camel)
    ensures collapse.None? ==> |payload| == |rows| && forall i :: 0 <= i < |rows| ==> IsItem(rows[i], excluded, payload[i])
    ensures collapse.Some? ==>
              && |payload| == 1 && payload[0].JObj?
              && IsCollapsed(camel, CamelKeys(groupBy), if collapse.value != "" then collapse.value else "rows", batchId, payload[0].props)
  {
    var renamed := RenameRows(rows, excluded);
    camel := renamed;
    if collapse.Some? {
      var rowsField := if collapse.value != "" then collapse.value else DEFAULT_ROWS_FIELD;
      var item := BuildCollapsedPayloadItem(renamed, CamelKeys(groupBy), rowsField, batchId);
      return [JObj(item)], camel;
    }
    payload := [];
    for i := 0 to |renamed|
      invariant |payload| == i && forall j :: 0 <= j < i ==> IsItem(rows[j], excluded, payload[j])
    {
      var item := BuildItem(renamed[i], rows[i], excluded);
      payload := payload + [item];
    }
  }

  // -------------------------------------------------------------- main results

  lemma {:induction false} KeptHas(data: Props, excluded: set<string>, n: nat) returns (i: nat)
    requires n < |data| && data[n].key !in excluded
    ensures i < |Kept(data, excluded)| && Kept(data, excluded)[i] == data[n]
  {
    if n == |data| - 1 {
      i := |Kept(data[..n], excluded)|;
    } else {
      i := KeptHas(data[..|data| - 1], excluded, n);
    }
  }

  lemma {:induction false} KeptComesFrom(data: Props, excluded: set<string>, i: nat) returns (n: nat)
    requires i < |Kept(data, excluded)|
    ensures n < |data| && data[n] == Kept(data, excluded)[i] && data[n].key !in excluded
  {
    if i < |Kept(data[..|data| - 1], excluded)| {
      n := KeptComesFrom(data[..|data| - 1], excluded, i);
    } else {
      n := |data| - 1;
    }
  }

  /** Main result: every field that may leave goes out under its renamed key, beside the row's own reference. */
  lemma ItemCarriesField(row: OutRow, excluded: set<string>, item: Json, n: nat)
    requires IsItem(row, excluded, item) && NoMergedKeys(Kept(row.data, excluded))
    requires n < |row.data| && row.data[n].key !in excluded
    ensures Get(item.props, CamelKey(row.data[n].key)) == Some(Camel(row.data[n].value))
    ensures Get(item.props, "internal_ref") == Some(JStr(row.id))
  {
    var i := KeptHas(row.data, excluded, n);
    CamelKeepsFields(Kept(row.data, excluded), i);
    CamelKeysAreNoReferences(row.data[n].key);
  }

  /** And nothing else does: no excluded field, and no field of another row. */
  lemma ItemCarriesNothingElse(row: OutRow, excluded: set<string>, item: Json, k: string) returns (n: nat)
    requires IsItem(row, excluded, item) && k != "internal_ref" && Get(item.props, k).Some?
    ensures n < |row.data| && row.data[n].key !in excluded && CamelKey(row.data[n].key) == k
    ensures Get(item.props, k) == Some(Camel(row.data[n].value))
  {
    var i := LastOfMergedKeys(Kept(row.data, excluded), k);
    n := KeptComesFrom(row.data, excluded, i);
  }

  lemma {:induction false} CamelKeysAreCamel(keys: seq<string>)
    ensures forall k :: k in CamelKeys(keys) ==> IsCamel(k)
  {
    if keys != [] {
      CamelKeysAreCamel(keys[..|keys| - 1]);
      CamelKeyIsCamel(keys[|keys| - 1]);
    }
  }

  lemma OutgoingIsDataKeyed(rows: seq<OutRow>, excluded: set<string>, groupBy: seq<string>, camel: seq<OutRow>)
    requires AreOutgoing(rows, excluded, camel)
    ensures DataKeyed(camel, CamelKeys(groupBy))
  {
    CamelKeysAreCamel(groupBy);
    forall i | 0 <= i < |camel|
      ensures CamelKeyed(camel[i].data)
    {
      CamelPropsAreCamelKeyed(Kept(rows[i].data, excluded));
    }
  }

  /**
   * Main result: a combined item carries every field of every row that may leave, in the
   * row's line with its reference, or, for a grouping column, in the header as text.
   */
  lemma CombinedItemCarriesField(rows: seq<OutRow>, excluded: set<string>, groupBy: seq<string>, rowsField: string, batchId: string,
                                 camel: seq<OutRow>, item: Props, i: nat, n: nat)
    requires AreOutgoing(rows, excluded, camel) && IsCollapsed(camel, CamelKeys(groupBy), rowsField, batchId, item)
    requires Agree(camel, CamelKeys(groupBy)) && rowsField !in CamelKeys(groupBy)
    requires i < |rows| && NoMergedKeys(Kept(rows[i].data, excluded))
    requires n < |rows[i].data| && rows[i].data[n].key !in excluded
    ensures var line, k, v := Get(item, rowsField).value.els[i].props, CamelKey(rows[i].data[n].key), Camel(rows[i].data[n].value);
            && Get(line, "internal_ref") == Some(JStr(rows[i].id))
            && if k in CamelKeys(groupBy) then GroupText(Get(item, k)) == GroupText(Some(v)) else Get(line, k) == Some(v)
  {
    var k := CamelKey(rows[i].data[n].key);
    OutgoingIsDataKeyed(rows, excluded, groupBy, camel);
    var j := KeptHas(rows[i].data, excluded, n);
    CamelKeepsFields(Kept(rows[i].data, excluded), j);
    CamelKeysAreNoReferences(rows[i].data[n].key);
    CollapsedKeepsEveryRow(camel, CamelKeys(groupBy), rowsField, batchId, item, i, k);
    assert Get(camel[i].data, k) == Some(Camel(rows[i].data[n].value));
  }

  /** Rows that agree as text agree in value, numbers written as themselves apart. */
  lemma GroupTextReadsBack(v: Json)
    ensures v.JNum? ==> IsDecimal(GroupText(Some(v)), v.n)
    ensures v.JStr? ==> GroupText(Some(v)) == v.s
    ensures v.JBool? ==> GroupText(Some(v)) == if v.b then "true" else "false"
    ensures v.JNull? ==> GroupText(Some(v)) == "" == GroupText(None)
  {
    if v.JNum? {
      IntTextIsDecimal(v.n);
    }
  }
}
