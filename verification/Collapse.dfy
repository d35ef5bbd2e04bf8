/**
 * `buildCollapsedPayloadItem`: one payload item for a whole group, its grouping
 * columns lifted to the top and one line per row under `rowsField`.
 */
module Collapse {
  import opened Rows
  import opened Text
  import opened Json

  /** A row as it goes out: its id and its renamed data. */
  datatype OutRow = OutRow(id: string, data: Props)

  /** The first row that has the key. */
  function FirstValue(rows: seq<OutRow>, k: string): Option<Json> {
    if rows == [] then None
    else if Get(rows[0].data, k).Some? then Get(rows[0].data, k)
    else FirstValue(rows[1..], k)
  }

  /** The value of `k` at the top of the item, `rowsField` apart. */
  function HeaderValue(rows: seq<OutRow>, groupKeys: seq<string>, batchId: string, k: string): Option<Json> {
    if k in groupKeys && FirstValue(rows, k).Some? then FirstValue(rows, k)
    else if k == BATCH_REF then Some(JStr(batchId))
    else None
  }

  /** The value of `k` in a row's line. */
  function LineValue(row: OutRow, groupKeys: seq<string>, k: string): Option<Json> {
    if k !in groupKeys && Get(row.data, k).Some? then Get(row.data, k)
    else if k == INTERNAL_REF then Some(JStr(row.id))
    else None
  }

  ghost predicate IsHeader(rows: seq<OutRow>, groupKeys: seq<string>, common: Props) {
    forall k :: Get(common, k) == if k in groupKeys then FirstValue(rows, k) else None
  }

  ghost predicate IsLine(row: OutRow, groupKeys: seq<string>, line: Json) {
    line.JObj? && forall k :: Get(line.props, k) == LineValue(row, groupKeys, k)
  }

  ghost predicate AreLines(rows: seq<OutRow>, groupKeys: seq<string>, lines: seq<Json>) {
    |lines| == |rows| && forall i :: 0 <= i < |rows| ==> IsLine(rows[i], groupKeys, lines[i])
  }

  /** What the item holds, field by field. */
  ghost predicate IsCollapsed(rows: seq<OutRow>, groupKeys: seq<string>, rowsField: string, batchId: string, item: Props) {
    && Get(item, rowsField).Some? && Get(item, rowsField).value.JArr? && AreLines(rows, groupKeys, Get(item, rowsField).value.els)
    && forall k :: k != rowsField ==> Get(item, k) == HeaderValue(rows, groupKeys, batchId, k)
  }

  // ----------------------------------------------------------------- building

  method LiftHeader(rows: seq<OutRow>, groupKeys: seq<string>) returns (common: Props)
    ensures IsHeader(rows, groupKeys, common)
  {
    common := [];
    for g := 0 to |groupKeys|
      invariant IsHeader(rows, groupKeys[..g], common)
    {
      var key := groupKeys[g];
      assert groupKeys[..g + 1] == groupKeys[..g] + [key];
      var i := 0;
      while i < |rows| && Get(rows[i].data, key).None?
        invariant i <= |rows| && FirstValue(rows, key) == FirstValue(rows[i..], key)
      {
        assert rows[i..][1..] == rows[i + 1..];
        i := i + 1;
      }
      if i < |rows| {
        var value := Get(rows[i].data, key).value;
        HeaderMore(rows, groupKeys[..g], common, key, value);
        common := Put(common, key, value);
      }
    }
    assert groupKeys[..|groupKeys|] == groupKeys;
  }

  lemma HeaderMore(rows: seq<OutRow>, groupKeys: seq<string>, common: Props, key: string, value: Json)
    requires IsHeader(rows, groupKeys, common) && FirstValue(rows, key) == Some(value)
    ensures IsHeader(rows, groupKeys + [key], Put(common, key, value))
  {
    forall k
      ensures Get(Put(common, key, value), k) == if k in groupKeys + [key] then FirstValue(rows, k) else None
    {
      GetPut(common, key, value, k);
    }
  }

  /** A line with the first `n` of the row's properties copied. */
  ghost predicate LineSoFar(row: OutRow, groupKeys: seq<string>, n: nat, line: Props)
    requires n <= |row.data|
  {
    forall k :: Get(line, k) == LineValue(row.(data := row.data[..n]), groupKeys, k)
  }

  lemma LineMore(row: OutRow, groupKeys: seq<string>, n: nat, line: Props)
    requires n < |row.data| && LineSoFar(row, groupKeys, n, line)
    ensures var p := row.data[n];
            LineSoFar(row, groupKeys, n + 1, if p.key in groupKeys then line else Put(line, p.key, p.value))
  {
    var p := row.data[n];
    var more := if p.key in groupKeys then line else Put(line, p.key, p.value);
    assert row.data[..n + 1][..n] == row.data[..n];
    forall k
      ensures Get(more, k) == LineValue(row.(data := row.data[..n + 1]), groupKeys, k)
    {
      GetPut(line, p.key, p.value, k);
    }
  }

  method BuildLine(row: OutRow, groupKeys: seq<string>) returns (line: Json)
    ensures IsLine(row, groupKeys, line)
  {
    var props := [Prop(INTERNAL_REF, JStr(row.id))];
    assert props[..0] == [];
    for n := 0 to |row.data|
      invariant LineSoFar(row, groupKeys, n, props)
    {
      var p := row.data[n];
      LineMore(row, groupKeys, n, props);
      if p.key !in groupKeys {
        props := Put(props, p.key, p.value);
      }
    }
    assert row.data[..|row.data|] == row.data;
    line := JObj(props);
  }

  method BuildCollapsedPayloadItem(rows: seq<OutRow>, groupKeys: seq<string>, rowsField: string, batchId: string) returns (item: Props)
    ensures IsCollapsed(rows, groupKeys, rowsField, batchId, item)
  {
    var common := LiftHeader(rows, groupKeys);
    var lines: seq<Json> := [];
    for i := 0 to |rows|
      invariant |lines| == i && forall j :: 0 <= j < i ==> IsLine(rows[j], groupKeys, lines[j])
    {
      var line := BuildLine(rows[i], groupKeys);
      lines := lines + [line];
    }
    item := [Prop(BATCH_REF, JStr(batchId))];
    assert item[..0] == [];
    for i := 0 to |common|
      invariant forall k :: Get(item, k) == if Get(common[..i], k).Some? then Get(common[..i], k)
                                           else if k == BATCH_REF then Some(JStr(batchId)) else None
    {
      assert common[..i + 1][..i] == common[..i];
      Spread(item, common[i]);
      item := Put(item, common[i].key, common[i].value);
    }
    assert common[..|common|] == common;
    Spread(item, Prop(rowsField, JArr(lines)));
    item := Put(item, rowsField, JArr(lines));
  }

  lemma Spread(o: Props, p: Prop)
    ensures forall k :: Get(Put(o, p.key, p.value), k) == if k == p.key then Some(p.value) else Get(o, k)
  {
    forall k
      ensures Get(Put(o, p.key, p.value), k) == if k == p.key then Some(p.value) else Get(o, k)
    {
      GetPut(o, p.key, p.value, k);
    }
  }

  // -------------------------------------------------------------- main results

  /** A grouping value as the group id is made from it. */
  function GroupText(v: Option<Json>): string {
    match v
    case None => ""
    case Some(JNull) => ""
    case Some(JBool(b)) => if b then "true" else "false"
    case Some(JNum(n)) => IntText(n)
    case Some(JStr(s)) => s
    case Some(_) => "[object]"
  }

  /** The rows share one value, as text, in each grouping column. */
  predicate Agree(rows: seq<OutRow>, groupKeys: seq<string>) {
    forall k, i, j :: k in groupKeys && 0 <= i < |rows| && 0 <= j < |rows| ==>
      GroupText(Get(rows[i].data, k)) == GroupText(Get(rows[j].data, k))
  }

  ghost predicate DataKeyed(rows: seq<OutRow>, groupKeys: seq<string>) {
    && (forall i :: 0 <= i < |rows| ==> CamelKeyed(rows[i].data))
    && (forall k :: k in groupKeys ==> IsCamel(k))
  }

  lemma {:induction false} FirstValueIsARows(rows: seq<OutRow>, k: string)
    ensures FirstValue(rows, k).Some? ==> exists i :: 0 <= i < |rows| && Get(rows[i].data, k) == FirstValue(rows, k)
    ensures FirstValue(rows, k).None? ==> forall i :: 0 <= i < |rows| ==> Get(rows[i].data, k).None?
  {
    if rows != [] {
      FirstValueIsARows(rows[1..], k);
      if Get(rows[0].data, k).None? && FirstValue(rows[1..], k).Some? {
        var i :| 0 <= i < |rows[1..]| && Get(rows[1..][i].data, k) == FirstValue(rows[1..], k);
        assert rows[i + 1] == rows[1..][i];
      }
      assert forall i :: 1 <= i < |rows| ==> rows[i] == rows[1..][i - 1];
    }
  }

  lemma ReferencesAreNotCamel()
    ensures !IsCamel(INTERNAL_REF) && !IsCamel(BATCH_REF)
  {
    assert INTERNAL_REF[8] == '_' && INTERNAL_REF[9] == 'r';
    assert BATCH_REF[5] == '_' && BATCH_REF[6] == 'r';
  }

  /**
   * Main result: nothing of a row is lost. Each field outside the grouping columns
   * stands in the row's line, each grouping column stands in the header with the
   * row's value as text, and the references are ours.
   */
  lemma CollapsedKeepsEveryRow(rows: seq<OutRow>, groupKeys: seq<string>, rowsField: string, batchId: string, item: Props,
                                i: nat, k: string)
    requires IsCollapsed(rows, groupKeys, rowsField, batchId, item) && DataKeyed(rows, groupKeys) && Agree(rows, groupKeys)
    requires i < |rows| && rowsField !in groupKeys
    ensures var line := Get(item, rowsField).value.els[i].props;
            && Get(line, INTERNAL_REF) == Some(JStr(rows[i].id))
            && (rowsField != BATCH_REF ==> Get(item, BATCH_REF) == Some(JStr(batchId)))
            && if k in groupKeys then GroupText(Get(item, k)) == GroupText(Get(rows[i].data, k))
               else k != INTERNAL_REF ==> Get(line, k) == Get(rows[i].data, k)
  {
    ReferencesAreNotCamel();
    assert IsLine(rows[i], groupKeys, Get(item, rowsField).value.els[i]);
    FirstValueIsARows(rows, k);
    assert FirstValue(rows, BATCH_REF).None? || BATCH_REF !in groupKeys;
  }
}
