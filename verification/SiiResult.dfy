/** `mapVendorResult`: a vendor callback normalised into results per row and per batch. */
module SiiResult {
  import opened Rows
  import opened Chunks
  import opened Text
  import opened Json
  import opened Collapse

  /** A vendor result for a row (`ref` is its id) or for a whole batch (`ref` is its batch id). */
  datatype VendorResult = VendorResult(ref: string, status: string, errorCode: Option<string>, errorMessage: Option<string>, raw: Json)

  datatype Mapped = Mapped(lineItems: seq<VendorResult>, batchItems: seq<VendorResult>)

  const UNKNOWN := "unknown"

  // ------------------------------------------------------------- reading JSON

  /** An object or an array; arrays have no named properties. */
  predicate IsObject(j: Json) {
    j.JObj? || j.JArr?
  }

  function Field(j: Json, k: string): Option<Json> {
    if j.JObj? then Get(j.props, k) else None
  }

  /** `Object.values`. */
  function Values(j: Json): seq<Json> {
    match j
    case JObj(props) => PropValues(props)
    case JArr(els) => els
    case _ => []
  }

  function PropValues(props: Props): seq<Json> {
    if props == [] then [] else PropValues(props[..|props| - 1]) + [props[|props| - 1].value]
  }

  /** A property that is a non-empty string. */
  function TextField(j: Json, k: string): Option<string> {
    match Field(j, k)
    case Some(JStr(s)) => if s != "" then Some(s) else None
    case _ => None
  }

  /** `String(v)`. */
  function Rendered(j: Json): string {
    match j
    case JNull => "null"
    case JBool(b) => if b then "true" else "false"
    case JNum(n) => IntText(n)
    case JStr(s) => s
    case JArr(els) => RenderedAll(els)
    case JObj(_) => "[object Object]"
  }

  function RenderedAll(els: seq<Json>): string {
    if els == [] then ""
    else
      var last := els[|els| - 1];
      (if |els| == 1 then "" else RenderedAll(els[..|els| - 1]) + ",") + (if last.JNull? then "" else Rendered(last))
  }

  /** A reference that is neither null nor empty. */
  function RefField(j: Json, k: string): Option<string> {
    match Field(j, k)
    case Some(JNull) => None
    case Some(JStr("")) => None
    case Some(v) => Some(Rendered(v))
    case None => None
  }

  /** A non-empty array of objects that all carry `internal_ref`. */
  predicate AreRows(j: Json) {
    j.JArr? && j.els != [] && forall el :: el in j.els ==> Field(el, INTERNAL_REF).Some?
  }

  function FirstRows(values: seq<Json>): Option<seq<Json>> {
    if values == [] then None
    else if AreRows(values[0]) then Some(values[0].els)
    else FirstRows(values[1..])
  }

  // --------------------------------------------------------- what it should be

  function Own(own: Option<string>, parent: Option<string>): Option<string> {
    if own.Some? then own else parent
  }

  /** The result of one nested row: what it lacks it takes from its parent. */
  function NestedResult(obj: Json, el: Json): seq<VendorResult> {
    match RefField(el, INTERNAL_REF)
    case None => []
    case Some(ref) =>
      [VendorResult(ref, Own(TextField(el, "state"), TextField(obj, "state")).GetOr(UNKNOWN),
                    Own(TextField(el, "errorCode"), TextField(obj, "errorCode")),
                    Own(TextField(el, "errorMessage"), TextField(obj, "errorMessage")), el)]
  }

  function NestedResults(obj: Json, els: seq<Json>): seq<VendorResult> {
    if els == [] then [] else NestedResults(obj, els[..|els| - 1]) + NestedResult(obj, els[|els| - 1])
  }

  function FlatResult(obj: Json, ref: string): VendorResult {
    VendorResult(ref, TextField(obj, "state").GetOr(UNKNOWN), TextField(obj, "errorCode"), TextField(obj, "errorMessage"), obj)
  }

  /** What one top-level item contributes: row results, or one batch result, or nothing. */
  function ItemResult(obj: Json): Mapped {
    if !IsObject(obj) then Mapped([], [])
    else
      match FirstRows(Values(obj))
      case Some(els) => Mapped(NestedResults(obj, els), [])
      case None =>
        match (RefField(obj, INTERNAL_REF), RefField(obj, BATCH_REF))
        case (Some(ref), _) => Mapped([FlatResult(obj, ref)], [])
        case (None, Some(ref)) => Mapped([], [FlatResult(obj, ref)])
        case (None, None) => Mapped([], [])
  }

  function ItemResults(items: seq<Json>): Mapped {
    if items == [] then Mapped([], [])
    else
      var before, one := ItemResults(items[..|items| - 1]), ItemResult(items[|items| - 1]);
      Mapped(before.lineItems + one.lineItems, before.batchItems + one.batchItems)
  }

  function ItemsOf(payload: Json): seq<Json> {
    if payload.JArr? then payload.els else [payload]
  }

  // ----------------------------------------------------------------- the loops

  method FindNestedRows(obj: Json) returns (r: Option<seq<Json>>)
    ensures r == FirstRows(Values(obj))
  {
    var values := Values(obj);
    for i := 0 to |values|
      invariant FirstRows(values) == FirstRows(values[i..])
    {
      assert values[i..][0] == values[i] && values[i..][1..] == values[i + 1..];
      if AreRows(values[i]) {
        return Some(values[i].els);
      }
    }
    return None;
  }

  lemma OneItemMore(items: seq<Json>, i: nat)
    requires i < |items|
    ensures ItemResults(items[..i + 1]).lineItems == ItemResults(items[..i]).lineItems + ItemResult(items[i]).lineItems
    ensures ItemResults(items[..i + 1]).batchItems == ItemResults(items[..i]).batchItems + ItemResult(items[i]).batchItems
  {
    assert items[..i + 1][..i] == items[..i];
  }

  method MapVendorResult(payload: Json) returns (r: Mapped)
    ensures r == ItemResults(ItemsOf(payload))
    ensures r == ItemResults(if payload.JArr? then payload.els else [payload])
  {
    var items := ItemsOf(payload);
    var lineItems: seq<VendorResult> := [];
    var batchItems: seq<VendorResult> := [];
    for i := 0 to |items|
      invariant Mapped(lineItems, batchItems) == ItemResults(items[..i])
    {
      var obj := items[i];
      OneItemMore(items, i);
      if !IsObject(obj) {
        continue;
      }
      var nested := FindNestedRows(obj);
      if nested.Some? {
        var more := MapNested(obj, nested.value);
        lineItems := lineItems + more;
        continue;
      }
      var internalRef := RefField(obj, INTERNAL_REF);
      if internalRef.Some? {
        lineItems := lineItems + [FlatResult(obj, internalRef.value)];
        continue;
      }
      var batchRef := RefField(obj, BATCH_REF);
      if batchRef.Some? {
        batchItems := batchItems + [FlatResult(obj, batchRef.value)];
      }
    }
    assert items[..|items|] == items;
    r := Mapped(lineItems, batchItems);
  }

  method MapNested(obj: Json, els: seq<Json>) returns (lineItems: seq<VendorResult>)
    ensures lineItems == NestedResults(obj, els)
  {
    lineItems := [];
    for j := 0 to |els|
      invariant lineItems == NestedResults(obj, els[..j])
    {
      assert els[..j + 1][..j] == els[..j];
      var el := els[j];
      var internalRef := RefField(el, INTERNAL_REF);
      if internalRef.None? {
        continue;
      }
      lineItems := lineItems + [VendorResult(internalRef.value,
        Own(TextField(el, "state"), TextField(obj, "state")).GetOr(UNKNOWN),
        Own(TextField(el, "errorCode"), TextField(obj, "errorCode")),
        Own(TextField(el, "errorMessage"), TextField(obj, "errorMessage")), el)];
    }
    assert els[..|els|] == els;
  }

  // -------------------------------------------------------------- main results

  /**
   * A vendor's answer to a collapsed item: the lines come back in order with their
   * references, and no other array of the item looks like rows.
   */
  ghost predicate Echoes(item: Props, rowsField: string, echo: Json) {
    && echo.JObj?
    && Get(item, rowsField).Some? && Get(item, rowsField).value.JArr?
    && (exists p :: 0 <= p < |echo.props| && echo.props[p].key == rowsField
                  && EchoesLines(Get(item, rowsField).value.els, echo.props[p].value))
    && (forall p :: 0 <= p < |echo.props| && echo.props[p].key != rowsField ==> !AreRows(echo.props[p].value))
    && (forall p, q :: 0 <= p < q < |echo.props| ==> echo.props[p].key != echo.props[q].key)
  }

  ghost predicate EchoesLines(lines: seq<Json>, echo: Json) {
    && echo.JArr? && |echo.els| == |lines|
    && forall i :: 0 <= i < |lines| ==>
         Field(lines[i], INTERNAL_REF).Some? ==> Field(echo.els[i], INTERNAL_REF) == Field(lines[i], INTERNAL_REF)
  }

  lemma {:induction false} OnlyRows(values: seq<Json>, p: nat)
    requires p < |values| && AreRows(values[p]) && forall q :: 0 <= q < |values| && q != p ==> !AreRows(values[q])
    ensures FirstRows(values) == Some(values[p].els)
  {
    if p > 0 {
      assert values[1..][p - 1] == values[p];
      OnlyRows(values[1..], p - 1);
    }
  }

  lemma {:induction false} PropValuesAt(props: Props)
    ensures |PropValues(props)| == |props| && forall p :: 0 <= p < |props| ==> PropValues(props)[p] == props[p].value
  {
    if props != [] {
      PropValuesAt(props[..|props| - 1]);
    }
  }

  /** The result of each nested row, when they all have a reference. */
  lemma {:induction false} NestedInOrder(obj: Json, els: seq<Json>)
    requires forall i :: 0 <= i < |els| ==> RefField(els[i], INTERNAL_REF).Some?
    ensures |NestedResults(obj, els)| == |els|
    ensures forall i :: 0 <= i < |els| ==> [NestedResults(obj, els)[i]] == NestedResult(obj, els[i])
  {
    if els != [] {
      NestedInOrder(obj, els[..|els| - 1]);
    }
  }

  /** The lines of a collapsed item carry the row ids. */
  lemma LineReferences(rows: seq<OutRow>, groupKeys: seq<string>, lines: seq<Json>, i: nat)
    requires AreLines(rows, groupKeys, lines) && DataKeyed(rows, groupKeys) && i < |rows|
    ensures Field(lines[i], INTERNAL_REF) == Some(JStr(rows[i].id))
  {
    ReferencesAreNotCamel();
    assert IsLine(rows[i], groupKeys, lines[i]);
  }

  /** The rows that come back are found, whatever else the answer holds. */
  lemma EchoIsFound(rows: seq<OutRow>, groupKeys: seq<string>, rowsField: string, batchId: string, item: Props, echo: Json)
      returns (els: seq<Json>)
    requires rows != [] && (forall i :: 0 <= i < |rows| ==> rows[i].id != "")
    requires IsCollapsed(rows, groupKeys, rowsField, batchId, item) && DataKeyed(rows, groupKeys) && Echoes(item, rowsField, echo)
    ensures FirstRows(Values(echo)) == Some(els) && |els| == |rows|
    ensures forall i :: 0 <= i < |rows| ==> Field(els[i], INTERNAL_REF) == Some(JStr(rows[i].id))
  {
    var lines := Get(item, rowsField).value.els;
    var p :| 0 <= p < |echo.props| && echo.props[p].key == rowsField && EchoesLines(lines, echo.props[p].value);
    els := echo.props[p].value.els;
    forall i | 0 <= i < |rows|
      ensures Field(els[i], INTERNAL_REF) == Some(JStr(rows[i].id))
    {
      LineReferences(rows, groupKeys, lines, i);
    }
    PropValuesAt(echo.props);
    OnlyRows(PropValues(echo.props), p);
  }

  lemma ResultOfEcho(echo: Json, els: seq<Json>)
    requires echo.JObj? && FirstRows(Values(echo)) == Some(els)
    ensures ItemResult(echo) == Mapped(NestedResults(echo, els), [])
  {
  }

  /** The result `x` of a line: its own status, else the answer's, else "unknown". */
  predicate IsLineResult(echo: Json, id: string, x: VendorResult) {
    && x.ref == id && Field(x.raw, INTERNAL_REF) == Some(JStr(id))
    && (match (TextField(x.raw, "state"), TextField(echo, "state"))
        case (Some(own), _) => x.status == own
        case (None, Some(parent)) => x.status == parent
        case (None, None) => x.status == UNKNOWN)
    && (TextField(x.raw, "errorCode").Some? ==> x.errorCode == TextField(x.raw, "errorCode"))
    && (TextField(x.raw, "errorCode").None? ==> x.errorCode == TextField(echo, "errorCode"))
    && (TextField(x.raw, "errorMessage").Some? ==> x.errorMessage == TextField(x.raw, "errorMessage"))
    && (TextField(x.raw, "errorMessage").None? ==> x.errorMessage == TextField(echo, "errorMessage"))
  }

  lemma NestedIsLineResult(echo: Json, el: Json, id: string, x: VendorResult)
    requires id != "" && Field(el, INTERNAL_REF) == Some(JStr(id)) && [x] == NestedResult(echo, el)
    ensures IsLineResult(echo, id, x)
  {
    assert RefField(el, INTERNAL_REF) == Some(id);
  }

  /**
   * Main result: the vendor's answer to a collapsed item gives one result per row,
   * in row order, with the line's own status, else the item's, else "unknown", and
   * no batch result.
   */
  lemma EchoGivesOneResultPerRow(rows: seq<OutRow>, groupKeys: seq<string>, rowsField: string, batchId: string, item: Props, echo: Json)
    requires rows != [] && (forall i :: 0 <= i < |rows| ==> rows[i].id != "")
    requires IsCollapsed(rows, groupKeys, rowsField, batchId, item) && DataKeyed(rows, groupKeys) && Echoes(item, rowsField, echo)
    ensures var r := ItemResult(echo);
            && r.batchItems == [] && |r.lineItems| == |rows|
            && forall i :: 0 <= i < |rows| ==> IsLineResult(echo, rows[i].id, r.lineItems[i])
  {
    var els := EchoIsFound(rows, groupKeys, rowsField, batchId, item, echo);
    NestedInOrder(echo, els);
    ResultOfEcho(echo, els);
    forall i | 0 <= i < |rows|
      ensures IsLineResult(echo, rows[i].id, NestedResults(echo, els)[i])
    {
      NestedIsLineResult(echo, els[i], rows[i].id, NestedResults(echo, els)[i]);
    }
  }

  lemma ResultsSnoc(items: seq<Json>, x: Json)
    ensures ItemResults(items + [x]).lineItems == ItemResults(items).lineItems + ItemResult(x).lineItems
    ensures ItemResults(items + [x]).batchItems == ItemResults(items).batchItems + ItemResult(x).batchItems
  {
    assert (items + [x])[..|items|] == items;
  }

  /** A payload of several answers is mapped answer by answer. */
  lemma {:induction false} ResultsConcat(a: seq<Json>, b: seq<Json>)
    ensures ItemResults(a + b).lineItems == ItemResults(a).lineItems + ItemResults(b).lineItems
    ensures ItemResults(a + b).batchItems == ItemResults(a).batchItems + ItemResults(b).batchItems
  {
    if b == [] {
      assert a + b == a;
    } else {
      var before, x := b[..|b| - 1], b[|b| - 1];
      ResultsConcat(a, before);
      Assoc(a, before, [x]);
      assert b == before + [x];
      ResultsSnoc(a + before, x);
      Assoc(ItemResults(a).lineItems, ItemResults(before).lineItems, ItemResult(x).lineItems);
      Assoc(ItemResults(a).batchItems, ItemResults(before).batchItems, ItemResult(x).batchItems);
    }
  }

  /** No item is answered both by row and by batch, and none by more than one batch result. */
  lemma ItemsAnswerOneWay(obj: Json)
    ensures ItemResult(obj).lineItems == [] || ItemResult(obj).batchItems == []
    ensures |ItemResult(obj).batchItems| <= 1
    ensures forall x :: x in ItemResult(obj).batchItems ==> RefField(obj, INTERNAL_REF).None? && RefField(obj, BATCH_REF) == Some(x.ref)
  {
  }
}
