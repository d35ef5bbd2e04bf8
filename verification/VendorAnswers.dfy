/** What the callback mapper makes of a vendor's answer, told from the answer itself. */
module VendorAnswers {
  import opened Rows
  import opened Text
  import opened Json
  import opened SiiResult

  /** The value of a field that is a non-empty text; anything else counts as absent. */
  predicate SaysText(j: Json, k: string, o: Option<string>) {
    if j.JObj? && Get(j.props, k).Some? && Get(j.props, k).value.JStr? && Get(j.props, k).value.s != ""
    then o == Some(Get(j.props, k).value.s) else o.None?
  }

  /** The field refers to something: it is there, not null, and not the empty text. */
  predicate Refers(j: Json, k: string) {
    j.JObj? && Get(j.props, k).Some? && Get(j.props, k).value != JNull && Get(j.props, k).value != JStr("")
  }

  /** The reference as text. */
  predicate RefersTo(j: Json, k: string, ref: string) {
    Refers(j, k) &&
    match Get(j.props, k).value
    case JStr(s) => ref == s
    case JNum(n) => ref == IntText(n)
    case JBool(b) => ref == if b then "true" else "false"
    case _ => true
  }

  /** A list of objects, not empty, that all have an `internal_ref`, even an empty one. */
  predicate IsRowList(j: Json) {
    j.JArr? && j.els != [] && forall i :: 0 <= i < |j.els| ==> j.els[i].JObj? && Get(j.els[i].props, "internal_ref").Some?
  }

  /** No property of the object lists rows. */
  predicate IsFlat(obj: Json) {
    obj.JObj? && forall i :: 0 <= i < |obj.props| ==> !IsRowList(obj.props[i].value)
  }

  /** What the object itself says: its non-empty `state`, else "unknown", its own error, and itself in full. */
  ghost predicate SaysOfItself(obj: Json, x: VendorResult) {
    && x.raw == obj && SaysText(obj, "errorCode", x.errorCode) && SaysText(obj, "errorMessage", x.errorMessage)
    && (SaysText(obj, "state", Some(x.status)) || (SaysText(obj, "state", None) && x.status == "unknown"))
  }

  lemma {:induction false} FlatHasNoRows(props: Props)
    requires forall i :: 0 <= i < |props| ==> !IsRowList(props[i].value)
    ensures FirstRows(PropValues(props)) == None
  {
    PropValuesAt(props);
    NoRowsIn(PropValues(props));
  }

  lemma {:induction false} NoRowsIn(values: seq<Json>)
    requires forall i :: 0 <= i < |values| ==> !IsRowList(values[i])
    ensures FirstRows(values) == None
  {
    if values != [] {
      RowListsAreRows(values[0]);
      NoRowsIn(values[1..]);
    }
  }

  lemma RowListsAreRows(j: Json)
    ensures AreRows(j) <==> IsRowList(j)
  {
    if j.JArr? {
      assert forall i :: 0 <= i < |j.els| ==> j.els[i] in j.els;
    }
  }

  lemma OneItem(obj: Json)
    requires obj.JObj?
    ensures ItemsOf(obj) == [obj] && ItemResults([obj]) == ItemResult(obj)
  {
    assert [obj][..0] == [];
  }

  /**
   * Main result: an answer without nested rows gives one row result when it refers to a
   * row, else one batch result when it refers to a batch, else nothing.
   */
  lemma FlatAnswer(obj: Json) returns (x: VendorResult)
    requires IsFlat(obj)
    ensures SaysOfItself(obj, x)
    ensures Refers(obj, "internal_ref") ==> RefersTo(obj, "internal_ref", x.ref) && ItemResults(ItemsOf(obj)) == Mapped([x], [])
    ensures !Refers(obj, "internal_ref") && Refers(obj, "batch_ref") ==>
              RefersTo(obj, "batch_ref", x.ref) && ItemResults(ItemsOf(obj)) == Mapped([], [x])
    ensures !Refers(obj, "internal_ref") && !Refers(obj, "batch_ref") ==> ItemResults(ItemsOf(obj)) == Mapped([], [])
  {
    OneItem(obj);
    FlatHasNoRows(obj.props);
    x := FlatResult(obj, RefField(obj, INTERNAL_REF).GetOr(RefField(obj, BATCH_REF).GetOr("")));
  }

  // ------------------------------------------------------------ nested rows

  /** The nested rows that refer to something, in order. */
  function Referring(els: seq<Json>): seq<Json> {
    if els == [] then []
    else Referring(els[..|els| - 1]) + (if Refers(els[|els| - 1], "internal_ref") then [els[|els| - 1]] else [])
  }

  /** What a nested row says, its parent speaking where it is silent. */
  ghost predicate SaysWithin(obj: Json, el: Json, x: VendorResult) {
    && x.raw == el && RefersTo(el, "internal_ref", x.ref)
    && SaysFirst(obj, el, "errorCode", x.errorCode) && SaysFirst(obj, el, "errorMessage", x.errorMessage)
    && (SaysFirst(obj, el, "state", Some(x.status)) || (SaysFirst(obj, el, "state", None) && x.status == "unknown"))
  }

  predicate SaysFirst(obj: Json, el: Json, k: string, o: Option<string>) {
    if SaysText(el, k, None) then SaysText(obj, k, o) else SaysText(el, k, o)
  }

  lemma NestedSays(obj: Json, el: Json)
    ensures !Refers(el, "internal_ref") ==> NestedResult(obj, el) == []
    ensures Refers(el, "internal_ref") ==> |NestedResult(obj, el)| == 1 && SaysWithin(obj, el, NestedResult(obj, el)[0])
  {
  }

  lemma {:induction false} NestedSayInOrder(obj: Json, els: seq<Json>)
    ensures |NestedResults(obj, els)| == |Referring(els)|
    ensures forall i :: 0 <= i < |Referring(els)| ==> SaysWithin(obj, Referring(els)[i], NestedResults(obj, els)[i])
  {
    if els != [] {
      NestedSayInOrder(obj, els[..|els| - 1]);
      NestedSays(obj, els[|els| - 1]);
    }
  }

  lemma {:induction false} FirstRowList(values: seq<Json>, p: nat)
    requires p < |values| && IsRowList(values[p]) && forall q :: 0 <= q < p ==> !IsRowList(values[q])
    ensures FirstRows(values) == Some(values[p].els)
  {
    RowListsAreRows(values[0]);
    if p > 0 {
      FirstRowList(values[1..], p - 1);
    }
  }

  /**
   * Main result: an answer with nested rows gives, for the first property that lists
   * some, one row result per row that refers to something, in order, and no batch result.
   */
  lemma NestedAnswer(obj: Json, p: nat)
    requires obj.JObj? && p < |obj.props| && IsRowList(obj.props[p].value)
    requires forall q :: 0 <= q < p ==> !IsRowList(obj.props[q].value)
    ensures var r, rows := ItemResults(ItemsOf(obj)), Referring(obj.props[p].value.els);
            && r.batchItems == [] && |r.lineItems| == |rows|
            && forall i :: 0 <= i < |rows| ==> SaysWithin(obj, rows[i], r.lineItems[i])
  {
    OneItem(obj);
    PropValuesAt(obj.props);
    FirstRowList(PropValues(obj.props), p);
    NestedSayInOrder(obj, obj.props[p].value.els);
  }

  // ------------------------------------------------- lists where objects go

  /** What each element of a list reads in the text of the list. */
  function Elements(els: seq<Json>): seq<string> {
    if els == [] then [] else Elements(els[..|els| - 1]) + [if els[|els| - 1] == JNull then "" else Rendered(els[|els| - 1])]
  }

  lemma {:induction false} JoinSnoc(parts: seq<string>, p: string, sep: string)
    requires parts != []
    ensures Join(parts + [p], sep) == Join(parts, sep) + sep + p
  {
    if |parts| == 1 {
      assert (parts + [p])[1..] == [p];
    } else {
      assert (parts + [p])[1..] == parts[1..] + [p];
      JoinSnoc(parts[1..], p, sep);
    }
  }

  /** A list as a reference reads as its elements with commas between them. */
  lemma {:induction false} ListReadsAsElements(els: seq<Json>)
    ensures |Elements(els)| == |els| && Rendered(JArr(els)) == Join(Elements(els), ",")
  {
    if |els| == 1 {
      assert els[..0] == [] && Elements(els[..0]) == [];
    } else if els != [] {
      ListReadsAsElements(els[..|els| - 1]);
      JoinSnoc(Elements(els[..|els| - 1]), if els[|els| - 1] == JNull then "" else Rendered(els[|els| - 1]), ",");
    }
  }

  /** An item that is itself a list: the first of its elements that lists rows is answered, without a parent's word. */
  lemma ListItem(els: seq<Json>, p: nat)
    requires p < |els| && IsRowList(els[p]) && forall q :: 0 <= q < p ==> !IsRowList(els[q])
    ensures var r, rows := ItemResults([JArr(els)]), Referring(els[p].els);
            && r.batchItems == [] && |r.lineItems| == |rows|
            && forall i :: 0 <= i < |rows| ==> SaysWithin(JArr(els), rows[i], r.lineItems[i])
  {
    assert [JArr(els)][..0] == [];
    FirstRowList(els, p);
    NestedSayInOrder(JArr(els), els[p].els);
  }
}
