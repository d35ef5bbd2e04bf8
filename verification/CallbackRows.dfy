/**
 * What a vendor callback does to one stored row: the results that name it, the
 * state and answer it ends with, and the error fields merged into its data.
 */
module CallbackRows {
  import opened Text
  import opened Rows
  import opened Statements

  // -------------------------------------------------- results by row or batch

  /** A choice of one item per name among those given. */
  predicate Picks<K(==)>(items: seq<(K, VendorItem)>, chosen: map<K, VendorItem>) {
    (forall p :: p in items ==> p.0 in chosen) && (forall k :: k in chosen ==> (k, chosen[k]) in items)
  }

  function FirstItems<K(==)>(items: seq<(K, VendorItem)>): (chosen: map<K, VendorItem>)
    ensures Picks(items, chosen)
  {
    if items == [] then map[] else FirstItems(items[1..])[items[0].0 := items[0].1]
  }

  /** The last item of each name, as a `Map` built from the list holds it. */
  function LastItems<K(==)>(items: seq<(K, VendorItem)>): (chosen: map<K, VendorItem>)
    ensures Picks(items, chosen)
  {
    if items == [] then map[] else LastItems(items[..|items| - 1])[items[|items| - 1].0 := items[|items| - 1].1]
  }

  /** The item a row's error fields come from: the last of its name. */
  ghost predicate IsLast<K>(items: seq<(K, VendorItem)>, k: K, v: Option<VendorItem>) {
    match v
    case None => forall i :: 0 <= i < |items| ==> items[i].0 != k
    case Some(x) => exists i :: 0 <= i < |items| && items[i] == (k, x) && forall j :: i < j < |items| ==> items[j].0 != k
  }

  function At<K(==)>(m: map<K, VendorItem>, k: K): Option<VendorItem> {
    if k in m then Some(m[k]) else None
  }

  lemma {:induction false} LastAt<K>(items: seq<(K, VendorItem)>, k: K) returns (i: nat)
    requires k in LastItems(items)
    ensures i < |items| && items[i] == (k, LastItems(items)[k]) && forall j :: i < j < |items| ==> items[j].0 != k
  {
    var n := |items| - 1;
    if items[n].0 == k {
      i := n;
    } else {
      i := LastAt(items[..n], k);
    }
  }

  lemma LastItemIsLast<K>(items: seq<(K, VendorItem)>, k: K)
    ensures IsLast(items, k, At(LastItems(items), k))
  {
    if k in LastItems(items) {
      var i := LastAt(items, k);
    } else {
      forall i | 0 <= i < |items|
        ensures items[i].0 != k
      {
        assert items[i] in items;
      }
    }
  }

  // ------------------------------------------------------------ error fields

  predicate HasError(v: VendorItem) {
    v.errorCode.Some? || v.errorMessage.Some?
  }

  function ErrorPatch(hasCode: bool, hasMessage: bool, v: VendorItem): Data {
    (if hasCode && v.errorCode.Some? then map["error_code" := Text(v.errorCode.value)] else map[]) +
    (if hasMessage && v.errorMessage.Some? then map["error_message" := Text(v.errorMessage.value)] else map[])
  }

  /** The error fields to merge into each row hit by a result that has some, a line result first. */
  function PatchesOf(hasCode: bool, hasMessage: bool, line: map<RowRef, VendorItem>, batch: map<string, VendorItem>,
                     hitByLine: set<RowRef>, batchOf: map<RowRef, string>): (patches: map<RowRef, Data>)
    requires (forall r :: r in hitByLine ==> r in line) && (forall r :: r in batchOf ==> batchOf[r] in batch)
    ensures patches.Keys <= hitByLine + batchOf.Keys
  {
    map r | r in hitByLine + batchOf.Keys
            && ((r in hitByLine && HasError(line[r])) || (r in batchOf && HasError(batch[batchOf[r]]))) ::
      ErrorPatch(hasCode, hasMessage, if r in hitByLine && HasError(line[r]) then line[r] else batch[batchOf[r]])
  }

  // ----------------------------------------------------- one row, in full

  predicate IsAccepted(status: Option<string>) {
    status.Some? && Lower(status.value) == "correcto"
  }

  /** The batch result still finds the row: the line result did not accept it. */
  predicate BatchHits(was: Row, byLine: Option<VendorItem>, byBatch: Option<VendorItem>) {
    byBatch.Some? && !IsAccepted(was.status) && !(byLine.Some? && Lower(byLine.value.status) == "correcto")
  }

  /**
   * State and answer of the row: those of the batch result, else of the line result, else
   * as they were; an accepted row is not touched. Nothing but data changes beside them.
   */
  predicate StateAfter(was: Row, r: Row, byLine: Option<VendorItem>, byBatch: Option<VendorItem>) {
    && r.(status := was.status, response := was.response, data := was.data) == was
    && (if BatchHits(was, byLine, byBatch) then r.status == Some(byBatch.value.status) && r.response == Some(byBatch.value.raw)
        else if byLine.Some? && !IsAccepted(was.status) then r.status == Some(byLine.value.status) && r.response == Some(byLine.value.raw)
        else r.status == was.status && r.response == was.response)
  }

  /** The key holds this text in the new data, or what it held before when there is none. */
  predicate KeyAfter(was: Data, d: Data, k: string, text: Option<string>) {
    if text.Some? then k in d && d[k] == Text(text.value)
    else (k in d <==> k in was) && (k in d ==> d[k] == was[k])
  }

  ghost predicate ErrorsAfter(was: Data, d: Data, hasCode: bool, hasMessage: bool, v: VendorItem) {
    && KeyAfter(was, d, "error_code", if hasCode then v.errorCode else None)
    && KeyAfter(was, d, "error_message", if hasMessage then v.errorMessage else None)
    && forall k :: (k in d || k in was) && k != "error_code" && k != "error_message" ==> KeyAfter(was, d, k, None)
  }

  /** The row's data: the error fields of the line result if it hit and has some, else of the batch result, else as it was. */
  ghost predicate DataAfter(was: Row, d: Data, hasCode: bool, hasMessage: bool, hitByLine: bool, hitByBatch: bool,
                      line: Option<VendorItem>, batch: Option<VendorItem>) {
    if hitByLine && line.Some? && HasError(line.value) then ErrorsAfter(was.data, d, hasCode, hasMessage, line.value)
    else if hitByBatch && batch.Some? && HasError(batch.value) then ErrorsAfter(was.data, d, hasCode, hasMessage, batch.value)
    else d == was.data
  }

  lemma PatchIsErrors(was: Data, hasCode: bool, hasMessage: bool, v: VendorItem)
    ensures ErrorsAfter(was, was + ErrorPatch(hasCode, hasMessage, v), hasCode, hasMessage, v)
  {
  }

  function ByBatch(r: Row, batch: map<string, VendorItem>): Option<VendorItem> {
    if r.batchId.Some? then At(batch, r.batchId.value) else None
  }

  lemma TwoUpdatesOnRow(rows: Table, line: map<RowRef, VendorItem>, batch: map<string, VendorItem>, r: RowRef)
    requires r in rows
    ensures var mid, done := ApplyLineItems(rows, line), ApplyBatchItems(ApplyLineItems(rows, line), batch);
            && r in mid && r in done && done[r].data == rows[r].data && mid[r].batchId == rows[r].batchId
            && StateAfter(rows[r], done[r], At(line, r), ByBatch(rows[r], batch))
            && (!IsCorrecto(mid[r].status) && ByBatch(rows[r], batch).Some?
                <==> BatchHits(rows[r], At(line, r), ByBatch(rows[r], batch)))
  {
  }

  lemma SameNames<K>(items: seq<(K, VendorItem)>, chosen: map<K, VendorItem>)
    requires Picks(items, chosen)
    ensures LastItems(items).Keys == chosen.Keys
  {
    forall k
      ensures k in LastItems(items) <==> k in chosen
    {
      if k in LastItems(items) {
        assert (k, LastItems(items)[k]) in items;
      }
      if k in chosen {
        assert (k, chosen[k]) in items;
      }
    }
  }

  /** The row after the two updates and the merge of the error fields. */
  ghost predicate IsStored(was: Row, r: Row, hasCode: bool, hasMessage: bool, byLine: Option<VendorItem>, byBatch: Option<VendorItem>,
                           lineError: Option<VendorItem>, batchError: Option<VendorItem>) {
    && StateAfter(was, r, byLine, byBatch)
    && DataAfter(was, r.data, hasCode, hasMessage, byLine.Some? && !IsAccepted(was.status), BatchHits(was, byLine, byBatch),
                 lineError, batchError)
  }

  /** Every row, with the results that name it or its batch; the errors are those of the last result of a name. */
  ghost predicate AllStored(start: Table, rows: Table, lineItems: seq<(RowRef, VendorItem)>, batchItems: seq<(string, VendorItem)>,
                            hasCode: bool, hasMessage: bool, line: map<RowRef, VendorItem>, batch: map<string, VendorItem>) {
    rows.Keys == start.Keys &&
    forall r :: r in rows ==>
      IsStored(start[r], rows[r], hasCode, hasMessage, At(line, r), ByBatch(start[r], batch),
               At(LastItems(lineItems), r), ByBatch(start[r], LastItems(batchItems)))
  }

  /** The rows the two updates returned. */
  ghost predicate AreHits(start: Table, line: map<RowRef, VendorItem>, batch: map<string, VendorItem>,
                          hitByLine: set<RowRef>, batchOf: map<RowRef, string>) {
    && hitByLine == (set r | r in start && r in line && !IsCorrecto(start[r].status))
    && (forall r :: r in batchOf <==> r in start && BatchHits(start[r], At(line, r), ByBatch(start[r], batch)))
    && (forall r :: r in batchOf ==> start[r].batchId == Some(batchOf[r]))
  }

  lemma HitsOfUpdates(start: Table, line: map<RowRef, VendorItem>, batch: map<string, VendorItem>,
                      hitByLine: set<RowRef>, batchOf: map<RowRef, string>)
    requires hitByLine == (set r | r in start && r in line && !IsCorrecto(start[r].status))
    requires var mid := ApplyLineItems(start, line);
             && (forall r :: r in batchOf <==> r in mid && !IsCorrecto(mid[r].status) && ByBatch(mid[r], batch).Some?)
             && (forall r :: r in batchOf ==> mid[r].batchId == Some(batchOf[r]))
    ensures AreHits(start, line, batch, hitByLine, batchOf)
  {
    forall r | r in start
      ensures r in batchOf <==> BatchHits(start[r], At(line, r), ByBatch(start[r], batch))
      ensures r in batchOf ==> start[r].batchId == Some(batchOf[r])
    {
      TwoUpdatesOnRow(start, line, batch, r);
    }
  }

  /** The data of one row after the merge, its patch being that of the results it was hit by. */
  lemma MergedData(was: Row, d: Data, hasCode: bool, hasMessage: bool, hitByLine: bool, hitByBatch: bool,
                   line: Option<VendorItem>, batch: Option<VendorItem>)
    requires (hitByLine ==> line.Some?) && (hitByBatch ==> batch.Some?)
    requires d == if hitByLine && HasError(line.value) then was.data + ErrorPatch(hasCode, hasMessage, line.value)
                  else if hitByBatch && HasError(batch.value) then was.data + ErrorPatch(hasCode, hasMessage, batch.value)
                  else was.data
    ensures DataAfter(was, d, hasCode, hasMessage, hitByLine, hitByBatch, line, batch)
  {
    if hitByLine && HasError(line.value) {
      PatchIsErrors(was.data, hasCode, hasMessage, line.value);
    } else if hitByBatch && HasError(batch.value) {
      PatchIsErrors(was.data, hasCode, hasMessage, batch.value);
    }
  }

  lemma RowIsStored(start: Table, hasCode: bool, hasMessage: bool, line: map<RowRef, VendorItem>, batch: map<string, VendorItem>,
                    lineError: map<RowRef, VendorItem>, batchError: map<string, VendorItem>,
                    hitByLine: set<RowRef>, batchOf: map<RowRef, string>, r: RowRef)
    requires lineError.Keys == line.Keys && batchError.Keys == batch.Keys
    requires AreHits(start, line, batch, hitByLine, batchOf) && r in start
    requires (forall x :: x in hitByLine ==> x in lineError) && (forall x :: x in batchOf ==> batchOf[x] in batchError)
    ensures var done := ApplyBatchItems(ApplyLineItems(start, line), batch);
            var rows := ApplyErrorFields(done, PatchesOf(hasCode, hasMessage, lineError, batchError, hitByLine, batchOf));
            && r in rows
            && IsStored(start[r], rows[r], hasCode, hasMessage, At(line, r), ByBatch(start[r], batch),
                        At(lineError, r), ByBatch(start[r], batchError))
  {
    TwoUpdatesOnRow(start, line, batch, r);
    var done := ApplyBatchItems(ApplyLineItems(start, line), batch);
    PatchOnRow(done, hasCode, hasMessage, lineError, batchError, hitByLine, batchOf, r);
    var d := ApplyErrorFields(done, PatchesOf(hasCode, hasMessage, lineError, batchError, hitByLine, batchOf))[r].data;
    MergedData(start[r], d, hasCode, hasMessage, r in hitByLine, r in batchOf, At(lineError, r), ByBatch(start[r], batchError));
    StateIgnoresData(start[r], done[r], d, At(line, r), ByBatch(start[r], batch));
  }

  lemma StateIgnoresData(was: Row, r: Row, d: Data, byLine: Option<VendorItem>, byBatch: Option<VendorItem>)
    requires StateAfter(was, r, byLine, byBatch)
    ensures StateAfter(was, r.(data := d), byLine, byBatch)
  {
  }

  lemma PatchOnRow(done: Table, hasCode: bool, hasMessage: bool, line: map<RowRef, VendorItem>, batch: map<string, VendorItem>,
                   hitByLine: set<RowRef>, batchOf: map<RowRef, string>, r: RowRef)
    requires (forall x :: x in hitByLine ==> x in line) && (forall x :: x in batchOf ==> batchOf[x] in batch)
    requires r in done
    ensures var rows := ApplyErrorFields(done, PatchesOf(hasCode, hasMessage, line, batch, hitByLine, batchOf));
            r in rows && rows[r] == done[r].(data :=
              if r in hitByLine && HasError(line[r]) then done[r].data + ErrorPatch(hasCode, hasMessage, line[r])
              else if r in batchOf && HasError(batch[batchOf[r]]) then done[r].data + ErrorPatch(hasCode, hasMessage, batch[batchOf[r]])
              else done[r].data)
  {
  }

  lemma CallbackIsStored(start: Table, lineItems: seq<(RowRef, VendorItem)>, batchItems: seq<(string, VendorItem)>,
                         hasCode: bool, hasMessage: bool, line: map<RowRef, VendorItem>, batch: map<string, VendorItem>,
                         hitByLine: set<RowRef>, batchOf: map<RowRef, string>)
    requires Picks(lineItems, line) && Picks(batchItems, batch) && AreHits(start, line, batch, hitByLine, batchOf)
    ensures (forall x :: x in hitByLine ==> x in LastItems(lineItems)) && (forall x :: x in batchOf ==> batchOf[x] in LastItems(batchItems))
    ensures var done := ApplyBatchItems(ApplyLineItems(start, line), batch);
            var patches := PatchesOf(hasCode, hasMessage, LastItems(lineItems), LastItems(batchItems), hitByLine, batchOf);
            && AllStored(start, ApplyErrorFields(done, patches), lineItems, batchItems, hasCode, hasMessage, line, batch)
            && forall r :: r in patches ==> Hit(start, line, batch, r)
  {
    SameNames(lineItems, line);
    SameNames(batchItems, batch);
    var lineError, batchError := LastItems(lineItems), LastItems(batchItems);
    forall r | r in start
      ensures var done := ApplyBatchItems(ApplyLineItems(start, line), batch);
              var rows := ApplyErrorFields(done, PatchesOf(hasCode, hasMessage, lineError, batchError, hitByLine, batchOf));
              r in rows && IsStored(start[r], rows[r], hasCode, hasMessage, At(line, r), ByBatch(start[r], batch),
                                    At(lineError, r), ByBatch(start[r], batchError))
    {
      RowIsStored(start, hasCode, hasMessage, line, batch, lineError, batchError, hitByLine, batchOf, r);
    }
  }
}
