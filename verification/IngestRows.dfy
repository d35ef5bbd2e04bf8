/** What one stored row holds after an `ingest` call, field by field. */
module IngestRows {
  import opened Text
  import opened Rows
  import opened Upserts
  import opened Ingest
  import opened TableRowsService
  import opened Loads
  import Statements

  /** A copy of the row came in with this data. */
  ghost predicate CameIn(items: seq<Item>, r: RowRef, d: Data) {
    exists it :: it in items && it.ref == r && it.data == d
  }

  /** First met by this call: its data, connection and time, queued in its group where the table sends. */
  ghost predicate IsNew(t: Template, conn: string, items: seq<Item>, now: nat, r: RowRef, a: Row) {
    && CameIn(items, r, a.data) && a.conn == conn && a.created == now && a.loadId.None? && Unsent(a)
    && (if t.write.None? then a.status.None? && a.groupId.None?
        else a.status == Some("queued") && a.groupId == GroupId(t.write.value.groupBy, conn, a.data))
  }

  /** An incoming copy took the place of its data: it is at the start of a new attempt. */
  ghost predicate IsReplaced(t: Template, items: seq<Item>, r: RowRef, was: Row, a: Row) {
    && CameIn(items, r, a.data) && !(was.status.Some? && Lower(was.status.value) == "correcto")
    && a.conn == was.conn && a.created == was.created && a.loadId == was.loadId
    && (if t.write.None? then a == was.(data := a.data)
        else a.status == Some("queued") && Unsent(a) && a.groupId == GroupId(t.write.value.groupBy, was.conn, a.data))
  }

  lemma {:induction false} CopiesAreTaken(t: Template, conn: string, was: Option<Row>, ds: seq<Data>, now: nat)
    ensures AnyTaken(t, conn, was, ds, now) ==>
              UpsertCopies(t, conn, was, ds, now).Some? && UpsertCopies(t, conn, was, ds, now).value.data in ds
    ensures !AnyTaken(t, conn, was, ds, now) ==> UpsertCopies(t, conn, was, ds, now) == was
    ensures was.Some? && IsCorrecto(was.value.status) ==> !AnyTaken(t, conn, was, ds, now)
  {
    if ds != [] {
      CopiesAreTaken(t, conn, was, ds[..|ds| - 1], now);
      assert ds[|ds| - 1] in ds && forall d :: d in ds[..|ds| - 1] ==> d in ds;
    }
  }

  lemma UpsertedRow(rows: Table, t: Template, conn: string, items: seq<Item>, now: nat, r: RowRef)
    requires r in UpsertEach(rows, t, conn, items, now)
    ensures var a := UpsertEach(rows, t, conn, items, now)[r];
            if r in Affected(rows, t, conn, items, now) then
              CameIn(items, r, a.data)
              && (if r in rows then !IsCorrecto(rows[r].status) && a == rows[r].(data := a.data) else a == NewRow(conn, a.data, now))
            else r in rows && a == rows[r]
  {
    EachRowByItsCopies(rows, t, conn, items, now, r);
    CopiesAreTaken(t, conn, Lookup(rows, r), CopiesOf(items, r), now);
    UpsertsLeaveStamps(rows, t, conn, items, now, r);
    CopiesOfAreItems(items, r);
  }

  /**
   * Main result: after a call without load metadata each row of the table is new, or had
   * its data replaced, or is as it was; and it is not as it was exactly when RETURNING named it.
   */
  lemma IngestedRow(s: State, t: Template, conn: string, items: seq<Item>, appended: nat, now: nat, r: RowRef)
    requires r in IngestTx(s, t, conn, items, appended, None, now).rows
    ensures var a := IngestTx(s, t, conn, items, appended, None, now).rows[r];
            if r !in s.rows then IsNew(t, conn, items, now, r, a)
            else if r in Affected(s.rows, t, conn, items, now) then IsReplaced(t, items, r, s.rows[r], a)
            else a == s.rows[r]
  {
    PlainIngest(s, t, conn, items, appended, now);
    UpsertedRow(s.rows, t, conn, items, now, r);
  }
}
