/**
 * What the UPDATE statements and short transactions of the row service do to the
 * stored state. The class in TableRowsService.dfy runs them step by step.
 */
module Statements {
  import opened Rows

  /** A row reset to a fresh submission attempt by `markQueued`. */
  function Requeued(r: Row, w: WriteConfig, status: string): Row {
    r.(status := Some(status), batchId := None, response := None, writeStatus := None, writeError := None,
       groupId := GroupId(w.groupBy, r.conn, r.data))
  }

  function MarkQueued(rows: Table, t: Template, ids: set<RowRef>, status: string): Table {
    if t.write.None? then rows
    else map r | r in rows :: if r in ids then Requeued(rows[r], t.write.value, status) else rows[r]
  }

  /** Only rows that have not gone out yet may be staged (again). */
  predicate NotYetSent(status: Option<string>) {
    status.None? || status.value == STAGED || status.value == QUEUED || status.value == REVISADO
  }

  function MarkStaged(rows: Table, t: Template, ids: set<RowRef>, loadId: string): Table {
    if t.write.None? then rows
    else map r | r in rows ::
           if r in ids && NotYetSent(rows[r].status)
           then Requeued(rows[r], t.write.value, STAGED).(loadId := Some(loadId))
           else rows[r]
  }

  /** The flip: every staged row of the load becomes sendable at once. */
  function FlipRows(rows: Table, loadId: string): Table {
    map r | r in rows ::
      if rows[r].loadId == Some(loadId) && rows[r].status == Some(STAGED)
      then rows[r].(status := Some(QUEUED))
      else rows[r]
  }

  function Received(s: State, loadId: string): set<int> {
    if loadId in s.batches then s.batches[loadId] else {}
  }

  predicate Sealed(s: State, loadId: string) {
    loadId in s.loads && s.loads[loadId].sealed
  }

  /** The load is open, its size is known and that many batches are in. */
  predicate ReadyToFlip(s: State, loadId: string) {
    loadId in s.loads && !s.loads[loadId].sealed && s.loads[loadId].expected.Some?
    && |Received(s, loadId)| >= s.loads[loadId].expected.value
  }

  function FlipLoadIfComplete(s: State, loadId: string): State {
    if ReadyToFlip(s, loadId)
    then s.(rows := FlipRows(s.rows, loadId), loads := s.loads[loadId := s.loads[loadId].(sealed := true)])
    else s
  }

  function EnsureLoad(s: State, loadId: string, now: nat): State {
    if loadId in s.loads then s else s.(loads := s.loads[loadId := Load(None, false, false, now)])
  }

  function RegisterBatch(s: State, loadId: string, batchIndex: Option<int>): State {
    if batchIndex.None? then s
    else s.(batches := s.batches[loadId := Received(s, loadId) + {batchIndex.value}])
  }

  function StageLoadRows(s: State, t: Template, ids: set<RowRef>, meta: LoadMeta, now: nat): State {
    var s1 := EnsureLoad(s, meta.loadId, now);
    if s1.loads[meta.loadId].sealed then s1.(rows := MarkQueued(s1.rows, t, ids, QUEUED))
    else
      var s2 := s1.(rows := MarkStaged(s1.rows, t, ids, meta.loadId));
      FlipLoadIfComplete(RegisterBatch(s2, meta.loadId, meta.batchIndex), meta.loadId)
  }

  function ExpectBatches(s: State, loadId: string, total: int, now: nat): State {
    var was := EnsureLoad(s, loadId, now);
    was.(loads := was.loads[loadId := was.loads[loadId].(expected := Some(total))])
  }

  function SealLoad(s: State, loadId: string, total: int, now: nat): State {
    FlipLoadIfComplete(ExpectBatches(s, loadId, total, now), loadId)
  }

  /** The tail of `ingest`: stage the rows under their load, or queue them. */
  function LandRows(s: State, t: Template, ids: set<RowRef>, meta: Option<LoadMeta>, now: nat): State {
    if meta.Some? && meta.value.loadId != "" then StageLoadRows(s, t, ids, meta.value, now)
    else s.(rows := MarkQueued(s.rows, t, ids, QUEUED))
  }

  function MarkGroupResult(rows: Table, ids: set<RowRef>, batchId: string, sent: bool, error: Option<string>): Table {
    map r | r in rows ::
      if r in ids
      then rows[r].(batchId := Some(batchId), writeStatus := Some(if sent then Sent else Failed), writeError := error,
                    status := Some(if sent then PENDING else QUEUED))
      else rows[r]
  }

  /** The transaction tying the outcome of a send to its outbox event. */
  function CommitOutcome(s: State, ids: set<RowRef>, batchId: string, sent: bool, error: Option<string>): State {
    s.(rows := MarkGroupResult(s.rows, ids, batchId, sent, error),
       outbox := s.outbox + [Event(batchId, sent, ids)])
  }

  /** `updateAndWrite` on an existing row that is not accepted. */
  function EditRow(s: State, t: Template, r: RowRef, d: Data): State
    requires r in s.rows
  {
    s.(rows := MarkQueued(s.rows[r := s.rows[r].(data := d)], t, {r}, REVISADO))
  }

  function Reap(s: State, now: nat, timeout: nat): State {
    s.(loads := map l | l in s.loads ::
         if !s.loads[l].sealed && !s.loads[l].stale && s.loads[l].created + timeout < now
         then s.loads[l].(stale := true)
         else s.loads[l])
  }

  /** A vendor result joined to the row it hits. */
  datatype VendorItem = VendorItem(status: string, raw: string, errorCode: Option<string>, errorMessage: Option<string>)

  function WithResult(r: Row, v: VendorItem): Row {
    if IsCorrecto(r.status) then r else r.(status := Some(v.status), response := Some(v.raw))
  }

  function ApplyLineItems(rows: Table, items: map<RowRef, VendorItem>): Table {
    map r | r in rows :: if r in items then WithResult(rows[r], items[r]) else rows[r]
  }

  function ApplyBatchItems(rows: Table, items: map<string, VendorItem>): Table {
    map r | r in rows ::
      if rows[r].batchId.Some? && rows[r].batchId.value in items then WithResult(rows[r], items[rows[r].batchId.value])
      else rows[r]
  }

  /** Rows a callback's two UPDATEs hit: found, and not accepted before it. */
  predicate Hit(rows: Table, line: map<RowRef, VendorItem>, batch: map<string, VendorItem>, r: RowRef) {
    r in rows && !IsCorrecto(rows[r].status) &&
    (r in line || (rows[r].batchId.Some? && rows[r].batchId.value in batch))
  }

  /** `data = data || patch`. */
  function ApplyErrorFields(rows: Table, patches: map<RowRef, Data>): Table {
    map r | r in rows :: if r in patches then rows[r].(data := rows[r].data + patches[r]) else rows[r]
  }

  /** One vendor callback, each item already joined to the row or batch it names. */
  function Callback(s: State, line: map<RowRef, VendorItem>, batch: map<string, VendorItem>, patches: map<RowRef, Data>): State {
    s.(rows := ApplyErrorFields(ApplyBatchItems(ApplyLineItems(s.rows, line), batch), patches))
  }

  /** A row of the deleted scope, or a sibling of one when the table groups its sends. */
  predicate Doomed(rows: Table, grouped: bool, conn: string, ids: set<RowRef>, r: RowRef)
    requires r in rows
  {
    (conn == "" || rows[r].conn == conn) &&
    (r in ids ||
     (grouped && rows[r].groupId.Some? &&
      exists m :: m in ids && m in rows && (conn == "" || rows[m].conn == conn) && rows[m].groupId == rows[r].groupId))
  }

  function DeleteRows(s: State, grouped: bool, conn: string, ids: set<RowRef>): State {
    s.(rows := map r | r in s.rows && !Doomed(s.rows, grouped, conn, ids, r) :: s.rows[r])
  }
}
