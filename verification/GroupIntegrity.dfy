/**
 * From arrival to the first send: the rows of a group that come in through one
 * load, untouched by anything else, leave together in one pass of the sweep.
 */
module GroupIntegrity {
  import opened Rows
  import opened Upserts
  import opened Statements
  import opened Ingest
  import opened TableRowsService
  import opened Lifecycle
  import opened Loads
  import opened Sweep
  import opened SweepPasses
  import WriteBatch

  /** The group a load's row belongs to. */
  function GroupOf(d: Delivery, data: Data): Option<string> {
    if d.t.write.None? then None else GroupId(d.t.write.value.groupBy, d.conn, data)
  }

  /** The load's rows of a group. */
  function GroupRows(d: Delivery, g: string): set<RowRef> {
    set i, it | 0 <= i < |d.content| && it in d.content[i] && GroupOf(d, it.data) == Some(g) :: it.ref
  }

  /** Copies of one row, in whatever batches, agree on its group. */
  ghost predicate OneGroupPerRow(d: Delivery) {
    forall i, j, a, b :: 0 <= i < |d.content| && 0 <= j < |d.content| && a in d.content[i] && b in d.content[j] ==>
      a.ref == b.ref ==> GroupOf(d, a.data) == GroupOf(d, b.data)
  }

  /** A row of the group as the load holds it before it is ever sent. */
  predicate Waiting(s: State, d: Delivery, g: string, row: Row) {
    && row.conn == d.conn && GroupOf(d, row.data) == Some(g) && row.groupId == Some(g)
    && row.loadId == Some(d.loadId) && row.batchId == None
    && row.status == Some(if Sealed(s, d.loadId) then QUEUED else STAGED)
  }

  ghost predicate RowsWait(s: State, d: Delivery, g: string) {
    forall r :: r in GroupRows(d, g) && r in s.rows ==> Waiting(s, d, g, s.rows[r])
  }

  /** Every group row of a batch that was counted is in the table; a sealed load counted them all. */
  ghost predicate CountedAreThere(s: State, d: Delivery, g: string) {
    forall i, it :: 0 <= i < |d.content| && it in d.content[i] && it.ref in GroupRows(d, g) ==>
      Sealed(s, d.loadId) || i in Received(s, d.loadId) ==> it.ref in s.rows
  }

  /** While the load is open, only its own batches are counted, towards its true size. */
  ghost predicate CountIsHonest(s: State, d: Delivery) {
    !Sealed(s, d.loadId) ==>
    && (d.loadId in s.loads ==> s.loads[d.loadId].expected in {None, Some(|d.content|)})
    && (forall i :: i in Received(s, d.loadId) ==> 0 <= i < |d.content|)
  }

  ghost predicate Inv(s: State, d: Delivery, g: string) {
    RowsWait(s, d, g) && CountedAreThere(s, d, g) && CountIsHonest(s, d)
  }

  // ------------------------------------------------------ the load's own events

  lemma {:induction false} DataIsACopy(t: Template, conn: string, was: Option<Row>, ds: seq<Data>, now: nat)
    ensures var after := UpsertCopies(t, conn, was, ds, now);
            after.Some? ==> after.value.data in ds || (was.Some? && after.value.data == was.value.data)
  {
    if ds != [] {
      DataIsACopy(t, conn, was, ds[..|ds| - 1], now);
      assert ds == ds[..|ds| - 1] + [ds[|ds| - 1]];
    }
  }

  /** Upserting a batch leaves the load's rows in their group. */
  lemma UpsertKeepsGroup(d: Delivery, g: string, i: int, rows: Table, now: nat, r: RowRef)
    requires OneGroupPerRow(d) && 0 <= i < |d.content| && r in GroupRows(d, g)
    requires r in rows ==> GroupOf(d, rows[r].data) == Some(g)
    requires r in UpsertEach(rows, d.t, d.conn, d.content[i], now)
    ensures GroupOf(d, UpsertEach(rows, d.t, d.conn, d.content[i], now)[r].data) == Some(g)
  {
    var items := d.content[i];
    EachRowByItsCopies(rows, d.t, d.conn, items, now, r);
    DataIsACopy(d.t, d.conn, Lookup(rows, r), CopiesOf(items, r), now);
    var data := UpsertEach(rows, d.t, d.conn, items, now)[r].data;
    if data in CopiesOf(items, r) {
      CopiesAreItems(items, r, data);
    }
  }

  lemma {:induction false} CopiesAreItems(items: seq<Item>, r: RowRef, data: Data)
    requires data in CopiesOf(items, r)
    ensures Item(r, data) in items
  {
    var before, it := items[..|items| - 1], items[|items| - 1];
    if data in CopiesOf(before, r) {
      CopiesAreItems(before, r, data);
      assert Item(r, data) in before;
    } else {
      assert it == Item(r, data);
    }
  }

  /** A row of the group after the upserts of its load's transaction. */
  ghost predicate Upserted(s: State, d: Delivery, g: string, ids: set<RowRef>, r: RowRef)
    requires r in s.rows
  {
    var row := s.rows[r];
    && row.conn == d.conn && GroupOf(d, row.data) == Some(g)
    && (Waiting(s, d, g, row) || (r in ids && row.status.None? && row.loadId.None? && row.batchId.None?))
  }

  lemma UpsertLeavesWaiting(s: State, d: Delivery, g: string, i: int, now: nat, r: RowRef)
    requires d.Valid() && OneGroupPerRow(d) && RowsWait(s, d, g) && 0 <= i < |d.content| && r in GroupRows(d, g)
    requires r in UpsertEach(s.rows, d.t, d.conn, d.content[i], now)
    ensures Upserted(s.(rows := UpsertEach(s.rows, d.t, d.conn, d.content[i], now)), d, g,
                     Affected(s.rows, d.t, d.conn, d.content[i], now), r)
    ensures r in s.rows ==> Waiting(s, d, g, UpsertEach(s.rows, d.t, d.conn, d.content[i], now)[r])
  {
    UpsertKeepsGroup(d, g, i, s.rows, now, r);
    UpsertsLeaveStamps(s.rows, d.t, d.conn, d.content[i], now, r);
  }

  /** Staging what arrived before the seal: every row of the group waits with the load. */
  lemma StageKeepsWaiting(s: State, d: Delivery, g: string, ids: set<RowRef>, i: int, now: nat, r: RowRef)
    requires d.Valid() && !Sealed(s, d.loadId) && r in s.rows && Upserted(s, d, g, ids, r)
    ensures var s' := StageLoadRows(s, d.t, ids, LoadMeta(d.loadId, Some(i)), now);
            r in s'.rows && Waiting(s', d, g, s'.rows[r])
  {
    var s1 := EnsureLoad(s, d.loadId, now);
    var s2 := RegisterBatch(s1.(rows := MarkStaged(s1.rows, d.t, ids, d.loadId)), d.loadId, Some(i));
    assert Waiting(s2, d, g, s2.rows[r]);
    FlipKeepsWaiting(s2, d, g, r);
  }

  lemma FlipKeepsWaiting(s: State, d: Delivery, g: string, r: RowRef)
    requires r in s.rows && Waiting(s, d, g, s.rows[r])
    ensures var s' := FlipLoadIfComplete(s, d.loadId);
            r in s'.rows && Waiting(s', d, g, s'.rows[r])
  {
  }

  /** A batch delivered again after the seal leaves the group queued. */
  lemma LateBatchKeepsWaiting(s: State, d: Delivery, g: string, ids: set<RowRef>, i: int, now: nat, r: RowRef)
    requires d.Valid() && Sealed(s, d.loadId) && r in s.rows && Waiting(s, d, g, s.rows[r])
    ensures var s' := StageLoadRows(s, d.t, ids, LoadMeta(d.loadId, Some(i)), now);
            r in s'.rows && Waiting(s', d, g, s'.rows[r])
  {
  }

  lemma BatchKeepsWaiting(s: State, d: Delivery, g: string, i: int, now: nat, r: RowRef)
    requires d.Valid() && OneGroupPerRow(d) && Inv(s, d, g) && 0 <= i < |d.content| && r in GroupRows(d, g)
    requires r in UpsertEach(s.rows, d.t, d.conn, d.content[i], now)
    ensures var s' := Deliver(s, d, Batch(i, now)); r in s'.rows && Waiting(s', d, g, s'.rows[r])
  {
    var s1 := s.(rows := UpsertEach(s.rows, d.t, d.conn, d.content[i], now));
    var ids := Affected(s.rows, d.t, d.conn, d.content[i], now);
    BatchIsStaging(s, d, i, now);
    UpsertLeavesWaiting(s, d, g, i, now, r);
    if Sealed(s, d.loadId) {
      LateBatchKeepsWaiting(s1, d, g, ids, i, now, r);
    } else {
      StageKeepsWaiting(s1, d, g, ids, i, now, r);
    }
  }

  lemma {:induction false} ItemsAreThere(rows: Table, t: Template, conn: string, items: seq<Item>, now: nat, r: RowRef)
    ensures r in rows ==> r in UpsertEach(rows, t, conn, items, now)
    ensures (exists it :: it in items && it.ref == r) ==> r in UpsertEach(rows, t, conn, items, now)
  {
    if items != [] {
      ItemsAreThere(rows, t, conn, items[..|items| - 1], now, r);
      assert items == items[..|items| - 1] + [items[|items| - 1]];
    }
  }

  /** The step from one count to the next, `new` being the batch that arrived. */
  lemma CountedStep(s: State, s': State, d: Delivery, g: string, new_: set<int>)
    requires CountedAreThere(s, d, g) && CountIsHonest(s, d) && forall i :: i in new_ ==> 0 <= i < |d.content|
    requires s.rows.Keys <= s'.rows.Keys
    requires forall i, it :: i in new_ && it in d.content[i] ==> it.ref in s'.rows
    requires Sealed(s, d.loadId) ==> Sealed(s', d.loadId)
    requires !Sealed(s, d.loadId) ==> Received(s', d.loadId) == Received(s, d.loadId) + new_
    requires !Sealed(s, d.loadId) && Sealed(s', d.loadId) ==> |Received(s', d.loadId)| >= |d.content|
    ensures CountedAreThere(s', d, g)
  {
    if !Sealed(s, d.loadId) {
      CountIsCoverage(Received(s', d.loadId), |d.content|);
    }
  }

  lemma DeliveryIsHonest(s: State, d: Delivery, e: LoadEvent)
    requires d.Valid() && d.Owns(e) && CountIsHonest(s, d)
    ensures CountIsHonest(Deliver(s, d, e), d)
    ensures !Sealed(s, d.loadId) && Sealed(Deliver(s, d, e), d.loadId) ==> |Received(Deliver(s, d, e), d.loadId)| >= |d.content|
  {
    DeliverAccount(s, d, e);
  }

  /** After any event, the rows counted so far are there. */
  lemma DeliveryCounts(s: State, d: Delivery, g: string, e: LoadEvent)
    requires d.Valid() && Inv(s, d, g) && d.Owns(e)
    ensures CountedAreThere(Deliver(s, d, e), d, g) && CountIsHonest(Deliver(s, d, e), d)
  {
    var s' := Deliver(s, d, e);
    var new_ := if e.Batch? then {e.i} else {};
    DeliverAccount(s, d, e);
    DeliverRows(s, d, e);
    DeliveryIsHonest(s, d, e);
    forall r | r in s.rows || exists i, it :: i in new_ && it in d.content[i] && it.ref == r
      ensures r in s'.rows
    {
      if e.Batch? {
        ItemsAreThere(s.rows, d.t, d.conn, d.content[e.i], e.now, r);
      }
    }
    CountedStep(s, s', d, g, new_);
  }

  lemma SealKeepsWaiting(s: State, d: Delivery, g: string, now: nat, r: RowRef)
    requires d.Valid() && Inv(s, d, g) && r in GroupRows(d, g) && r in s.rows
    ensures var s' := Deliver(s, d, Seal(now)); r in s'.rows && Waiting(s', d, g, s'.rows[r])
  {
    assert Waiting(s, d, g, s.rows[r]);
    FlipKeepsWaiting(ExpectBatches(s, d.loadId, |d.content|, now), d, g, r);
  }

  lemma OwnKeepsInv(s: State, d: Delivery, g: string, e: LoadEvent)
    requires d.Valid() && OneGroupPerRow(d) && Inv(s, d, g) && d.Owns(e)
    ensures Inv(Deliver(s, d, e), d, g)
  {
    DeliveryCounts(s, d, g, e);
    DeliverRows(s, d, e);
    forall r | r in GroupRows(d, g) && r in Deliver(s, d, e).rows
      ensures Waiting(Deliver(s, d, e), d, g, Deliver(s, d, e).rows[r])
    {
      match e
      case Seal(now) => SealKeepsWaiting(s, d, g, now, r);
      case Batch(i, now) => BatchKeepsWaiting(s, d, g, i, now, r);
    }
  }

  // ------------------------------------------------------ everything else

  /** A step of another operation that does not name the load or a row of the group. */
  ghost predicate Avoids(step: Step, s: State, d: Delivery, g: string) {
    match step
    case Ingesting(t, conn, items, appended, meta, now) =>
      (forall it :: it in items ==> it.ref !in GroupRows(d, g)) && (meta.Some? ==> meta.value.loadId != d.loadId)
    case Sealing(l, total, now) => l != d.loadId
    case Editing(t, r, data) => r !in GroupRows(d, g)
    case Sending(calls) => forall r :: MarkedBy(calls, r) ==> r !in GroupRows(d, g)
    case CallingBack(line, batch, patches) => forall r :: r in line ==> r !in GroupRows(d, g)
    case Deleting(grouped, conn, ids) => forall r :: r in s.rows && Doomed(s.rows, grouped, conn, ids, r) ==> r !in GroupRows(d, g)
    case Reaping(now, timeout) => true
  }

  /** The rows of the group, and what is known of the load, are as before. */
  ghost predicate Unmoved(s: State, s': State, d: Delivery, g: string) {
    && (forall r :: r in GroupRows(d, g) ==> Lookup(s'.rows, r) == Lookup(s.rows, r))
    && Received(s', d.loadId) == Received(s, d.loadId)
    && (d.loadId in s'.loads <==> d.loadId in s.loads)
    && (d.loadId in s.loads ==>
          s'.loads[d.loadId].sealed == s.loads[d.loadId].sealed && s'.loads[d.loadId].expected == s.loads[d.loadId].expected)
  }

  lemma UnmovedKeepsInv(s: State, s': State, d: Delivery, g: string)
    requires Inv(s, d, g) && Unmoved(s, s', d, g)
    ensures Inv(s', d, g)
  {
    forall r | r in GroupRows(d, g)
      ensures r in s'.rows <==> r in s.rows
      ensures r in s.rows ==> s'.rows[r] == s.rows[r]
    {
      assert Lookup(s'.rows, r) == Lookup(s.rows, r);
    }
  }

  lemma OtherFlip(s: State, l: string, r: RowRef)
    requires r in s.rows ==> s.rows[r].loadId != Some(l)
    ensures Lookup(FlipLoadIfComplete(s, l).rows, r) == Lookup(s.rows, r)
  {
  }

  /** Landing rows elsewhere leaves a row of this load alone. */
  lemma OtherLanding(s: State, t: Template, ids: set<RowRef>, meta: Option<LoadMeta>, now: nat, r: RowRef, l: string)
    requires r !in ids && (r in s.rows ==> s.rows[r].loadId == Some(l)) && (meta.Some? ==> meta.value.loadId != l)
    ensures Lookup(LandRows(s, t, ids, meta, now).rows, r) == Lookup(s.rows, r)
  {
    if meta.Some? && meta.value.loadId != "" {
      var m := meta.value;
      var s1 := EnsureLoad(s, m.loadId, now);
      if !s1.loads[m.loadId].sealed {
        OtherFlip(RegisterBatch(s1.(rows := MarkStaged(s1.rows, t, ids, m.loadId)), m.loadId, m.batchIndex), m.loadId, r);
      }
    }
  }

  lemma OtherFlipAccount(s: State, m: string, l: string)
    requires m != l
    ensures var s' := FlipLoadIfComplete(s, m);
            Received(s', l) == Received(s, l) && (l in s'.loads <==> l in s.loads) && (l in s.loads ==> s'.loads[l] == s.loads[l])
  {
  }

  lemma OtherLandingAccount(s: State, t: Template, ids: set<RowRef>, meta: Option<LoadMeta>, now: nat, l: string)
    requires meta.Some? ==> meta.value.loadId != l
    ensures var s' := LandRows(s, t, ids, meta, now);
            Received(s', l) == Received(s, l) && (l in s'.loads <==> l in s.loads) && (l in s.loads ==> s'.loads[l] == s.loads[l])
  {
    if meta.Some? && meta.value.loadId != "" {
      var m := meta.value;
      var s1 := EnsureLoad(s, m.loadId, now);
      if !s1.loads[m.loadId].sealed {
        OtherFlipAccount(RegisterBatch(s1.(rows := MarkStaged(s1.rows, t, ids, m.loadId)), m.loadId, m.batchIndex), m.loadId, l);
      }
    }
  }

  lemma IngestElsewhere(s: State, d: Delivery, g: string, step: Step)
    requires step.Ingesting? && Inv(s, d, g) && Avoids(step, s, d, g)
    ensures Unmoved(s, Apply(s, step), d, g)
  {
    var items := step.items;
    var up := UpsertEach(s.rows, step.t, step.conn, items, step.now);
    var ids := Affected(s.rows, step.t, step.conn, items, step.now);
    var s1 := s.(rows := up, appended := step.appended);
    AffectedAreItems(s.rows, step.t, step.conn, items, step.now);
    OtherLandingAccount(s1, step.t, ids, step.meta, step.now, d.loadId);
    forall r | r in GroupRows(d, g)
      ensures Lookup(Apply(s, step).rows, r) == Lookup(s.rows, r)
    {
      UntouchedByOthers(s.rows, step.t, step.conn, items, step.now, r);
      assert Lookup(up, r) == Lookup(s.rows, r);
      OtherLanding(s1, step.t, ids, step.meta, step.now, r, d.loadId);
    }
  }

  lemma {:induction false} CallsKeepLoads(s: State, calls: seq<Call>)
    ensures AfterCalls(s, calls).loads == s.loads && AfterCalls(s, calls).batches == s.batches
  {
    if calls != [] {
      CallsKeepLoads(s, calls[..|calls| - 1]);
    }
  }

  lemma SendElsewhere(s: State, d: Delivery, g: string, calls: seq<Call>)
    requires forall r :: MarkedBy(calls, r) ==> r !in GroupRows(d, g)
    ensures Unmoved(s, AfterCalls(s, calls), d, g)
  {
    CallsKeepLoads(s, calls);
    CallsKeepKeys(s, calls);
    forall r | r in GroupRows(d, g) && r in s.rows
      ensures AfterCalls(s, calls).rows[r] == s.rows[r]
    {
      CallsOnRow(s, calls, r);
    }
  }

  lemma SealElsewhere(s: State, d: Delivery, g: string, l: string, total: int, now: nat)
    requires Inv(s, d, g) && l != d.loadId
    ensures Unmoved(s, SealLoad(s, l, total, now), d, g)
  {
    forall r | r in GroupRows(d, g)
      ensures Lookup(SealLoad(s, l, total, now).rows, r) == Lookup(s.rows, r)
    {
      OtherFlip(ExpectBatches(s, l, total, now), l, r);
    }
  }

  /** A row of the group has no batch id yet, so only a line item could hit it. */
  lemma CallbackElsewhere(s: State, d: Delivery, g: string, step: Step)
    requires step.CallingBack? && Enabled(s, step) && Inv(s, d, g) && Avoids(step, s, d, g)
    ensures Unmoved(s, Apply(s, step), d, g)
  {
    forall r | r in GroupRows(d, g) && r in s.rows
      ensures r in Apply(s, step).rows && Apply(s, step).rows[r] == s.rows[r]
    {
      assert Waiting(s, d, g, s.rows[r]);
      assert r !in step.patches;
    }
  }

  lemma EditElsewhere(s: State, d: Delivery, g: string, t: Template, e: RowRef, data: Data)
    requires e in s.rows && e !in GroupRows(d, g)
    ensures Unmoved(s, EditRow(s, t, e, data), d, g)
  {
  }

  lemma DeleteElsewhere(s: State, d: Delivery, g: string, step: Step)
    requires step.Deleting? && Avoids(step, s, d, g)
    ensures Unmoved(s, Apply(s, step), d, g)
  {
    forall r | r in GroupRows(d, g)
      ensures Lookup(Apply(s, step).rows, r) == Lookup(s.rows, r)
    {
      assert r in s.rows ==> !Doomed(s.rows, step.grouped, step.conn, step.ids, r);
    }
  }

  lemma ReapElsewhere(s: State, d: Delivery, g: string, now: nat, timeout: nat)
    ensures Unmoved(s, Reap(s, now, timeout), d, g)
  {
  }

  lemma AvoidingIsUnmoved(s: State, d: Delivery, g: string, step: Step)
    requires Inv(s, d, g) && Enabled(s, step) && Avoids(step, s, d, g)
    ensures Unmoved(s, Apply(s, step), d, g)
  {
    match step
    case Ingesting(_, _, _, _, _, _) => IngestElsewhere(s, d, g, step);
    case Sealing(l, total, now) => SealElsewhere(s, d, g, l, total, now);
    case Editing(t, r, data) => EditElsewhere(s, d, g, t, r, data);
    case Sending(calls) => SendElsewhere(s, d, g, calls);
    case CallingBack(_, _, _) => CallbackElsewhere(s, d, g, step);
    case Deleting(_, _, _) => DeleteElsewhere(s, d, g, step);
    case Reaping(now, timeout) => ReapElsewhere(s, d, g, now, timeout);
  }

  // -------------------------------------------------------------- main result

  /** What may happen before the group is first sent. */
  datatype Move = Own(e: LoadEvent) | Pass(calls: seq<Call>, limit: int, conn: string) | Other(step: Step)

  ghost predicate Moves(s: State, m: Move, s': State, d: Delivery, g: string, id: RowRef -> string) {
    match m
    case Own(e) => d.Owns(e) && s' == Deliver(s, d, e)
    case Pass(calls, limit, conn) => IsPass(s, calls, id, limit, conn) && s' == AfterCalls(s, calls)
    case Other(step) => Enabled(s, step) && Avoids(step, s, d, g) && s' == Apply(s, step)
  }

  ghost predicate IsHistory(states: seq<State>, moves: seq<Move>, d: Delivery, g: string, id: RowRef -> string) {
    |states| == |moves| + 1 && forall k :: 0 <= k < |moves| ==> Moves(states[k], moves[k], states[k + 1], d, g, id)
  }

  /** The pass takes a row of the group. */
  ghost predicate Takes(s: State, m: Move, d: Delivery, g: string, id: RowRef -> string) {
    m.Pass? && exists r :: r in GroupRows(d, g) && r in Chosen(CandidatesOf(s.rows, id, m.conn), m.limit)
  }

  lemma MoveKeepsInv(s: State, m: Move, s': State, d: Delivery, g: string, id: RowRef -> string)
    requires d.Valid() && OneGroupPerRow(d) && Inv(s, d, g)
    requires Moves(s, m, s', d, g, id) && !Takes(s, m, d, g, id)
    ensures Inv(s', d, g)
  {
    match m
    case Own(e) => OwnKeepsInv(s, d, g, e);
    case Pass(calls, limit, conn) =>
      SendElsewhere(s, d, g, calls);
      UnmovedKeepsInv(s, s', d, g);
    case Other(step) =>
      AvoidingIsUnmoved(s, d, g, step);
      UnmovedKeepsInv(s, s', d, g);
  }

  lemma {:induction false} InvUntilFirstSend(states: seq<State>, moves: seq<Move>, d: Delivery, g: string, id: RowRef -> string, k: nat)
    requires d.Valid() && OneGroupPerRow(d) && IsHistory(states, moves, d, g, id) && Inv(states[0], d, g)
    requires k <= |moves| && forall j :: 0 <= j < k ==> !Takes(states[j], moves[j], d, g, id)
    ensures Inv(states[k], d, g)
  {
    if k > 0 {
      InvUntilFirstSend(states, moves, d, g, id, k - 1);
      MoveKeepsInv(states[k - 1], moves[k - 1], states[k], d, g, id);
    }
  }

  /** Before the load and its rows are there, the invariant holds. */
  lemma FreshStart(s: State, d: Delivery, g: string)
    requires Untouched(s, d.loadId) && forall r :: r in GroupRows(d, g) ==> r !in s.rows
    ensures Inv(s, d, g)
  {
  }

  lemma SweepTakesAll(s: State, d: Delivery, g: string, id: RowRef -> string, limit: int, conn: string, r: RowRef, q: RowRef)
    requires Inv(s, d, g) && r in GroupRows(d, g) && q in GroupRows(d, g)
    requires r in Chosen(CandidatesOf(s.rows, id, conn), limit)
    ensures Sealed(s, d.loadId) && q in Chosen(CandidatesOf(s.rows, id, conn), limit)
    ensures q in s.rows && s.rows[q].status == Some(QUEUED) && s.rows[q].conn == d.conn && s.rows[q].groupId == Some(g)
  {
    var c := CandidatesOf(s.rows, id, conn);
    assert Waiting(s, d, g, s.rows[r]);
    assert Sealed(s, d.loadId);
    assert q in s.rows;
    assert Waiting(s, d, g, s.rows[q]);
    assert q in c && c[q].grp == g && c[r].grp == g;
    WholeGroupsInOrder(c, limit, r, q);
  }

  /** A pass takes every row of the group, queued under a sealed load for one connection, phase and group. */
  ghost predicate TakesWholeGroup(s: State, m: Move, d: Delivery, g: string, id: RowRef -> string)
    requires m.Pass?
  {
    && Sealed(s, d.loadId)
    && forall q :: q in GroupRows(d, g) ==>
         && q in Chosen(CandidatesOf(s.rows, id, m.conn), m.limit) && MarkedBy(m.calls, q)
         && q in s.rows && s.rows[q].status == Some(QUEUED) && s.rows[q].conn == d.conn && s.rows[q].groupId == Some(g)
  }

  lemma PassTakesWholeGroup(s: State, m: Move, s': State, d: Delivery, g: string, id: RowRef -> string)
    requires Inv(s, d, g) && Moves(s, m, s', d, g, id) && Takes(s, m, d, g, id)
    ensures TakesWholeGroup(s, m, d, g, id)
  {
    var r :| r in GroupRows(d, g) && r in Chosen(CandidatesOf(s.rows, id, m.conn), m.limit);
    forall q | q in GroupRows(d, g)
      ensures Sealed(s, d.loadId) && q in Chosen(CandidatesOf(s.rows, id, m.conn), m.limit)
      ensures q in s.rows && s.rows[q].status == Some(QUEUED) && s.rows[q].conn == d.conn && s.rows[q].groupId == Some(g)
    {
      SweepTakesAll(s, d, g, id, m.limit, m.conn, r, q);
    }
  }

  /**
   * Main result: in any history in which the group's rows come in through their
   * load alone, the first pass that takes one of them takes them all.
   */
  lemma FirstPassTakesTheWholeGroup(states: seq<State>, moves: seq<Move>, d: Delivery, g: string, id: RowRef -> string, k: nat)
    requires d.Valid() && OneGroupPerRow(d) && IsHistory(states, moves, d, g, id)
    requires Untouched(states[0], d.loadId) && forall r :: r in GroupRows(d, g) ==> r !in states[0].rows
    requires k < |moves| && Takes(states[k], moves[k], d, g, id)
    requires forall j :: 0 <= j < k ==> !Takes(states[j], moves[j], d, g, id)
    ensures TakesWholeGroup(states[k], moves[k], d, g, id)
  {
    FreshStart(states[0], d, g);
    InvUntilFirstSend(states, moves, d, g, id, k);
    PassTakesWholeGroup(states[k], moves[k], states[k + 1], d, g, id);
  }

  // --------------------------------------------------------------- its calls

  /** A row as the sweep's query returns it, its group id being the digest of the grouping texts. */
  function FetchedOf(md5: string -> string, rows: Table, groupBy: seq<string>, r: RowRef): WriteBatch.Fetched
    requires r in rows
  {
    WriteBatch.Fetched(r, rows[r].conn, match rows[r].groupId case Some(g) => Some(md5(g)) case None => None,
                       rows[r].status, GroupTexts(groupBy, rows[r].data))
  }

  ghost predicate IsMd5(md5: string -> string) {
    forall g :: WriteBatch.IsDigest(md5(g))
  }

  /** The list `partitionAndSubmit` works on: the chosen rows as stored. */
  ghost predicate IsFetched(md5: string -> string, s: State, m: Move, id: RowRef -> string,
                            groupBy: seq<string>, fetched: seq<WriteBatch.Fetched>)
    requires m.Pass?
  {
    && (forall x :: x in fetched ==> x.ref in s.rows && x == FetchedOf(md5, s.rows, groupBy, x.ref))
    && (forall r :: r in Chosen(CandidatesOf(s.rows, id, m.conn), m.limit) && r in s.rows ==> FetchedOf(md5, s.rows, groupBy, r) in fetched)
  }

  lemma GroupIsOneBucket(md5: string -> string, s: State, m: Move, d: Delivery, g: string, id: RowRef -> string,
                         groupBy: seq<string>, r: RowRef, q: RowRef)
    requires m.Pass? && TakesWholeGroup(s, m, d, g, id) && r in GroupRows(d, g) && q in GroupRows(d, g)
    ensures r in s.rows && q in s.rows
    ensures WriteBatch.SameBucket(groupBy, FetchedOf(md5, s.rows, groupBy, r), FetchedOf(md5, s.rows, groupBy, q))
    ensures WriteBatch.PhaseOf(FetchedOf(md5, s.rows, groupBy, q)) == WriteBatch.Create
  {
  }

  lemma {:induction false} GroupTextsLength(groupBy: seq<string>, data: Data)
    ensures |GroupTexts(groupBy, data)| == |groupBy|
  {
    if groupBy != [] {
      GroupTextsLength(groupBy[1..], data);
    }
  }

  lemma FetchedIsWellKeyed(md5: string -> string, s: State, m: Move, id: RowRef -> string,
                           groupBy: seq<string>, fetched: seq<WriteBatch.Fetched>)
    requires m.Pass? && IsMd5(md5) && IsFetched(md5, s, m, id, groupBy, fetched) && WriteBatch.AreColumns(groupBy)
    ensures WriteBatch.WellKeyed(groupBy, fetched)
  {
    forall x | x in fetched
      ensures WriteBatch.IsStored(groupBy, x)
    {
      GroupTextsLength(groupBy, s.rows[x.ref].data);
    }
  }

  /**
   * Main result: in a table that combines its groups, the call of that pass that
   * marks one row of the group marks them all.
   */
  lemma WholeGroupGoesInOneCall(md5: string -> string, b: WriteBatch.Batching, members: WriteBatch.MembersOf,
                                fetched: seq<WriteBatch.Fetched>, subs: seq<WriteBatch.Submission>, sub: WriteBatch.Submission,
                                s: State, m: Move, d: Delivery, g: string, id: RowRef -> string, r: RowRef, q: RowRef)
    requires m.Pass? && TakesWholeGroup(s, m, d, g, id) && IsMd5(md5) && IsFetched(md5, s, m, id, b.groupBy, fetched)
    requires WriteBatch.Submitted(b.groupBy, b, members, fetched, WriteBatch.Keys(b.groupBy, fetched), subs) && sub in subs
    requires WriteBatch.AreColumns(b.groupBy) && b.collapse
    requires r in GroupRows(d, g) && q in GroupRows(d, g) && r in sub.marked
    ensures q in sub.marked
  {
    GroupIsOneBucket(md5, s, m, d, g, id, b.groupBy, r, q);
    FetchedIsWellKeyed(md5, s, m, id, b.groupBy, fetched);
    var x, y := FetchedOf(md5, s.rows, b.groupBy, r), FetchedOf(md5, s.rows, b.groupBy, q);
    assert x.group == Some(md5(g)) && WriteBatch.IsDigest(md5(g));
    WriteBatch.CombinedCallTakesTheBucket(b.groupBy, b, members, fetched, subs, sub, x, y);
  }

  lemma MarkedRowIsOfTheCall(md5: string -> string, b: WriteBatch.Batching, members: WriteBatch.MembersOf,
                             fetched: seq<WriteBatch.Fetched>, sub: WriteBatch.Submission, k: string,
                             s: State, m: Move, id: RowRef -> string, first: WriteBatch.Fetched, r: RowRef)
    requires m.Pass? && IsMd5(md5) && IsFetched(md5, s, m, id, b.groupBy, fetched) && WriteBatch.AreColumns(b.groupBy)
    requires WriteBatch.FirstWith(b.groupBy, fetched, k) == Some(first)
    requires first in fetched && WriteBatch.PartKey(b.groupBy, first) == k
    requires WriteBatch.SentFor(b, members, first, WriteBatch.RowsWith(b.groupBy, fetched, k), sub) && r in sub.marked
    ensures r in s.rows && s.rows[r].conn == sub.conn && (sub.phase.Update? <==> s.rows[r].status == Some("revisado"))
    ensures s.rows[r].groupId.Some? ==> first.group == Some(md5(s.rows[r].groupId.value))
  {
    FetchedIsWellKeyed(md5, s, m, id, b.groupBy, fetched);
    var x := WriteBatch.RowOf(b.groupBy, fetched, k, r);
    WriteBatch.KeySeparates(b.groupBy, x, first);
  }

  /**
   * Main result: the rows a sweep's call marks are stored on the connection it goes out
   * through, all edited or all new as its phase says, and of one group where they have groups.
   */
  lemma CallIsOfItsRows(md5: string -> string, b: WriteBatch.Batching, members: WriteBatch.MembersOf,
                        fetched: seq<WriteBatch.Fetched>, subs: seq<WriteBatch.Submission>, sub: WriteBatch.Submission,
                        s: State, m: Move, id: RowRef -> string, r: RowRef, q: RowRef)
    requires m.Pass? && IsMd5(md5) && IsFetched(md5, s, m, id, b.groupBy, fetched) && WriteBatch.AreColumns(b.groupBy)
    requires WriteBatch.Submitted(b.groupBy, b, members, fetched, WriteBatch.Keys(b.groupBy, fetched), subs) && sub in subs
    requires r in sub.marked && q in sub.marked
    ensures r in s.rows && s.rows[r].conn == sub.conn && (sub.phase.Update? <==> s.rows[r].status == Some("revisado"))
    ensures q in s.rows && s.rows[q].groupId.Some? && s.rows[r].groupId.Some? ==>
              md5(s.rows[q].groupId.value) == md5(s.rows[r].groupId.value)
  {
    var k, first := WriteBatch.BucketOf(b.groupBy, b, members, fetched, subs, sub);
    MarkedRowIsOfTheCall(md5, b, members, fetched, sub, k, s, m, id, first, r);
    MarkedRowIsOfTheCall(md5, b, members, fetched, sub, k, s, m, id, first, q);
  }
}
