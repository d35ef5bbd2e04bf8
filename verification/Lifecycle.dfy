/**
 * The satellite as a state machine: every committed operation is one step, and
 * what holds after any number of them, in any order.
 */
module Lifecycle {
  import opened Text
  import opened Rows
  import opened Upserts
  import opened Statements
  import opened Ingest
  import opened TableRowsService

  /** The committed outcome of one outbound call. */
  datatype Call = Call(ids: set<RowRef>, batchId: string, sent: bool, error: Option<string>)

  datatype Step =
    | Ingesting(t: Template, conn: string, items: seq<Item>, appended: nat, meta: Option<LoadMeta>, now: nat)
    | Sealing(loadId: string, total: int, now: nat)
    | Editing(t: Template, r: RowRef, d: Data)
    | Sending(calls: seq<Call>)
    | CallingBack(line: map<RowRef, VendorItem>, batch: map<string, VendorItem>, patches: map<RowRef, Data>)
    | Deleting(grouped: bool, conn: string, ids: set<RowRef>)
    | Reaping(now: nat, timeout: nat)

  function AfterCalls(s: State, calls: seq<Call>): State {
    if calls == [] then s
    else
      var c := calls[|calls| - 1];
      CommitOutcome(AfterCalls(s, calls[..|calls| - 1]), c.ids, c.batchId, c.sent, c.error)
  }

  /**
   * What the guards of the operations let through: an edit needs a row that is
   * not accepted, a sweep or force-submit sends rows that were sendable when it
   * fetched them, an error patch goes to rows the callback hit.
   */
  predicate Enabled(s: State, step: Step) {
    match step
    case Editing(t, r, d) => r in s.rows && !IsCorrecto(s.rows[r].status)
    case Sending(calls) =>
      forall c, r :: c in calls && r in c.ids && r in s.rows ==> Sendable(s.rows[r].status)
    case CallingBack(line, batch, patches) =>
      forall r :: r in patches ==> Hit(s.rows, line, batch, r)
    case _ => true
  }

  function Apply(s: State, step: Step): State
    requires Enabled(s, step)
  {
    match step
    case Ingesting(t, conn, items, appended, meta, now) => IngestTx(s, t, conn, items, appended, meta, now)
    case Sealing(l, total, now) => SealLoad(s, l, total, now)
    case Editing(t, r, d) => EditRow(s, t, r, d)
    case Sending(calls) => AfterCalls(s, calls)
    case CallingBack(line, batch, patches) => Callback(s, line, batch, patches)
    case Deleting(grouped, conn, ids) => DeleteRows(s, grouped, conn, ids)
    case Reaping(now, timeout) => Reap(s, now, timeout)
  }

  const EMPTY: State := State(map[], map[], map[], [], 0)

  /** A run: consecutive states joined by enabled steps. */
  ghost predicate IsRun(states: seq<State>, steps: seq<Step>) {
    |states| == |steps| + 1 &&
    forall i :: 0 <= i < |steps| ==> Enabled(states[i], steps[i]) && states[i + 1] == Apply(states[i], steps[i])
  }

  /** No operation is kept from running by more than its own guard. */
  lemma GuardsLetThrough(s: State, t: Template, r: RowRef, d: Data,
                         line: map<RowRef, VendorItem>, batch: map<string, VendorItem>, patches: map<RowRef, Data>)
    ensures r in s.rows && (s.rows[r].status.Some? ==> Lower(s.rows[r].status.value) != "correcto") ==> Enabled(s, Editing(t, r, d))
    ensures (forall x :: x in patches ==> x in s.rows && x in line && !IsCorrecto(s.rows[x].status)) ==>
              Enabled(s, CallingBack(line, batch, patches))
    ensures forall conn, items, appended, meta, now :: Enabled(s, Ingesting(t, conn, items, appended, meta, now))
    ensures forall l, total, now :: Enabled(s, Sealing(l, total, now))
    ensures forall grouped, conn, ids :: Enabled(s, Deleting(grouped, conn, ids))
    ensures forall now, timeout :: Enabled(s, Reaping(now, timeout))
  {
  }

  /** Rows of the queue may always be sent. */
  lemma QueueMaySend(s: State, calls: seq<Call>)
    requires forall c, x :: c in calls && x in c.ids && x in s.rows ==> Sweepable(s.rows[x].status)
    ensures Enabled(s, Sending(calls))
  {
    QueuedIsNotCorrecto();
  }

  // ------------------------------------------------ accepted rows are frozen

  lemma {:induction false} UpsertsKeepCorrecto(rows: Table, t: Template, conn: string, items: seq<Item>, now: nat, r: RowRef)
    requires r in rows && IsCorrecto(rows[r].status)
    ensures r in UpsertEach(rows, t, conn, items, now) && UpsertEach(rows, t, conn, items, now)[r] == rows[r]
    ensures r !in Affected(rows, t, conn, items, now)
  {
    if items != [] {
      UpsertsKeepCorrecto(rows, t, conn, items[..|items| - 1], now, r);
    }
  }

  lemma FlipKeepsUnstaged(s: State, l: string, r: RowRef)
    requires r in s.rows && s.rows[r].status != Some(STAGED)
    ensures r in FlipLoadIfComplete(s, l).rows && FlipLoadIfComplete(s, l).rows[r] == s.rows[r]
  {
  }

  lemma StagingKeepsOthers(s: State, t: Template, ids: set<RowRef>, m: LoadMeta, now: nat, r: RowRef)
    requires r in s.rows && r !in ids && s.rows[r].status != Some(STAGED)
    ensures r in StageLoadRows(s, t, ids, m, now).rows && StageLoadRows(s, t, ids, m, now).rows[r] == s.rows[r]
  {
    var s1 := EnsureLoad(s, m.loadId, now);
    if !s1.loads[m.loadId].sealed {
      var s2 := s1.(rows := MarkStaged(s1.rows, t, ids, m.loadId));
      assert r in s2.rows && s2.rows[r] == s.rows[r];
      FlipKeepsUnstaged(RegisterBatch(s2, m.loadId, m.batchIndex), m.loadId, r);
    }
  }

  lemma LandingKeepsOthers(s: State, t: Template, ids: set<RowRef>, meta: Option<LoadMeta>, now: nat, r: RowRef)
    requires r in s.rows && r !in ids && s.rows[r].status != Some(STAGED)
    ensures r in LandRows(s, t, ids, meta, now).rows && LandRows(s, t, ids, meta, now).rows[r] == s.rows[r]
  {
    if meta.Some? && meta.value.loadId != "" {
      StagingKeepsOthers(s, t, ids, meta.value, now, r);
    }
  }

  lemma {:induction false} CallsKeepOthers(s: State, calls: seq<Call>, r: RowRef)
    requires r in s.rows && forall c :: c in calls ==> r !in c.ids
    ensures r in AfterCalls(s, calls).rows && AfterCalls(s, calls).rows[r] == s.rows[r]
  {
    if calls != [] {
      CallsKeepOthers(s, calls[..|calls| - 1], r);
    }
  }

  lemma CallbackKeepsCorrecto(s: State, line: map<RowRef, VendorItem>, batch: map<string, VendorItem>,
                              patches: map<RowRef, Data>, r: RowRef)
    requires forall x :: x in patches ==> Hit(s.rows, line, batch, x)
    requires r in s.rows && IsCorrecto(s.rows[r].status)
    ensures r in Callback(s, line, batch, patches).rows && Callback(s, line, batch, patches).rows[r] == s.rows[r]
  {
    assert r !in patches;
  }

  lemma EditKeepsOthers(s: State, t: Template, e: RowRef, d: Data, r: RowRef)
    requires e in s.rows && r in s.rows && r != e
    ensures r in EditRow(s, t, e, d).rows && EditRow(s, t, e, d).rows[r] == s.rows[r]
  {
  }

  lemma SealKeepsUnstaged(s: State, l: string, total: int, now: nat, r: RowRef)
    requires r in s.rows && s.rows[r].status != Some(STAGED)
    ensures r in SealLoad(s, l, total, now).rows && SealLoad(s, l, total, now).rows[r] == s.rows[r]
  {
  }

  lemma StagedIsNotCorrecto(status: Option<string>)
    requires IsCorrecto(status)
    ensures status != Some(STAGED)
  {
    QueuedIsNotCorrecto();
  }

  /** One step: an accepted row stays exactly as it is, or is deleted. */
  lemma CorrectoStep(s: State, step: Step, r: RowRef)
    requires Enabled(s, step) && r in s.rows && IsCorrecto(s.rows[r].status)
    ensures r in Apply(s, step).rows ==> Apply(s, step).rows[r] == s.rows[r]
    ensures !step.Deleting? ==> r in Apply(s, step).rows
  {
    StagedIsNotCorrecto(s.rows[r].status);
    match step
    case Ingesting(t, conn, items, appended, meta, now) =>
      UpsertsKeepCorrecto(s.rows, t, conn, items, now, r);
      LandingKeepsOthers(s.(rows := UpsertEach(s.rows, t, conn, items, now), appended := appended), t,
                         Affected(s.rows, t, conn, items, now), meta, now, r);
    case Sending(calls) =>
      CallsKeepOthers(s, calls, r);
    case CallingBack(line, batch, patches) =>
      CallbackKeepsCorrecto(s, line, batch, patches, r);
    case Editing(t, e, d) =>
      EditKeepsOthers(s, t, e, d, r);
    case Sealing(l, total, now) =>
      SealKeepsUnstaged(s, l, total, now, r);
    case Deleting(_, _, _) =>
    case Reaping(_, _) =>
  }

  /** Main result: acceptance is final in status and data, over any run, until deletion. */
  lemma {:induction false} CorrectoIsFinal(states: seq<State>, steps: seq<Step>, r: RowRef, i: nat, j: nat)
    requires IsRun(states, steps) && i <= j < |states|
    requires r in states[i].rows && IsCorrecto(states[i].rows[r].status)
    requires forall k :: i <= k <= j ==> r in states[k].rows
    ensures states[j].rows[r] == states[i].rows[r]
    decreases j - i
  {
    if i < j {
      CorrectoStep(states[i], steps[i], r);
      CorrectoIsFinal(states, steps, r, i + 1, j);
    }
  }

  /** Accepted rows come out of a change of the table as they were. */
  ghost predicate AcceptedKept(a: Table, b: Table) {
    forall r :: r in a && IsCorrecto(a[r].status) ==> r in b && b[r] == a[r]
  }

  /** Marking a group does not look at the rows' status: it keeps accepted rows when none is named. */
  lemma MarkingKeepsAcceptedIffNoneNamed(rows: Table, ids: set<RowRef>, batchId: string, sent: bool, error: Option<string>)
    ensures AcceptedKept(rows, MarkGroupResult(rows, ids, batchId, sent, error))
            <==> forall r :: r in ids && r in rows ==> !IsCorrecto(rows[r].status)
  {
    QueuedIsNotCorrecto();
    forall r | r in ids && r in rows && IsCorrecto(rows[r].status)
      ensures MarkGroupResult(rows, ids, batchId, sent, error)[r] != rows[r]
    {
    }
  }

  // ---------------------------------------------- no row is stranded in staged

  /** A staged row waits for a load that exists and is still open. */
  ghost predicate StagedWaits(s: State) {
    forall r :: r in s.rows && s.rows[r].status == Some(STAGED) ==>
      s.rows[r].loadId.Some? && s.rows[r].loadId.value in s.loads && !s.loads[s.rows[r].loadId.value].sealed
  }

  /** Vendor states are not the internal staging state. */
  predicate NoVendorStaged(line: map<RowRef, VendorItem>, batch: map<string, VendorItem>) {
    (forall r :: r in line ==> line[r].status != STAGED) && (forall b :: b in batch ==> batch[b].status != STAGED)
  }

  lemma {:induction false} UpsertsKeepStaging(rows: Table, t: Template, conn: string, items: seq<Item>, now: nat)
    ensures forall r :: r in UpsertEach(rows, t, conn, items, now) ==>
              var after := UpsertEach(rows, t, conn, items, now)[r];
              if r in rows then after.status == rows[r].status && after.loadId == rows[r].loadId else after.status.None?
  {
    if items != [] {
      var before, it := items[..|items| - 1], items[|items| - 1];
      UpsertsKeepStaging(rows, t, conn, before, now);
      AffectedAreLive(rows, t, conn, before, now);
      assert UpsertEach(rows, t, conn, items, now) == Upsert(UpsertEach(rows, t, conn, before, now), t, conn, it, now);
    }
  }

  lemma FlipKeepsStagedWaits(s: State, loadId: string)
    requires StagedWaits(s)
    ensures StagedWaits(FlipLoadIfComplete(s, loadId))
  {
  }

  lemma LandingKeepsStagedWaits(s: State, t: Template, ids: set<RowRef>, meta: Option<LoadMeta>, now: nat)
    requires StagedWaits(s)
    ensures StagedWaits(LandRows(s, t, ids, meta, now))
  {
    if meta.Some? && meta.value.loadId != "" {
      var l := meta.value.loadId;
      var s1 := EnsureLoad(s, l, now);
      if !s1.loads[l].sealed {
        var s2 := RegisterBatch(s1.(rows := MarkStaged(s1.rows, t, ids, l)), l, meta.value.batchIndex);
        FlipKeepsStagedWaits(s2, l);
      }
    }
  }

  lemma CallbackKeepsStagedWaits(s: State, line: map<RowRef, VendorItem>, batch: map<string, VendorItem>, patches: map<RowRef, Data>)
    requires StagedWaits(s) && NoVendorStaged(line, batch)
    ensures StagedWaits(Callback(s, line, batch, patches))
  {
    forall r | r in s.rows
      ensures var after := Callback(s, line, batch, patches).rows[r];
              after.loadId == s.rows[r].loadId && (after.status == Some(STAGED) ==> s.rows[r].status == Some(STAGED))
    {
    }
  }

  lemma EditKeepsStagedWaits(s: State, t: Template, e: RowRef, d: Data)
    requires StagedWaits(s) && e in s.rows
    ensures StagedWaits(EditRow(s, t, e, d))
  {
  }

  lemma {:induction false} CallsKeepStagedWaits(s: State, calls: seq<Call>)
    requires StagedWaits(s)
    ensures StagedWaits(AfterCalls(s, calls))
  {
    if calls != [] {
      CallsKeepStagedWaits(s, calls[..|calls| - 1]);
    }
  }

  lemma StagedWaitsStep(s: State, step: Step)
    requires Enabled(s, step) && StagedWaits(s)
    requires step.CallingBack? ==> NoVendorStaged(step.line, step.batch)
    ensures StagedWaits(Apply(s, step))
  {
    match step
    case Ingesting(t, conn, items, appended, meta, now) =>
      UpsertsKeepStaging(s.rows, t, conn, items, now);
      LandingKeepsStagedWaits(s.(rows := UpsertEach(s.rows, t, conn, items, now), appended := appended), t,
                              Affected(s.rows, t, conn, items, now), meta, now);
    case Sealing(l, total, now) =>
      FlipKeepsStagedWaits(ExpectBatches(s, l, total, now), l);
    case Sending(calls) =>
      CallsKeepStagedWaits(s, calls);
    case CallingBack(line, batch, patches) =>
      CallbackKeepsStagedWaits(s, line, batch, patches);
    case Editing(t, e, d) =>
      EditKeepsStagedWaits(s, t, e, d);
    case Deleting(_, _, _) =>
    case Reaping(_, _) =>
  }

  /** Main result: in every reachable state a staged row's load is open, even when loads share rows. */
  lemma {:induction false} NoRowIsStranded(states: seq<State>, steps: seq<Step>, i: nat)
    requires IsRun(states, steps) && states[0] == EMPTY && i < |states|
    requires forall k :: 0 <= k < |steps| && steps[k].CallingBack? ==> NoVendorStaged(steps[k].line, steps[k].batch)
    ensures StagedWaits(states[i])
  {
    if i > 0 {
      NoRowIsStranded(states, steps, i - 1);
      StagedWaitsStep(states[i - 1], steps[i - 1]);
    }
  }

  /** A state named like the internal one strands a row of a table with that row alone. */
  lemma VendorStagedStrands(line: map<RowRef, VendorItem>, batch: map<string, VendorItem>, r: RowRef, row: Row)
    requires row.status.None? && row.loadId.None?
    requires if r in line then line[r].status == STAGED && row.batchId.None?
             else row.batchId.Some? && row.batchId.value in batch && batch[row.batchId.value].status == STAGED
    ensures var s := EMPTY.(rows := map[r := row]);
            StagedWaits(s) && !StagedWaits(Callback(s, line, batch, map[]))
  {
    var s := EMPTY.(rows := map[r := row]);
    var after := Callback(s, line, batch, map[]);
    assert r in after.rows;
    assert after.rows[r].status == Some(STAGED) && after.rows[r].loadId.None?;
  }

  /** The premise on vendor states is exact: only a state named like the internal one can break it. */
  lemma CallbackSafeIffNoVendorStaged(line: map<RowRef, VendorItem>, batch: map<string, VendorItem>)
    ensures NoVendorStaged(line, batch) <==>
            forall s | StagedWaits(s) :: StagedWaits(Callback(s, line, batch, map[]))
  {
    if NoVendorStaged(line, batch) {
      forall s | StagedWaits(s)
        ensures StagedWaits(Callback(s, line, batch, map[]))
      {
        CallbackKeepsStagedWaits(s, line, batch, map[]);
      }
    } else if r :| r in line && line[r].status == STAGED {
      VendorStagedStrands(line, batch, r, NewRow("c", map[], 0));
    } else {
      var b :| b in batch && batch[b].status == STAGED;
      var r := UnusedRef(line);
      VendorStagedStrands(line, batch, r, NewRow("c", map[], 0).(batchId := Some(b)));
    }
  }

  /** Some row identity no line item names. */
  lemma UnusedRef(line: map<RowRef, VendorItem>) returns (r: RowRef)
    ensures r !in line
  {
    var named := set x | x in line && x.Appended? :: x.n;
    var n := Above(named);
    r := Appended(n);
    assert r in line ==> n in named;
  }

  lemma {:induction false} Above(ns: set<nat>) returns (n: nat)
    ensures forall m :: m in ns ==> m < n
  {
    n := 0;
    if ns != {} {
      var x :| x in ns;
      var rest := Above(ns - {x});
      n := if rest <= x then x + 1 else rest;
      assert ns == ns - {x} + {x};
    }
  }

  // ------------------------------------------------- sends and their events

  /** At most one event per batch id. */
  predicate OneEventPerBatch(s: State) {
    forall i, j :: 0 <= i < j < |s.outbox| ==> s.outbox[i].idempotencyKey != s.outbox[j].idempotencyKey
  }

  predicate Recorded(s: State, r: RowRef)
    requires r in s.rows && s.rows[r].batchId.Some?
  {
    exists e :: e in s.outbox && e.idempotencyKey == s.rows[r].batchId.value && r in e.rowIds
                && s.rows[r].writeStatus == Some(if e.sent then Sent else Failed)
  }

  /** A row's batch id has its event, which lists the row and agrees with its write status. */
  ghost predicate BatchesAreRecorded(s: State) {
    forall r :: r in s.rows && s.rows[r].batchId.Some? ==> Recorded(s, r)
  }

  /** Batch ids are drawn fresh for every send. */
  predicate FreshBatchIds(s: State, calls: seq<Call>) {
    (forall c, e :: c in calls && e in s.outbox ==> c.batchId != e.idempotencyKey) &&
    (forall i, j :: 0 <= i < j < |calls| ==> calls[i].batchId != calls[j].batchId)
  }

  /** A row keeps its record when its send columns do not change. */
  lemma RecordSurvives(s: State, s': State, r: RowRef)
    requires r in s.rows && r in s'.rows && s'.outbox == s.outbox
    requires s'.rows[r].batchId == s.rows[r].batchId && s'.rows[r].writeStatus == s.rows[r].writeStatus
    requires s.rows[r].batchId.Some? && Recorded(s, r)
    ensures Recorded(s', r)
  {
  }

  /** Rows whose send columns a step may not invent: unchanged, or cleared. */
  ghost predicate KeepsOrClearsSends(a: Table, b: Table) {
    forall r :: r in b && b[r].batchId.Some? ==>
      r in a && a[r].batchId == b[r].batchId && a[r].writeStatus == b[r].writeStatus
  }

  lemma KeptSendsStayRecorded(s: State, s': State)
    requires OneEventPerBatch(s) && BatchesAreRecorded(s)
    requires s'.outbox == s.outbox && KeepsOrClearsSends(s.rows, s'.rows)
    ensures OneEventPerBatch(s') && BatchesAreRecorded(s')
  {
    forall r | r in s'.rows && s'.rows[r].batchId.Some?
      ensures Recorded(s', r)
    {
      RecordSurvives(s, s', r);
    }
  }

  lemma {:induction false} UpsertsKeepSends(rows: Table, t: Template, conn: string, items: seq<Item>, now: nat)
    ensures KeepsOrClearsSends(rows, UpsertEach(rows, t, conn, items, now))
  {
    if items != [] {
      UpsertsKeepSends(rows, t, conn, items[..|items| - 1], now);
    }
  }

  lemma FlipKeepsSends(s: State, l: string)
    ensures KeepsOrClearsSends(s.rows, FlipLoadIfComplete(s, l).rows) && FlipLoadIfComplete(s, l).outbox == s.outbox
  {
  }

  lemma StagingKeepsSends(rows: Table, t: Template, ids: set<RowRef>, l: string)
    ensures KeepsOrClearsSends(rows, MarkStaged(rows, t, ids, l))
  {
  }

  lemma LandingKeepsSends(s: State, t: Template, ids: set<RowRef>, meta: Option<LoadMeta>, now: nat)
    ensures KeepsOrClearsSends(s.rows, LandRows(s, t, ids, meta, now).rows)
    ensures LandRows(s, t, ids, meta, now).outbox == s.outbox
  {
    if meta.Some? && meta.value.loadId != "" {
      var l := meta.value.loadId;
      var s1 := EnsureLoad(s, l, now);
      if !s1.loads[l].sealed {
        var s2 := s1.(rows := MarkStaged(s1.rows, t, ids, l));
        StagingKeepsSends(s1.rows, t, ids, l);
        FlipKeepsSends(RegisterBatch(s2, l, meta.value.batchIndex), l);
      }
    }
  }

  lemma CommitIsRecorded(s: State, c: Call)
    requires OneEventPerBatch(s) && BatchesAreRecorded(s)
    requires forall e :: e in s.outbox ==> e.idempotencyKey != c.batchId
    ensures var s' := CommitOutcome(s, c.ids, c.batchId, c.sent, c.error);
            OneEventPerBatch(s') && BatchesAreRecorded(s')
  {
    var s' := CommitOutcome(s, c.ids, c.batchId, c.sent, c.error);
    var e := Event(c.batchId, c.sent, c.ids);
    assert s'.outbox[|s.outbox|] == e && e in s'.outbox;
    forall r | r in s'.rows && s'.rows[r].batchId.Some?
      ensures Recorded(s', r)
    {
      if r !in c.ids {
        var f :| f in s.outbox && f.idempotencyKey == s.rows[r].batchId.value && r in f.rowIds
                 && s.rows[r].writeStatus == Some(if f.sent then Sent else Failed);
        assert f in s'.outbox;
      }
    }
  }

  lemma {:induction false} CallsAreRecorded(s: State, calls: seq<Call>)
    requires OneEventPerBatch(s) && BatchesAreRecorded(s) && FreshBatchIds(s, calls)
    ensures OneEventPerBatch(AfterCalls(s, calls)) && BatchesAreRecorded(AfterCalls(s, calls))
    ensures forall e :: e in AfterCalls(s, calls).outbox ==> e in s.outbox || exists c :: c in calls && c.batchId == e.idempotencyKey
  {
    if calls != [] {
      var before, c := calls[..|calls| - 1], calls[|calls| - 1];
      assert forall b :: b in before ==> b in calls;
      CallsAreRecorded(s, before);
      forall e | e in AfterCalls(s, before).outbox
        ensures e.idempotencyKey != c.batchId
      {
        if e !in s.outbox {
          var b :| b in before && b.batchId == e.idempotencyKey;
          var i :| 0 <= i < |before| && before[i] == b;
          assert calls[i] == b;
        }
      }
      CommitIsRecorded(AfterCalls(s, before), c);
    }
  }

  /** Only a send stamps a row with a batch id or spools an event. */
  lemma StepKeepsSends(s: State, step: Step)
    requires Enabled(s, step) && !step.Sending?
    ensures KeepsOrClearsSends(s.rows, Apply(s, step).rows) && Apply(s, step).outbox == s.outbox
  {
    if step.Ingesting? {
      IngestKeepsSends(s, step);
    }
  }

  lemma IngestKeepsSends(s: State, step: Step)
    requires step.Ingesting?
    ensures KeepsOrClearsSends(s.rows, Apply(s, step).rows) && Apply(s, step).outbox == s.outbox
  {
    UpsertsKeepSends(s.rows, step.t, step.conn, step.items, step.now);
    LandingKeepsSends(s.(rows := UpsertEach(s.rows, step.t, step.conn, step.items, step.now), appended := step.appended), step.t,
                      Affected(s.rows, step.t, step.conn, step.items, step.now), step.meta, step.now);
  }

  lemma RecordsStep(s: State, step: Step)
    requires Enabled(s, step) && OneEventPerBatch(s) && BatchesAreRecorded(s)
    requires step.Sending? ==> FreshBatchIds(s, step.calls)
    ensures OneEventPerBatch(Apply(s, step)) && BatchesAreRecorded(Apply(s, step))
  {
    if step.Sending? {
      CallsAreRecorded(s, step.calls);
    } else {
      StepKeepsSends(s, step);
      KeptSendsStayRecorded(s, Apply(s, step));
    }
  }

  /**
   * Main result: in every reachable state there is one event at most per batch id,
   * and a row carrying a batch id has an event under it that lists the row and is
   * `emitida.sent` exactly when the row's write status is sent.
   */
  lemma {:induction false} EverySendHasItsEvent(states: seq<State>, steps: seq<Step>, i: nat)
    requires IsRun(states, steps) && states[0] == EMPTY && i < |states|
    requires forall k :: 0 <= k < |steps| && steps[k].Sending? ==> FreshBatchIds(states[k], steps[k].calls)
    ensures OneEventPerBatch(states[i]) && BatchesAreRecorded(states[i])
  {
    if i > 0 {
      EverySendHasItsEvent(states, steps, i - 1);
      RecordsStep(states[i - 1], steps[i - 1]);
    }
  }
}
