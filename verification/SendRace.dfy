/**
 * Between the fetch of a sweep or force-submit and the commit of its outcome
 * anything may happen: when the commit still respects accepted rows.
 */
module SendRace {
  import opened Text
  import opened Rows
  import opened Upserts
  import opened Statements
  import opened Ingest
  import opened TableRowsService
  import opened Lifecycle

  predicate AcceptedAt(s: State, r: RowRef) {
    r in s.rows && IsCorrecto(s.rows[r].status)
  }

  /** The step is a callback by which the row becomes accepted. */
  predicate Accepts(s: State, step: Step, r: RowRef)
    requires Enabled(s, step)
  {
    step.CallingBack? && r in s.rows && !AcceptedAt(s, r) && AcceptedAt(Apply(s, step), r)
  }

  // ------------------------------------------------- only callbacks accept rows

  lemma {:induction false} UpsertsAcceptNothing(rows: Table, t: Template, conn: string, items: seq<Item>, now: nat, r: RowRef)
    requires r in UpsertEach(rows, t, conn, items, now) && IsCorrecto(UpsertEach(rows, t, conn, items, now)[r].status)
    ensures r in rows && IsCorrecto(rows[r].status)
  {
    if items != [] {
      UpsertsAcceptNothing(rows, t, conn, items[..|items| - 1], now, r);
    }
  }

  predicate IsInternal(status: Option<string>) {
    status == Some(QUEUED) || status == Some(STAGED) || status == Some(REVISADO) || status == Some(PENDING)
  }

  lemma AcceptedIsNotInternal(status: Option<string>)
    requires IsCorrecto(status)
    ensures !IsInternal(status)
  {
    QueuedIsNotCorrecto();
  }

  /** A row keeps its status or gets one of the service's own. */
  predicate InternalChange(a: Table, b: Table, r: RowRef) {
    r in b ==> r in a && (b[r].status == a[r].status || IsInternal(b[r].status))
  }

  lemma InternalAcceptsNothing(a: Table, b: Table, r: RowRef)
    requires InternalChange(a, b, r) && r in b && IsCorrecto(b[r].status)
    ensures r in a && IsCorrecto(a[r].status)
  {
    AcceptedIsNotInternal(b[r].status);
  }

  lemma FlipIsInternal(s: State, l: string, r: RowRef)
    ensures InternalChange(s.rows, Statements.FlipLoadIfComplete(s, l).rows, r)
  {
  }

  lemma BatchIsInternal(s: State, t: Template, ids: set<RowRef>, m: LoadMeta, now: nat, r: RowRef)
    ensures InternalChange(s.rows, Statements.StageLoadRows(s, t, ids, m, now).rows, r)
  {
    var s1 := EnsureLoad(s, m.loadId, now);
    if !s1.loads[m.loadId].sealed {
      var s2 := RegisterBatch(s1.(rows := Statements.MarkStaged(s1.rows, t, ids, m.loadId)), m.loadId, m.batchIndex);
      FlipIsInternal(s2, m.loadId, r);
    }
  }

  lemma LandingIsInternal(s: State, t: Template, ids: set<RowRef>, meta: Option<LoadMeta>, now: nat, r: RowRef)
    ensures InternalChange(s.rows, Statements.LandRows(s, t, ids, meta, now).rows, r)
  {
    if meta.Some? && meta.value.loadId != "" {
      BatchIsInternal(s, t, ids, meta.value, now, r);
    }
  }

  lemma {:induction false} CallsAreInternal(s: State, calls: seq<Call>, r: RowRef)
    ensures InternalChange(s.rows, AfterCalls(s, calls).rows, r)
  {
    if calls != [] {
      CallsAreInternal(s, calls[..|calls| - 1], r);
    }
  }

  lemma EditIsInternal(s: State, t: Template, e: RowRef, d: Data, r: RowRef)
    requires e in s.rows
    ensures InternalChange(s.rows, EditRow(s, t, e, d).rows, r)
  {
  }

  lemma IngestAcceptsNothing(s: State, step: Step, r: RowRef)
    requires step.Ingesting? && AcceptedAt(Apply(s, step), r)
    ensures AcceptedAt(s, r)
  {
    var s1 := s.(rows := UpsertEach(s.rows, step.t, step.conn, step.items, step.now), appended := step.appended);
    LandingIsInternal(s1, step.t, Affected(s.rows, step.t, step.conn, step.items, step.now), step.meta, step.now, r);
    InternalAcceptsNothing(s1.rows, Apply(s, step).rows, r);
    UpsertsAcceptNothing(s.rows, step.t, step.conn, step.items, step.now, r);
  }

  lemma OtherStepsAreInternal(s: State, step: Step, r: RowRef)
    requires Enabled(s, step) && !step.Ingesting? && !step.CallingBack?
    ensures InternalChange(s.rows, Apply(s, step).rows, r)
  {
    match step
    case Sealing(l, total, now) => FlipIsInternal(ExpectBatches(s, l, total, now), l, r);
    case Editing(t, e, d) => EditIsInternal(s, t, e, d, r);
    case Sending(calls) => CallsAreInternal(s, calls, r);
    case _ =>
  }

  /** A row becomes accepted by a callback and by nothing else. */
  lemma OnlyCallbacksAccept(s: State, step: Step, r: RowRef)
    requires Enabled(s, step) && AcceptedAt(Apply(s, step), r) && !AcceptedAt(s, r)
    ensures Accepts(s, step, r)
  {
    if step.Ingesting? {
      IngestAcceptsNothing(s, step, r);
    } else if !step.CallingBack? {
      OtherStepsAreInternal(s, step, r);
      InternalAcceptsNothing(s.rows, Apply(s, step).rows, r);
    }
  }

  // ----------------------------------------------------- from fetch to commit

  /** The row is there after each of the steps from `k` on. */
  predicate Stays(states: seq<State>, k: nat, r: RowRef) {
    forall j :: k <= j < |states| ==> r in states[j].rows
  }

  /** A callback accepts the row on the way, and it is not deleted after. */
  ghost predicate AcceptedOnTheWay(states: seq<State>, steps: seq<Step>, r: RowRef)
    requires IsRun(states, steps)
  {
    exists k :: 0 <= k < |steps| && Accepts(states[k], steps[k], r) && Stays(states, k + 1, r)
  }

  lemma {:induction false} AcceptanceHasACallback(states: seq<State>, steps: seq<Step>, r: RowRef, n: nat) returns (k: nat)
    requires IsRun(states, steps) && n < |states| && !AcceptedAt(states[0], r) && AcceptedAt(states[n], r)
    ensures k < n && Accepts(states[k], steps[k], r)
    ensures forall j :: k < j <= n ==> r in states[j].rows
  {
    if AcceptedAt(states[n - 1], r) {
      k := AcceptanceHasACallback(states, steps, r, n - 1);
    } else {
      k := n - 1;
      OnlyCallbacksAccept(states[k], steps[k], r);
    }
  }

  lemma AcceptedAtTheEnd(states: seq<State>, steps: seq<Step>, r: RowRef)
    requires IsRun(states, steps) && !AcceptedAt(states[0], r)
    ensures AcceptedAt(states[|steps|], r) <==> AcceptedOnTheWay(states, steps, r)
  {
    if AcceptedAt(states[|steps|], r) {
      var k := AcceptanceHasACallback(states, steps, r, |steps|);
      assert Stays(states, k + 1, r);
    } else if AcceptedOnTheWay(states, steps, r) {
      var k :| 0 <= k < |steps| && Accepts(states[k], steps[k], r) && Stays(states, k + 1, r);
      CorrectoIsFinal(states, steps, r, k + 1, |steps|);
    }
  }

  /**
   * Main result: whatever runs between the fetch of some sendable rows and the
   * commit of their send, the commit keeps every accepted row if and only if no
   * callback accepted one of the fetched rows on the way.
   */
  lemma CommitKeepsAcceptedIffNoneOnTheWay(states: seq<State>, steps: seq<Step>, ids: set<RowRef>,
                                           batchId: string, sent: bool, error: Option<string>)
    requires IsRun(states, steps)
    requires forall r :: r in ids ==> r in states[0].rows && Sendable(states[0].rows[r].status)
    ensures var end := states[|steps|];
            AcceptedKept(end.rows, CommitOutcome(end, ids, batchId, sent, error).rows)
            <==> forall r :: r in ids ==> !AcceptedOnTheWay(states, steps, r)
  {
    var end := states[|steps|];
    MarkingKeepsAcceptedIffNoneNamed(end.rows, ids, batchId, sent, error);
    forall r | r in ids
      ensures AcceptedAt(end, r) <==> AcceptedOnTheWay(states, steps, r)
    {
      AcceptedAtTheEnd(states, steps, r);
    }
  }

  // ------------------------------------------------------ a run that loses one

  /** A row sent once and waiting for its result. */
  function InFlight(t: Template, conn: string, d: Data, batchId: string): Row
    requires t.write.Some?
  {
    Requeued(NewRow(conn, d, 0), t.write.value, QUEUED).(status := Some(PENDING), writeStatus := Some(Sent), batchId := Some(batchId))
  }

  /** A row comes in and is sent; a force-submit fetches it, and then the first result accepts it. */
  function RaceSteps(t: Template, conn: string, r: RowRef, d: Data, result: VendorItem): seq<Step> {
    [Ingesting(t, conn, [Item(r, d)], 0, None, 0),
     Sending([Call({r}, "b1", true, None)]),
     CallingBack(map[r := result], map[], map[])]
  }

  function RaceStates(t: Template, conn: string, r: RowRef, d: Data, result: VendorItem): seq<State>
    requires t.write.Some?
  {
    var row := InFlight(t, conn, d, "b1");
    var spooled := EMPTY.(outbox := [Event("b1", true, {r})]);
    [EMPTY,
     EMPTY.(rows := map[r := Requeued(NewRow(conn, d, 0), t.write.value, QUEUED)]),
     spooled.(rows := map[r := row]),
     spooled.(rows := map[r := row.(status := Some(result.status), response := Some(result.raw))])]
  }

  lemma FirstRaceStep(t: Template, conn: string, r: RowRef, d: Data)
    requires t.write.Some?
    ensures IngestTx(EMPTY, t, conn, [Item(r, d)], 0, None, 0)
         == EMPTY.(rows := map[r := Requeued(NewRow(conn, d, 0), t.write.value, QUEUED)])
  {
    var items := [Item(r, d)];
    assert items[..0] == [];
    assert UpsertEach(map[], t, conn, items, 0) == map[r := NewRow(conn, d, 0)];
    assert Affected(map[], t, conn, items, 0) == {r};
  }

  lemma OneCall(s: State, c: Call)
    ensures AfterCalls(s, [c]) == CommitOutcome(s, c.ids, c.batchId, c.sent, c.error)
  {
    assert [c][..0] == [];
  }

  lemma SecondRaceStep(t: Template, conn: string, r: RowRef, d: Data)
    requires t.write.Some?
    ensures AfterCalls(EMPTY.(rows := map[r := Requeued(NewRow(conn, d, 0), t.write.value, QUEUED)]), [Call({r}, "b1", true, None)])
         == EMPTY.(rows := map[r := InFlight(t, conn, d, "b1")], outbox := [Event("b1", true, {r})])
  {
    OneCall(EMPTY.(rows := map[r := Requeued(NewRow(conn, d, 0), t.write.value, QUEUED)]), Call({r}, "b1", true, None));
  }

  lemma ThirdRaceStep(s: State, r: RowRef, row: Row, result: VendorItem)
    requires s.rows == map[r := row] && !IsCorrecto(row.status) && row.batchId.Some?
    ensures Callback(s, map[r := result], map[], map[])
         == s.(rows := map[r := row.(status := Some(result.status), response := Some(result.raw))])
  {
  }

  lemma InternalIsSendable(status: Option<string>)
    requires status == Some(QUEUED) || status == Some(PENDING)
    ensures Sendable(status) && !IsCorrecto(status)
  {
    QueuedIsNotCorrecto();
  }

  /** The k-th step of the race is enabled and leads to the next state. */
  predicate RaceGoesOn(t: Template, conn: string, r: RowRef, d: Data, result: VendorItem, k: nat)
    requires t.write.Some? && k < 3
  {
    var states, steps := RaceStates(t, conn, r, d, result), RaceSteps(t, conn, r, d, result);
    GoesOn(states[k], steps[k], states[k + 1])
  }

  lemma RaceBegins(t: Template, conn: string, r: RowRef, d: Data, result: VendorItem)
    requires t.write.Some?
    ensures RaceGoesOn(t, conn, r, d, result, 0)
  {
    FirstRaceStep(t, conn, r, d);
  }

  lemma RaceSends(t: Template, conn: string, r: RowRef, d: Data, result: VendorItem)
    requires t.write.Some?
    ensures RaceGoesOn(t, conn, r, d, result, 1)
  {
    InternalIsSendable(Some(QUEUED));
    SecondRaceStep(t, conn, r, d);
  }

  lemma RaceIsAnswered(t: Template, conn: string, r: RowRef, d: Data, result: VendorItem)
    requires t.write.Some?
    ensures RaceGoesOn(t, conn, r, d, result, 2)
  {
    InternalIsSendable(Some(PENDING));
    ThirdRaceStep(RaceStates(t, conn, r, d, result)[2], r, InFlight(t, conn, d, "b1"), result);
  }

  lemma RaceIsRun(t: Template, conn: string, r: RowRef, d: Data, result: VendorItem)
    requires t.write.Some?
    ensures IsRun(RaceStates(t, conn, r, d, result), RaceSteps(t, conn, r, d, result))
  {
    RaceBegins(t, conn, r, d, result);
    RaceSends(t, conn, r, d, result);
    RaceIsAnswered(t, conn, r, d, result);
    RunOfThree(RaceStates(t, conn, r, d, result), RaceSteps(t, conn, r, d, result));
  }

  predicate GoesOn(s: State, step: Step, s': State) {
    Enabled(s, step) && s' == Apply(s, step)
  }

  lemma RunOfThree(states: seq<State>, steps: seq<Step>)
    requires |states| == 4 && |steps| == 3
    requires GoesOn(states[0], steps[0], states[1]) && GoesOn(states[1], steps[1], states[2]) && GoesOn(states[2], steps[2], states[3])
    ensures IsRun(states, steps)
  {
    forall i | 0 <= i < |steps|
      ensures Enabled(states[i], steps[i]) && states[i + 1] == Apply(states[i], steps[i])
    {
      if i == 0 {
        assert GoesOn(states[0], steps[0], states[1]);
      } else if i == 1 {
        assert GoesOn(states[1], steps[1], states[2]);
      } else {
        assert GoesOn(states[2], steps[2], states[3]);
      }
    }
  }

  /**
   * The race happens: in every table that sends, every row can be accepted between
   * the fetch and the commit of a force-submit, which then overwrites it.
   */
  lemma AcceptanceIsOverwritten(t: Template, conn: string, r: RowRef, d: Data, result: VendorItem)
    requires t.write.Some? && IsCorrecto(Some(result.status))
    ensures var states, steps := RaceStates(t, conn, r, d, result), RaceSteps(t, conn, r, d, result);
            && IsRun(states, steps) && states[0] == EMPTY
            && r in states[2].rows && Sendable(states[2].rows[r].status)
            && AcceptedAt(states[3], r)
            && !AcceptedAt(CommitOutcome(states[3], {r}, "b2", true, None), r)
  {
    RaceIsRun(t, conn, r, d, result);
    InternalIsSendable(Some(PENDING));
  }
}
