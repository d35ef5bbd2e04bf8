/** Passes of the scheduled sweep over the stored rows, with the sends they lead to. */
module SweepPasses {
  import opened Rows
  import opened Statements
  import opened Ingest
  import opened Lifecycle
  import opened Sweep
  import WriteBatch

  predicate MarkedBy(calls: seq<Call>, r: RowRef) {
    exists c :: c in calls && r in c.ids
  }

  /** The committed calls of one pass mark exactly the rows the cap let through. */
  ghost predicate IsPass(s: State, calls: seq<Call>, id: RowRef -> string, limit: int, conn: string) {
    forall r :: MarkedBy(calls, r) <==> r in Chosen(CandidatesOf(s.rows, id, conn), limit)
  }

  /** The calls `partitionAndSubmit` makes for the chosen rows are such a pass. */
  lemma SubmissionsArePasses(s: State, id: RowRef -> string, limit: int, conn: string,
                             columns: WriteBatch.Columns, b: WriteBatch.Batching, members: WriteBatch.MembersOf,
                             fetched: seq<WriteBatch.Fetched>, subs: seq<WriteBatch.Submission>, calls: seq<Call>)
    requires WriteBatch.Submitted(columns, b, members, fetched, WriteBatch.Keys(columns, fetched), subs)
    requires forall r :: r in WriteBatch.Refs(fetched) <==> r in Chosen(CandidatesOf(s.rows, id, conn), limit)
    requires |calls| == |subs| && forall i :: 0 <= i < |subs| ==> calls[i].ids == set r | r in subs[i].marked
    ensures IsPass(s, calls, id, limit, conn)
  {
    WriteBatch.EveryRowIsMarkedOnce(columns, b, members, fetched, subs);
    forall r
      ensures MarkedBy(calls, r) <==> r in Chosen(CandidatesOf(s.rows, id, conn), limit)
    {
      MarksAreCalls(subs, calls, r);
      assert r in WriteBatch.Refs(fetched) <==> WriteBatch.Times(WriteBatch.Refs(fetched), r) > 0;
      assert r in WriteBatch.Marks(subs) <==> WriteBatch.Times(WriteBatch.Marks(subs), r) > 0;
    }
  }

  lemma {:induction false} MarksAreCalls(subs: seq<WriteBatch.Submission>, calls: seq<Call>, r: RowRef)
    requires |calls| == |subs| && forall i :: 0 <= i < |subs| ==> calls[i].ids == set r | r in subs[i].marked
    ensures MarkedBy(calls, r) <==> r in WriteBatch.Marks(subs)
  {
    if subs != [] {
      var k := |subs| - 1;
      MarksAreCalls(subs[..k], calls[..k], r);
      assert calls == calls[..k] + [calls[k]];
    }
  }

  /** What the calls of a pass do to one row. */
  lemma {:induction false} CallsOnRow(s: State, calls: seq<Call>, r: RowRef)
    requires r in s.rows
    ensures r in AfterCalls(s, calls).rows
    ensures var was, now := s.rows[r], AfterCalls(s, calls).rows[r];
            && now.conn == was.conn && now.groupId == was.groupId && now.created == was.created
            && (!MarkedBy(calls, r) ==> now == was)
            && ((forall c :: c in calls ==> c.sent) && MarkedBy(calls, r) ==> now.status == Some(PENDING))
  {
    if calls != [] {
      var k := |calls| - 1;
      CallsOnRow(s, calls[..k], r);
      assert calls == calls[..k] + [calls[k]];
    }
  }

  lemma {:induction false} CallsKeepKeys(s: State, calls: seq<Call>)
    ensures AfterCalls(s, calls).rows.Keys == s.rows.Keys
  {
    if calls != [] {
      CallsKeepKeys(s, calls[..|calls| - 1]);
    }
  }

  /** When every send is acknowledged, a pass leaves queued what it did not take. */
  lemma AcknowledgedPass(s: State, calls: seq<Call>, id: RowRef -> string, limit: int, conn: string)
    requires IsPass(s, calls, id, limit, conn) && forall c :: c in calls ==> c.sent
    ensures CandidatesOf(AfterCalls(s, calls).rows, id, conn) == Left(CandidatesOf(s.rows, id, conn), limit)
  {
    CallsKeepKeys(s, calls);
    forall r | r in s.rows
      ensures var was, now := CandidatesOf(s.rows, id, conn), CandidatesOf(AfterCalls(s, calls).rows, id, conn);
              (r in now <==> r in was && r !in Chosen(was, limit)) && (r in now ==> now[r] == was[r])
    {
      CallsOnRow(s, calls, r);
    }
  }

  ghost predicate AcknowledgedPasses(states: seq<State>, passes: seq<seq<Call>>, id: RowRef -> string, limit: int, conn: string) {
    |states| == |passes| + 1 &&
    forall i :: 0 <= i < |passes| ==>
      && IsPass(states[i], passes[i], id, limit, conn) && (forall c :: c in passes[i] ==> c.sent)
      && states[i + 1] == AfterCalls(states[i], passes[i])
  }

  /**
   * Main result: whatever the limit, when every send is acknowledged and nothing
   * new arrives, the queue is empty after at most as many passes as it has groups.
   */
  lemma {:induction false} PassesEmptyTheQueue(states: seq<State>, passes: seq<seq<Call>>, id: RowRef -> string, limit: int, conn: string)
    requires AcknowledgedPasses(states, passes, id, limit, conn)
    requires |Groups(CandidatesOf(states[0].rows, id, conn))| <= |passes|
    ensures CandidatesOf(states[|passes|].rows, id, conn) == map[]
    decreases |passes|
  {
    var c := CandidatesOf(states[0].rows, id, conn);
    if passes == [] {
      assert forall r :: r in c ==> c[r].grp in Groups(c);
    } else {
      AcknowledgedPass(states[0], passes[0], id, limit, conn);
      if c.Keys == {} {
        NothingLeft(c, limit);
      } else {
        PassServesAGroup(c, limit);
      }
      PassesEmptyTheQueue(states[1..], passes[1..], id, limit, conn);
    }
  }

  lemma NothingLeft(c: Candidates, limit: int)
    requires c.Keys == {}
    ensures |Groups(Left(c, limit))| == 0
  {
    assert Groups(Left(c, limit)) == {};
  }

  // ------------------------------------------------- what sends really mark

  /** The outcomes recorded for these calls, in any number: each marks what one call was given. */
  ghost predicate ComeFrom(calls: seq<Call>, subs: seq<WriteBatch.Submission>) {
    forall c :: c in calls ==> exists sub :: sub in subs && c.ids == set r | r in sub.marked
  }

  /** `partitionAndSubmit` over these rows, whatever the combined payloads name beside them. */
  ghost predicate IsSendOf(calls: seq<Call>, swept: set<RowRef>) {
    exists columns, b, members, fetched, subs ::
      && WriteBatch.Submitted(columns, b, members, fetched, WriteBatch.Keys(columns, fetched), subs)
      && (forall r :: r in WriteBatch.Refs(fetched) <==> r in swept)
      && ComeFrom(calls, subs)
  }

  lemma SendMarksSwept(calls: seq<Call>, swept: set<RowRef>, c: Call, r: RowRef)
    requires IsSendOf(calls, swept) && c in calls && r in c.ids
    ensures r in swept
  {
    var columns, b, members, fetched, subs :|
      && WriteBatch.Submitted(columns, b, members, fetched, WriteBatch.Keys(columns, fetched), subs)
      && (forall x :: x in WriteBatch.Refs(fetched) <==> x in swept)
      && ComeFrom(calls, subs);
    var sub: WriteBatch.Submission :| sub in subs && c.ids == set x | x in sub.marked;
    var i :| 0 <= i < |subs| && subs[i] == sub;
    WriteBatch.MarkedBy(subs, i, r);
    WriteBatch.EveryRowIsMarkedOnce(columns, b, members, fetched, subs);
    assert WriteBatch.Times(WriteBatch.Refs(fetched), r) > 0;
  }

  /** A scheduled sweep marks sendable rows only, in every call of its partition. */
  lemma PassIsEnabled(s: State, calls: seq<Call>, id: RowRef -> string, limit: int, conn: string)
    requires IsSendOf(calls, Chosen(CandidatesOf(s.rows, id, conn), limit))
    ensures Enabled(s, Sending(calls))
  {
    QueuedIsNotCorrecto();
    forall c, r | c in calls && r in c.ids && r in s.rows
      ensures Sendable(s.rows[r].status)
    {
      SendMarksSwept(calls, Chosen(CandidatesOf(s.rows, id, conn), limit), c, r);
    }
  }

  /** A force-submit, grown to whole groups, marks sendable rows only. */
  lemma ForceSubmitIsEnabled(s: State, calls: seq<Call>, ids: set<RowRef>, conn: string)
    requires IsSendOf(calls, Expanded(s.rows, ids, conn))
    ensures Enabled(s, Sending(calls))
  {
    forall c, r | c in calls && r in c.ids && r in s.rows
      ensures Sendable(s.rows[r].status)
    {
      SendMarksSwept(calls, Expanded(s.rows, ids, conn), c, r);
    }
  }

  /** A send is a scheduled sweep or a force-submit of some selection. */
  ghost predicate IsSend(s: State, calls: seq<Call>, id: RowRef -> string) {
    || (exists limit, conn :: IsSendOf(calls, Chosen(CandidatesOf(s.rows, id, conn), limit)))
    || (exists ids, conn :: IsSendOf(calls, Expanded(s.rows, ids, conn)))
  }

  /** One operation of the service: a send is what a send path makes of the rows it fetches. */
  ghost predicate IsServiceStep(s: State, step: Step, s': State, id: RowRef -> string) {
    if step.Sending? then IsSend(s, step.calls, id) && s' == AfterCalls(s, step.calls)
    else Enabled(s, step) && s' == Apply(s, step)
  }

  ghost predicate IsServiceRun(states: seq<State>, steps: seq<Step>, id: RowRef -> string) {
    |states| == |steps| + 1 && forall k :: 0 <= k < |steps| ==> IsServiceStep(states[k], steps[k], states[k + 1], id)
  }

  lemma SendIsEnabled(s: State, calls: seq<Call>, id: RowRef -> string)
    requires IsSend(s, calls, id)
    ensures Enabled(s, Sending(calls))
  {
    if limit, conn :| IsSendOf(calls, Chosen(CandidatesOf(s.rows, id, conn), limit)) {
      PassIsEnabled(s, calls, id, limit, conn);
    } else {
      var ids, conn :| IsSendOf(calls, Expanded(s.rows, ids, conn));
      ForceSubmitIsEnabled(s, calls, ids, conn);
    }
  }

  lemma ServiceStepIsEnabled(s: State, step: Step, s': State, id: RowRef -> string)
    requires IsServiceStep(s, step, s', id)
    ensures Enabled(s, step) && s' == Apply(s, step)
  {
    if step.Sending? {
      SendIsEnabled(s, step.calls, id);
    }
  }

  lemma ServiceRunIsRun(states: seq<State>, steps: seq<Step>, id: RowRef -> string)
    requires IsServiceRun(states, steps, id)
    ensures IsRun(states, steps)
  {
    forall k | 0 <= k < |steps|
      ensures Enabled(states[k], steps[k]) && states[k + 1] == Apply(states[k], steps[k])
    {
      ServiceStepIsEnabled(states[k], steps[k], states[k + 1], id);
    }
  }

  /**
   * Main result: scheduled sweeps, force-submits with their groups, combined sends
   * with accepted siblings as context, ingests, edits and callbacks, in any order,
   * leave an accepted row as it is until it is deleted.
   */
  lemma AcceptedOutlivesEverySend(states: seq<State>, steps: seq<Step>, id: RowRef -> string, r: RowRef, i: nat, j: nat)
    requires IsServiceRun(states, steps, id) && i <= j < |states|
    requires r in states[i].rows && IsCorrecto(states[i].rows[r].status)
    requires forall k :: i <= k <= j ==> r in states[k].rows
    ensures states[j].rows[r] == states[i].rows[r]
  {
    ServiceRunIsRun(states, steps, id);
    CorrectoIsFinal(states, steps, r, i, j);
  }
}
