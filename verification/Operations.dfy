/** Every operation of the service, run on its database, is a step of the state machine. */
module Operations {
  import opened Rows
  import opened Upserts
  import opened Statements
  import opened Ingest
  import opened TableRowsService
  import opened Lifecycle

  datatype Operation =
    | Ingestion(t: Template, ds: seq<Data>, conn: string, meta: Option<LoadMeta>, now: nat)
    | Seal(loadId: string, total: int, now: nat)
    | Edit(t: Template, conn: string, r: RowRef, d: Data)
    | Send(t: Template, payload: set<RowRef>, marked: set<RowRef>, batchId: string, conn: string, reply: Reply, first: bool, second: bool)
    | Answer(lineItems: seq<(RowRef, VendorItem)>, batchItems: seq<(string, VendorItem)>, hasCode: bool, hasMessage: bool)
    | Delete(t: Template, conn: string, ids: set<RowRef>)
    | Reap(now: nat, timeout: nat)

  /** A send is asked to mark rows that may go out; every other operation guards itself. */
  predicate IsAskedFor(s: State, op: Operation) {
    op.Send? ==> forall r :: r in op.marked && r in s.rows ==> Sendable(s.rows[r].status)
  }

  /** Nothing happened, or one step that was enabled. */
  ghost predicate IsAtMostOneStep(s: State, steps: seq<Step>, s': State) {
    if steps == [] then s' == s
    else |steps| == 1 && Enabled(s, steps[0]) && s' == Apply(s, steps[0])
  }

  lemma LandingIsAStep(s: State, t: Template, conn: string, items: seq<Item>, appended: nat, meta: Option<LoadMeta>, now: nat)
    ensures IsAtMostOneStep(s, [Ingesting(t, conn, items, appended, meta, now)],
                            IngestTx(s, t, conn, items, appended, meta, now))
  {
  }

  method TakeRows(db: Database, t: Template, ds: seq<Data>, conn: string, meta: Option<LoadMeta>, now: nat)
    returns (ghost steps: seq<Step>)
    modifies db
    ensures IsAtMostOneStep(old(db.View()), steps, db.View())
  {
    ghost var s := db.View();
    var r, keys := db.Ingest(t, ds, conn, meta, now);
    steps := [];
    if r.Ingested? && ds != [] {
      ghost var items, n := BatchItems(t, conn, ds, keys, s.appended), s.appended + AppendedCount(t, ds);
      LandingIsAStep(s, t, conn, items, n, meta, now);
      steps := [Ingesting(t, conn, items, n, meta, now)];
    }
  }

  method Take(db: Database, op: Operation) returns (ghost steps: seq<Step>)
    requires op.Seal? || op.Edit? || op.Reap?
    modifies db
    ensures IsAtMostOneStep(old(db.View()), steps, db.View())
  {
    steps := [];
    match op {
      case Seal(l, total, now) =>
        db.SealLoad(l, total, now);
        steps := [Sealing(l, total, now)];
      case Edit(t, conn, r, d) =>
        var res := db.UpdateAndWrite(t, conn, r, d);
        if res.Edited? {
          steps := [Editing(t, r, d)];
        }
      case Reap(now, timeout) =>
        db.ReapStaleLoads(now, timeout);
        steps := [Reaping(now, timeout)];
    }
  }

  method SendOrAnswer(db: Database, op: Operation) returns (ghost steps: seq<Step>)
    requires op.Send? || op.Answer? || op.Delete?
    requires IsAskedFor(db.View(), op)
    modifies db
    ensures IsAtMostOneStep(old(db.View()), steps, db.View())
  {
    steps := [];
    match op {
      case Send(t, payload, marked, batchId, conn, reply, first, second) =>
        ghost var before := db.View();
        var res := db.SubmitGroup(t, payload, marked, batchId, conn, reply, first, second);
        if res.Submitted? {
          ghost var error: Option<string> :|
            error.None? == res.sent && db.View() == CommitOutcome(before, marked, batchId, res.sent, error);
          steps := [Sending([Call(marked, batchId, res.sent, error)])];
          OneCallMore(before, Call(marked, batchId, res.sent, error));
        }
      case Answer(lineItems, batchItems, hasCode, hasMessage) =>
        var line, batch, patches := db.ProcessCallback(lineItems, batchItems, hasCode, hasMessage);
        steps := [CallingBack(line, batch, patches)];
      case Delete(t, conn, ids) =>
        db.DeleteByIds(t, conn, ids);
        steps := [Deleting(t.write.Some? && t.write.value.groupBy != [], conn, ids)];
    }
  }

  lemma OneCallMore(s: State, c: Call)
    ensures AfterCalls(s, [c]) == CommitOutcome(s, c.ids, c.batchId, c.sent, c.error)
  {
    assert [c][..0] == [];
  }

  /** Whatever operation runs on the database, it changes nothing or takes one enabled step. */
  method Perform(db: Database, op: Operation) returns (ghost steps: seq<Step>)
    requires IsAskedFor(db.View(), op)
    modifies db
    ensures IsAtMostOneStep(old(db.View()), steps, db.View())
  {
    if op.Send? || op.Answer? || op.Delete? {
      steps := SendOrAnswer(db, op);
    } else if op.Ingestion? {
      steps := TakeRows(db, op.t, op.ds, op.conn, op.meta, op.now);
    } else {
      steps := Take(db, op);
    }
  }

  lemma OneStepMore(states: seq<State>, steps: seq<Step>, taken: seq<Step>, s: State)
    requires IsRun(states, steps) && taken != [] && IsAtMostOneStep(states[|steps|], taken, s)
    ensures IsRun(states + [s], steps + taken)
  {
    var states', steps' := states + [s], steps + taken;
    forall i | 0 <= i < |steps'|
      ensures Enabled(states'[i], steps'[i]) && states'[i + 1] == Apply(states'[i], steps'[i])
    {
      if i < |steps| {
        assert states'[i] == states[i] && states'[i + 1] == states[i + 1] && steps'[i] == steps[i];
      }
    }
  }

  /** A send asks for the rows that may go out, as the sweep and the forced submission select them. */
  function Asked(rows: Table, op: Operation): (r: Operation)
    ensures r.Send? ==> forall x :: x in r.marked && x in rows ==> Sendable(rows[x].status)
    ensures op.Send? ==> forall x :: x in op.marked && x in rows && Sendable(rows[x].status) ==> r.Send? && x in r.marked
  {
    if op.Send? then op.(marked := set x | x in op.marked && x in rows && Sendable(rows[x].status)) else op
  }

  /** Main result: the states a series of operations goes through are a run of the machine. */
  method PerformAll(db: Database, ops: seq<Operation>) returns (ghost states: seq<State>, ghost steps: seq<Step>)
    modifies db
    ensures IsRun(states, steps) && states[0] == old(db.View()) && states[|steps|] == db.View()
  {
    states, steps := [db.View()], [];
    for i := 0 to |ops|
      invariant IsRun(states, steps) && states[0] == old(db.View()) && states[|steps|] == db.View()
    {
      ghost var taken := Perform(db, Asked(db.rows, ops[i]));
      if taken != [] {
        OneStepMore(states, steps, taken, db.View());
        states, steps := states + [db.View()], steps + taken;
      }
    }
  }
}
