/**
 * A load delivered as numbered batches and a seal, in any order and with any
 * repetition: nothing is sendable before everything is in, then all of it is.
 */
module Loads {
  import opened Rows
  import opened Upserts
  import opened Statements
  import opened Ingest
  import opened Sets
  import opened TableRowsService

  datatype LoadEvent = Batch(i: int, now: nat) | Seal(now: nat)

  /** A load of a write template: its id and the rows of each of its batches. */
  datatype Delivery = Delivery(t: Template, conn: string, loadId: string, content: seq<seq<Item>>) {
    predicate Sound() {
      && t.write.Some? && loadId != ""
      && forall i, it :: 0 <= i < |content| && it in content[i] ==> it.ref.Keyed? && it.ref.conn == conn
    }

    predicate Valid() {
      Sound() && forall i :: 0 <= i < |content| ==> content[i] != []
    }

    /** Events of this load: its batches and its seal. */
    predicate Owns(e: LoadEvent) {
      e.Batch? ==> 0 <= e.i < |content|
    }
  }

  /** The transaction of one delivered event; a batch without rows has none. */
  function Deliver(s: State, d: Delivery, e: LoadEvent): State
    requires d.Owns(e)
  {
    match e
    case Batch(i, now) =>
      if d.content[i] == [] then s
      else IngestTx(s, d.t, d.conn, d.content[i], s.appended, Some(LoadMeta(d.loadId, Some(i))), now)
    case Seal(now) => SealLoad(s, d.loadId, |d.content|, now)
  }

  function Run(s: State, d: Delivery, es: seq<LoadEvent>): State
    requires forall e :: e in es ==> d.Owns(e)
  {
    if es == [] then s else Deliver(Run(s, d, es[..|es| - 1]), d, es[|es| - 1])
  }

  function Arrived(es: seq<LoadEvent>): set<int> {
    set e | e in es && e.Batch? :: e.i
  }

  predicate SealArrived(es: seq<LoadEvent>) {
    exists e :: e in es && e.Seal?
  }

  /** Every batch and a seal have arrived. */
  predicate Complete(d: Delivery, es: seq<LoadEvent>) {
    SealArrived(es) && forall i :: 0 <= i < |d.content| ==> i in Arrived(es)
  }

  /** Nothing of the load is in the store yet. */
  ghost predicate Untouched(s: State, l: string) {
    l !in s.loads && Received(s, l) == {} && forall r :: r in s.rows ==> s.rows[r].loadId != Some(l)
  }

  // ------------------------------------------------------------ counting

  function Upto(n: nat): (r: set<int>)
    ensures forall i :: i in r <==> 0 <= i < n
  {
    if n == 0 then {} else Upto(n - 1) + {n - 1}
  }

  lemma {:induction false} UptoSize(n: nat)
    ensures |Upto(n)| == n
  {
    if n > 0 {
      UptoSize(n - 1);
    }
  }

  /** Counting the received indices tells whether all of them are there. */
  lemma CountIsCoverage(got: set<int>, n: nat)
    requires forall i :: i in got ==> 0 <= i < n
    ensures |got| >= n <==> forall i :: 0 <= i < n ==> i in got
  {
    UptoSize(n);
    assert got <= Upto(n);
    SubsetSize(got, Upto(n));
    if forall i :: 0 <= i < n ==> i in got {
      assert Upto(n) <= got;
      SubsetSize(Upto(n), got);
    }
  }

  // ----------------------------------------------------- the load's account

  /** What the load tables say after these events. */
  ghost predicate Accounted(s: State, d: Delivery, es: seq<LoadEvent>) {
    && (d.loadId in s.loads <==> es != [])
    && (Sealed(s, d.loadId) <==> Complete(d, es))
    && (!Sealed(s, d.loadId) ==> Received(s, d.loadId) == Arrived(es))
    && (es != [] && !Sealed(s, d.loadId) ==>
          s.loads[d.loadId].expected == if SealArrived(es) then Some(|d.content|) else None)
  }

  /** Every row stamped with the load is staged while it is open and queued once it is sealed. */
  ghost predicate AllOrNothing(s: State, l: string) {
    forall r :: r in s.rows && s.rows[r].loadId == Some(l) ==>
      s.rows[r].status == Some(if Sealed(s, l) then QUEUED else STAGED)
  }

  lemma UpsertsLeaveStamps(rows: Table, t: Template, conn: string, items: seq<Item>, now: nat, r: RowRef)
    requires r in UpsertEach(rows, t, conn, items, now)
    ensures var after := UpsertEach(rows, t, conn, items, now)[r];
            if r in rows then after == rows[r].(data := after.data) else after == NewRow(conn, after.data, now)
    ensures r !in rows ==> r in Affected(rows, t, conn, items, now)
  {
    EachRowByItsCopies(rows, t, conn, items, now, r);
    CopiesLeaveStamps(t, conn, Lookup(rows, r), CopiesOf(items, r), now);
  }

  lemma {:induction false} CopiesLeaveStamps(t: Template, conn: string, was: Option<Row>, ds: seq<Data>, now: nat)
    ensures var after := UpsertCopies(t, conn, was, ds, now);
            if was.Some? then after.Some? && after.value == was.value.(data := after.value.data)
            else if ds == [] then after.None? else after.Some? && after.value == NewRow(conn, after.value.data, now)
    ensures was.None? && ds != [] ==> AnyTaken(t, conn, was, ds, now)
  {
    if ds != [] {
      CopiesLeaveStamps(t, conn, was, ds[..|ds| - 1], now);
    }
  }

  lemma UpsertsKeepAllOrNothing(s: State, d: Delivery, items: seq<Item>, now: nat)
    requires AllOrNothing(s, d.loadId)
    ensures AllOrNothing(s.(rows := UpsertEach(s.rows, d.t, d.conn, items, now)), d.loadId)
  {
    var after := UpsertEach(s.rows, d.t, d.conn, items, now);
    forall r | r in after && after[r].loadId == Some(d.loadId)
      ensures after[r].status == Some(if Sealed(s, d.loadId) then QUEUED else STAGED)
    {
      UpsertsLeaveStamps(s.rows, d.t, d.conn, items, now, r);
    }
  }

  lemma FlipKeepsAllOrNothing(s: State, l: string)
    requires AllOrNothing(s, l)
    ensures AllOrNothing(FlipLoadIfComplete(s, l), l)
  {
  }

  lemma StagingKeepsAllOrNothing(s: State, d: Delivery, ids: set<RowRef>, meta: LoadMeta, now: nat)
    requires d.Valid() && AllOrNothing(s, d.loadId) && meta.loadId == d.loadId
    ensures AllOrNothing(StageLoadRows(s, d.t, ids, meta, now), d.loadId)
  {
    var s1 := EnsureLoad(s, d.loadId, now);
    if !s1.loads[d.loadId].sealed {
      var s2 := RegisterBatch(s1.(rows := MarkStaged(s1.rows, d.t, ids, d.loadId)), d.loadId, meta.batchIndex);
      assert AllOrNothing(s2, d.loadId);
      FlipKeepsAllOrNothing(s2, d.loadId);
    }
  }

  lemma DeliverKeepsAllOrNothing(s: State, d: Delivery, e: LoadEvent)
    requires d.Valid() && d.Owns(e) && AllOrNothing(s, d.loadId)
    ensures AllOrNothing(Deliver(s, d, e), d.loadId)
  {
    match e
    case Batch(i, now) =>
      UpsertsKeepAllOrNothing(s, d, d.content[i], now);
      StagingKeepsAllOrNothing(s.(rows := UpsertEach(s.rows, d.t, d.conn, d.content[i], now)), d,
                               Affected(s.rows, d.t, d.conn, d.content[i], now), LoadMeta(d.loadId, Some(i)), now);
    case Seal(now) =>
      FlipKeepsAllOrNothing(ExpectBatches(s, d.loadId, |d.content|, now), d.loadId);
  }

  /** Flipping changes nothing of an account but its seal. */
  lemma FlipAccount(s: State, l: string)
    requires l in s.loads
    ensures var s' := FlipLoadIfComplete(s, l);
            && l in s'.loads && s'.loads[l].expected == s.loads[l].expected && Received(s', l) == Received(s, l)
            && (Sealed(s', l) <==> Sealed(s, l) || ReadyToFlip(s, l))
  {
  }

  lemma BatchAccount(s: State, d: Delivery, ids: set<RowRef>, i: int, now: nat)
    ensures var l, s' := d.loadId, StageLoadRows(s, d.t, ids, LoadMeta(d.loadId, Some(i)), now);
            var expected := if l in s.loads then s.loads[l].expected else None;
            var got := Received(s, l) + {i};
            l in s'.loads &&
            if Sealed(s, l) then Sealed(s', l)
            else && Received(s', l) == got
                 && s'.loads[l].expected == expected
                 && (Sealed(s', l) <==> expected.Some? && |got| >= expected.value)
  {
    var s1 := EnsureLoad(s, d.loadId, now);
    if !s1.loads[d.loadId].sealed {
      FlipAccount(RegisterBatch(s1.(rows := MarkStaged(s1.rows, d.t, ids, d.loadId)), d.loadId, Some(i)), d.loadId);
    }
  }

  /** What the transaction of one event does to the load tables. */
  lemma DeliverAccount(s: State, d: Delivery, e: LoadEvent)
    requires d.Sound() && d.Owns(e) && (e.Batch? ==> d.content[e.i] != [])
    ensures var l, s' := d.loadId, Deliver(s, d, e);
            var expected := if e.Seal? then Some(|d.content|) else if l in s.loads then s.loads[l].expected else None;
            var got := Received(s, l) + if e.Batch? then {e.i} else {};
            l in s'.loads &&
            if Sealed(s, l) then Sealed(s', l)
            else && Received(s', l) == got
                 && s'.loads[l].expected == expected
                 && (Sealed(s', l) <==> expected.Some? && |got| >= expected.value)
  {
    match e
    case Batch(i, now) =>
      BatchAccount(s.(rows := UpsertEach(s.rows, d.t, d.conn, d.content[i], now), appended := s.appended), d,
                   Affected(s.rows, d.t, d.conn, d.content[i], now), i, now);
    case Seal(now) =>
      FlipAccount(ExpectBatches(s, d.loadId, |d.content|, now), d.loadId);
  }

  lemma ArrivedSnoc(es: seq<LoadEvent>, e: LoadEvent)
    ensures Arrived(es + [e]) == Arrived(es) + if e.Batch? then {e.i} else {}
    ensures SealArrived(es + [e]) <==> SealArrived(es) || e.Seal?
  {
    assert e in es + [e];
    assert forall x :: x in es + [e] <==> x in es || x == e;
  }

  lemma AccountedStep(s: State, d: Delivery, es: seq<LoadEvent>, e: LoadEvent)
    requires d.Valid() && d.Owns(e) && Accounted(s, d, es)
    requires forall x :: x in es ==> d.Owns(x)
    requires es == [] ==> Received(s, d.loadId) == {}
    ensures Accounted(Deliver(s, d, e), d, es + [e])
  {
    DeliverAccount(s, d, e);
    ArrivedSnoc(es, e);
    CountIsCoverage(Arrived(es + [e]), |d.content|);
  }

  lemma {:induction false} RunIsAccounted(s: State, d: Delivery, es: seq<LoadEvent>)
    requires d.Valid() && Untouched(s, d.loadId)
    requires forall e :: e in es ==> d.Owns(e)
    ensures Accounted(Run(s, d, es), d, es) && AllOrNothing(Run(s, d, es), d.loadId)
  {
    if es != [] {
      var before, e := es[..|es| - 1], es[|es| - 1];
      assert es == before + [e];
      RunIsAccounted(s, d, before);
      AccountedStep(Run(s, d, before), d, before, e);
      DeliverKeepsAllOrNothing(Run(s, d, before), d, e);
    }
  }

  // ------------------------------------------------------- a batch without rows

  /** Open, knowing at most its size, and without the batch that holds nothing. */
  ghost predicate StuckWithout(s: State, d: Delivery, i: int) {
    && !Sealed(s, d.loadId)
    && (d.loadId in s.loads ==> s.loads[d.loadId].expected in {None, Some(|d.content|)})
    && Received(s, d.loadId) <= Upto(|d.content|) - {i}
  }

  lemma StuckStep(s: State, d: Delivery, e: LoadEvent, i: int)
    requires d.Sound() && d.Owns(e) && 0 <= i < |d.content| && d.content[i] == []
    requires StuckWithout(s, d, i)
    ensures StuckWithout(Deliver(s, d, e), d, i)
  {
    if e.Seal? || d.content[e.i] != [] {
      DeliverAccount(s, d, e);
      UptoSize(|d.content|);
      SubsetSize(Received(s, d.loadId) + (if e.Batch? then {e.i} else {}), Upto(|d.content|) - {i});
    }
  }

  /** A batch without rows is never counted: its load stays open whatever arrives. */
  lemma {:induction false} EmptyBatchNeverSeals(s: State, d: Delivery, es: seq<LoadEvent>, i: int)
    requires d.Sound() && Untouched(s, d.loadId) && 0 <= i < |d.content| && d.content[i] == []
    requires forall e :: e in es ==> d.Owns(e)
    ensures StuckWithout(Run(s, d, es), d, i)
  {
    if es != [] {
      EmptyBatchNeverSeals(s, d, es[..|es| - 1], i);
      StuckStep(Run(s, d, es[..|es| - 1]), d, es[|es| - 1], i);
    }
  }

  /** Main result: once everything has been delivered, a load is sealed exactly when no batch was empty. */
  lemma SealsIffNoEmptyBatch(s: State, d: Delivery, es: seq<LoadEvent>)
    requires d.Sound() && Untouched(s, d.loadId) && Complete(d, es)
    requires forall e :: e in es ==> d.Owns(e)
    ensures Sealed(Run(s, d, es), d.loadId) <==> forall i :: 0 <= i < |d.content| ==> d.content[i] != []
  {
    if d.Valid() {
      RunIsAccounted(s, d, es);
    } else {
      var i :| 0 <= i < |d.content| && d.content[i] == [];
      EmptyBatchNeverSeals(s, d, es, i);
    }
  }

  // --------------------------------------------------- the rows of the load

  /** The batches do not share rows, and their recencies compare alike everywhere. */
  predicate Disjoint(d: Delivery) {
    (forall i, it :: 0 <= i < |d.content| && it in d.content[i] ==> PlainRecency(d.t, it.data)) &&
    (forall i, j, a, b :: 0 <= i < j < |d.content| && a in d.content[i] && b in d.content[j] ==> a.ref != b.ref)
  }

  /** A row as the load leaves it, its creation time apart. */
  function LandedRow(d: Delivery, data: Data, sealed: bool, created: nat): Row
    requires d.t.write.Some?
  {
    Row(d.conn, data, Some(if sealed then QUEUED else STAGED), None, None, None,
        GroupId(d.t.write.value.groupBy, d.conn, data), Some(d.loadId), None, created)
  }

  /** The new rows of batch `i` hold the newest copy the batch carries of them. */
  ghost predicate Landed(s0: State, s: State, d: Delivery, i: int)
    requires d.Valid() && 0 <= i < |d.content|
  {
    forall it :: it in d.content[i] && it.ref !in s0.rows ==>
      && it.ref in s.rows && CopiesOf(d.content[i], it.ref) != []
      && s.rows[it.ref] == LandedRow(d, LastGreatest(d.t, CopiesOf(d.content[i], it.ref)), Sealed(s, d.loadId), s.rows[it.ref].created)
  }

  lemma {:induction false} ItemHasCopies(items: seq<Item>, it: Item)
    requires it in items
    ensures CopiesOf(items, it.ref) != []
  {
    if items[|items| - 1].ref != it.ref {
      assert it in items[..|items| - 1];
      ItemHasCopies(items[..|items| - 1], it);
    }
  }

  /** Upserting a batch leaves a row that is new, or already landed, with the batch's newest copy. */
  lemma UpsertLandsRow(s: State, d: Delivery, items: seq<Item>, now: nat, r: RowRef)
    requires d.Valid() && CopiesOf(items, r) != []
    requires forall it :: it in items ==> PlainRecency(d.t, it.data)
    requires r in s.rows ==> s.rows[r].data == LastGreatest(d.t, CopiesOf(items, r)) && !IsCorrecto(s.rows[r].status)
    ensures var w, up := LastGreatest(d.t, CopiesOf(items, r)), UpsertEach(s.rows, d.t, d.conn, items, now);
            && r in up && up[r] == (if r in s.rows then s.rows[r] else NewRow(d.conn, w, now))
            && r in Affected(s.rows, d.t, d.conn, items, now)
  {
    var copies := CopiesOf(items, r);
    var w := LastGreatest(d.t, copies);
    CopiesOfAreItems(items, r);
    LastGreatestIsACopy(d.t, copies);
    EachRowByItsCopies(s.rows, d.t, d.conn, items, now, r);
    CopiesCollapse(d.t, d.conn, Lookup(s.rows, r), copies, now);
    var one := [w];
    assert one[..0] == [];
    if r in s.rows {
      GuardComparesRecency(d.t, s.rows[r], w);
    }
  }

  /** A row of batch `i` that is new, or already as the load left it. */
  ghost predicate NewOrLanded(s: State, d: Delivery, i: int, r: RowRef)
    requires d.Valid() && 0 <= i < |d.content| && CopiesOf(d.content[i], r) != []
  {
    if r in s.rows
    then s.rows[r] == LandedRow(d, LastGreatest(d.t, CopiesOf(d.content[i], r)), Sealed(s, d.loadId), s.rows[r].created)
    else !Sealed(s, d.loadId)
  }

  /** One delivery of batch `i` brings a row that is new, or as the load left it, to its landed form. */
  lemma BatchLandsRow(s: State, d: Delivery, i: int, now: nat, r: RowRef)
    requires d.Valid() && 0 <= i < |d.content| && CopiesOf(d.content[i], r) != []
    requires forall it :: it in d.content[i] ==> PlainRecency(d.t, it.data)
    requires NewOrLanded(s, d, i, r)
    ensures r in Deliver(s, d, Batch(i, now)).rows
    ensures NewOrLanded(Deliver(s, d, Batch(i, now)), d, i, r)
  {
    QueuedIsNotCorrecto();
    UpsertLandsRow(s, d, d.content[i], now, r);
    BatchIsStaging(s, d, i, now);
    StageLandsRow(s.(rows := UpsertEach(s.rows, d.t, d.conn, d.content[i], now)), d,
                  Affected(s.rows, d.t, d.conn, d.content[i], now), LoadMeta(d.loadId, Some(i)), now, r);
  }

  lemma BatchIsStaging(s: State, d: Delivery, i: int, now: nat)
    requires d.Valid() && 0 <= i < |d.content|
    ensures Deliver(s, d, Batch(i, now)) ==
            StageLoadRows(s.(rows := UpsertEach(s.rows, d.t, d.conn, d.content[i], now)), d.t,
                          Affected(s.rows, d.t, d.conn, d.content[i], now), LoadMeta(d.loadId, Some(i)), now)
  {
    assert s.(rows := UpsertEach(s.rows, d.t, d.conn, d.content[i], now), appended := s.appended)
        == s.(rows := UpsertEach(s.rows, d.t, d.conn, d.content[i], now));
  }

  /** A staged row of the load is flipped with it. */
  lemma FlipLandsRow(s: State, d: Delivery, r: RowRef, data: Data, created: nat)
    requires d.Valid() && !Sealed(s, d.loadId)
    requires r in s.rows && s.rows[r] == LandedRow(d, data, false, created)
    ensures var s' := FlipLoadIfComplete(s, d.loadId);
            r in s'.rows && s'.rows[r] == LandedRow(d, data, Sealed(s', d.loadId), created)
  {
  }

  lemma StageLandsRow(s: State, d: Delivery, ids: set<RowRef>, meta: LoadMeta, now: nat, r: RowRef)
    requires d.Valid() && meta.loadId == d.loadId && r in ids && r in s.rows
    requires s.rows[r].conn == d.conn && s.rows[r].status in {None, Some(STAGED), Some(QUEUED)}
    requires s.rows[r].status.None? ==> !Sealed(s, d.loadId)
    requires Sealed(s, d.loadId) ==> s.rows[r].loadId == Some(d.loadId)
    ensures var s' := StageLoadRows(s, d.t, ids, meta, now);
            r in s'.rows && s'.rows[r] == LandedRow(d, s.rows[r].data, Sealed(s', d.loadId), s.rows[r].created)
  {
    var s1 := EnsureLoad(s, d.loadId, now);
    if !s1.loads[d.loadId].sealed {
      var s2 := RegisterBatch(s1.(rows := MarkStaged(s1.rows, d.t, ids, d.loadId)), d.loadId, meta.batchIndex);
      FlipLandsRow(s2, d, r, s.rows[r].data, s.rows[r].created);
    }
  }

  /** An event of another batch, or the seal, moves a landed row only with the load. */
  lemma OthersKeepLanded(s: State, d: Delivery, e: LoadEvent, r: RowRef, data: Data)
    requires d.Valid() && d.Owns(e)
    requires e.Batch? ==> forall it :: it in d.content[e.i] ==> it.ref != r
    requires r in s.rows && s.rows[r] == LandedRow(d, data, Sealed(s, d.loadId), s.rows[r].created)
    ensures var s' := Deliver(s, d, e);
            r in s'.rows && s'.rows[r] == LandedRow(d, data, Sealed(s', d.loadId), s.rows[r].created)
  {
    if e.Batch? {
      UntouchedByOthers(s.rows, d.t, d.conn, d.content[e.i], e.now, r);
      AffectedAreItems(s.rows, d.t, d.conn, d.content[e.i], e.now);
      assert Lookup(UpsertEach(s.rows, d.t, d.conn, d.content[e.i], e.now), r) == Lookup(s.rows, r);
      StageMovesWithLoad(s.(rows := UpsertEach(s.rows, d.t, d.conn, d.content[e.i], e.now)), d,
                         Affected(s.rows, d.t, d.conn, d.content[e.i], e.now), LoadMeta(d.loadId, Some(e.i)), e.now, r, data);
    }
  }

  lemma StageMovesWithLoad(s: State, d: Delivery, ids: set<RowRef>, meta: LoadMeta, now: nat, r: RowRef, data: Data)
    requires d.Valid() && meta.loadId == d.loadId && r !in ids
    requires r in s.rows && s.rows[r] == LandedRow(d, data, Sealed(s, d.loadId), s.rows[r].created)
    ensures var s' := StageLoadRows(s, d.t, ids, meta, now);
            r in s'.rows && s'.rows[r] == LandedRow(d, data, Sealed(s', d.loadId), s.rows[r].created)
  {
  }

  lemma {:induction false} AffectedAreItems(rows: Table, t: Template, conn: string, items: seq<Item>, now: nat)
    ensures forall r :: r in Affected(rows, t, conn, items, now) ==> exists it :: it in items && it.ref == r
  {
    if items != [] {
      AffectedAreItems(rows, t, conn, items[..|items| - 1], now);
    }
  }

  lemma LandedStep(s0: State, s: State, d: Delivery, e: LoadEvent, i: int)
    requires d.Valid() && Disjoint(d) && d.Owns(e) && 0 <= i < |d.content|
    requires Landed(s0, s, d, i) || e == Batch(i, e.now)
    requires Landed(s0, s, d, i) || (!Sealed(s, d.loadId) && forall it :: it in d.content[i] && it.ref !in s0.rows ==> it.ref !in s.rows)
    ensures Landed(s0, Deliver(s, d, e), d, i)
  {
    forall it | it in d.content[i] && it.ref !in s0.rows
      ensures var s' := Deliver(s, d, e);
              && it.ref in s'.rows && CopiesOf(d.content[i], it.ref) != []
              && s'.rows[it.ref] == LandedRow(d, LastGreatest(d.t, CopiesOf(d.content[i], it.ref)),
                                             Sealed(s', d.loadId), s'.rows[it.ref].created)
    {
      ItemHasCopies(d.content[i], it);
      if e.Batch? && e.i == i {
        BatchLandsRow(s, d, i, e.now, it.ref);
      } else {
        OthersKeepLanded(s, d, e, it.ref, LastGreatest(d.t, CopiesOf(d.content[i], it.ref)));
      }
    }
  }

  lemma DeliverRows(s: State, d: Delivery, e: LoadEvent)
    requires d.Valid() && d.Owns(e)
    ensures Deliver(s, d, e).rows.Keys == if e.Batch? then UpsertEach(s.rows, d.t, d.conn, d.content[e.i], e.now).Keys else s.rows.Keys
  {
  }

  lemma StillAbsent(s0: State, s: State, d: Delivery, e: LoadEvent, i: int, rows: Table)
    requires Disjoint(d) && d.Owns(e) && 0 <= i < |d.content| && e != Batch(i, e.now)
    requires rows.Keys == if e.Batch? then UpsertEach(s.rows, d.t, d.conn, d.content[e.i], e.now).Keys else s.rows.Keys
    requires forall it :: it in d.content[i] && it.ref !in s0.rows ==> it.ref !in s.rows
    ensures forall it :: it in d.content[i] && it.ref !in s0.rows ==> it.ref !in rows
  {
    forall it | it in d.content[i] && it.ref !in s0.rows
      ensures it.ref !in rows
    {
      if e.Batch? {
        UntouchedByOthers(s.rows, d.t, d.conn, d.content[e.i], e.now, it.ref);
        assert Lookup(UpsertEach(s.rows, d.t, d.conn, d.content[e.i], e.now), it.ref) == None;
      }
    }
  }

  /** Rows of batches that have not arrived are not there yet. */
  lemma {:induction false} NotThereYet(s0: State, d: Delivery, es: seq<LoadEvent>, i: int)
    requires d.Valid() && Disjoint(d) && 0 <= i < |d.content| && i !in Arrived(es)
    requires forall e :: e in es ==> d.Owns(e)
    ensures forall it :: it in d.content[i] && it.ref !in s0.rows ==> it.ref !in Run(s0, d, es).rows
  {
    if es != [] {
      var before, e := es[..|es| - 1], es[|es| - 1];
      assert es == before + [e];
      ArrivedSnoc(before, e);
      NotThereYet(s0, d, before, i);
      DeliverRows(Run(s0, d, before), d, e);
      StillAbsent(s0, Run(s0, d, before), d, e, i, Run(s0, d, es).rows);
    }
  }

  lemma {:induction false} RunLands(s0: State, d: Delivery, es: seq<LoadEvent>, i: int)
    requires d.Valid() && Disjoint(d) && Untouched(s0, d.loadId)
    requires forall e :: e in es ==> d.Owns(e)
    requires i in Arrived(es)
    ensures 0 <= i < |d.content| && Landed(s0, Run(s0, d, es), d, i)
  {
    var before, e := es[..|es| - 1], es[|es| - 1];
    assert es == before + [e];
    ArrivedSnoc(before, e);
    if i in Arrived(before) {
      RunLands(s0, d, before, i);
    } else {
      NotThereYet(s0, d, before, i);
      RunIsAccounted(s0, d, before);
    }
    LandedStep(s0, Run(s0, d, before), d, e, i);
  }

  // ------------------------------------------------------------ main results

  /**
   * Main result: after any prefix of any delivery, the load is sealed exactly when
   * all its batches and a seal are in; until then every row stamped with it is
   * staged, and from that step on every one of them is queued.
   */
  lemma LoadIsAllOrNothing(s: State, d: Delivery, es: seq<LoadEvent>, k: nat)
    requires d.Valid() && Untouched(s, d.loadId) && k <= |es|
    requires forall e :: e in es ==> d.Owns(e)
    ensures var sk := Run(s, d, es[..k]);
            && (Sealed(sk, d.loadId) <==> Complete(d, es[..k]))
            && (forall r :: r in sk.rows && sk.rows[r].loadId == Some(d.loadId) ==>
                  && sk.rows[r].status == Some(if Complete(d, es[..k]) then QUEUED else STAGED)
                  && (Sweepable(sk.rows[r].status) <==> Complete(d, es[..k])))
  {
    RunIsAccounted(s, d, es[..k]);
  }

  /**
   * Main result: two deliveries of the same events, in whatever order and however
   * often repeated, leave each new row of the load the same but for its creation
   * time, and the load equally sealed.
   */
  lemma DeliveryOrderIsIrrelevant(s: State, d: Delivery, es: seq<LoadEvent>, fs: seq<LoadEvent>, it: Item, i: int)
    requires d.Valid() && Disjoint(d) && Untouched(s, d.loadId)
    requires forall e :: e in es ==> d.Owns(e)
    requires forall e :: e in fs ==> d.Owns(e)
    requires Arrived(es) == Arrived(fs) && (SealArrived(es) <==> SealArrived(fs))
    requires i in Arrived(es) && 0 <= i < |d.content| && it in d.content[i] && it.ref !in s.rows
    ensures Sealed(Run(s, d, es), d.loadId) == Sealed(Run(s, d, fs), d.loadId)
    ensures it.ref in Run(s, d, es).rows && it.ref in Run(s, d, fs).rows
    ensures Run(s, d, es).rows[it.ref] == Run(s, d, fs).rows[it.ref].(created := Run(s, d, es).rows[it.ref].created)
    ensures Run(s, d, es).rows[it.ref].loadId == Some(d.loadId)
  {
    RunIsAccounted(s, d, es);
    RunIsAccounted(s, d, fs);
    RunLands(s, d, es, i);
    RunLands(s, d, fs, i);
  }
}
