/**
 * Batches and seals of one load as concurrent transactions, statement by
 * statement: every statement sees the committed state overlaid with the
 * transaction's own writes, waits for row locks and for the lock of the load's
 * row, and all locks are kept until the transaction ends.
 */
module LoadLocks {
  import opened Rows
  import opened Upserts
  import opened Statements
  import opened Ingest
  import opened TableRowsService
  import opened Loads

  /** The load transactions, of any batch index and announcing any total. */
  datatype Tx =
    | BatchTx(t: Template, conn: string, items: seq<Item>, batchIndex: Option<int>, now: nat)
    | SealTx(total: int, now: nat)

  /** The next statement of a transaction. */
  datatype Pc =
    | Upserting(n: nat)
    | Locking
    | Marking
    | Registering
    | Expecting
    | Reading
    | Counting
    | Flipping
    | SettingSealed
    | Committing

  /** A running transaction: its own versions of what it wrote, and its locks. */
  datatype Local = Local(
    tx: Tx,
    pc: Pc,
    rows: Table,
    affected: set<RowRef>,
    load: Option<Load>,
    batch: set<int>,
    locks: set<RowRef>,
    loadLock: bool,
    sawSealed: bool,
    sawExpected: int)

  datatype System = System(db: State, active: map<nat, Local>, log: seq<Tx>)

  datatype Action = Begin(id: nat, tx: Tx) | Execute(id: nat) | Commit(id: nat) | Abort(id: nat)

  // --------------------------------------------------------- the machine

  /** What a transaction sees: the committed state under its own writes. */
  function See(db: State, l: string, loc: Local): State {
    db.(rows := db.rows + loc.rows,
        loads := if loc.load.Some? then db.loads[l := loc.load.value] else db.loads,
        batches := if loc.batch == {} then db.batches else db.batches[l := Received(db, l) + loc.batch])
  }

  function Start(tx: Tx): Local {
    Local(tx, if tx.BatchTx? then Upserting(0) else Expecting, map[], {}, None, {}, {}, false, false, 0)
  }

  function FlipTargets(rows: Table, l: string): set<RowRef> {
    set r | r in rows && rows[r].loadId == Some(l) && rows[r].status == Some(STAGED)
  }

  /** The row locks the next statement takes. */
  function Needs(db: State, l: string, loc: Local): set<RowRef> {
    match loc.pc
    case Upserting(n) => if loc.tx.BatchTx? && n < |loc.tx.items| then {loc.tx.items[n].ref} else {}
    case Flipping => FlipTargets(See(db, l, loc).rows, l)
    case _ => {}
  }

  /** The next statement inserts, locks or updates the load's row. */
  predicate NeedsLoad(db: State, l: string, loc: Local) {
    match loc.pc
    case Upserting(n) => loc.tx.BatchTx? && n >= |loc.tx.items| && l !in db.loads
    case Locking => true
    case Expecting => true
    case _ => false
  }

  /** Restricting a table to some rows. */
  function Only(rows: Table, rs: set<RowRef>): Table {
    map r | r in rows && r in rs :: rows[r]
  }

  /** The effect of the next statement on the transaction that runs it. */
  function Statement(db: State, l: string, loc: Local): (r: Local)
    ensures r.tx == loc.tx
  {
    var v := See(db, l, loc);
    match loc.pc
    case Upserting(n) =>
      if loc.tx.SealTx? then loc
      else if n < |loc.tx.items| then
        var it := loc.tx.items[n];
        var was := Lookup(v.rows, it.ref);
        loc.(pc := Upserting(n + 1),
             rows := loc.rows[it.ref := UpsertRow(loc.tx.t, loc.tx.conn, was, it.data, loc.tx.now)],
             affected := loc.affected + (if TakenBy(loc.tx.t, was, it.data) then {it.ref} else {}),
             locks := loc.locks + {it.ref})
      else if l in v.loads then loc.(pc := Locking)
      else loc.(pc := Locking, load := Some(Load(None, false, false, loc.tx.now)), loadLock := true)
    case Locking =>
      loc.(pc := Marking, loadLock := true, sawSealed := l in v.loads && v.loads[l].sealed)
    case Marking =>
      if loc.tx.SealTx? then loc
      else if loc.sawSealed then
        loc.(pc := Committing, rows := Only(MarkQueued(v.rows, loc.tx.t, loc.affected, QUEUED), loc.rows.Keys))
      else
        loc.(pc := Registering, rows := Only(MarkStaged(v.rows, loc.tx.t, loc.affected, l), loc.rows.Keys))
    case Registering =>
      if loc.tx.BatchTx? && loc.tx.batchIndex.Some? then loc.(pc := Reading, batch := loc.batch + {loc.tx.batchIndex.value})
      else loc.(pc := Reading)
    case Expecting =>
      if loc.tx.BatchTx? then loc
      else loc.(pc := Reading, loadLock := true, load := Some(ExpectBatches(v, l, loc.tx.total, loc.tx.now).loads[l]))
    case Reading =>
      if l in v.loads && !v.loads[l].sealed && v.loads[l].expected.Some?
      then loc.(pc := Counting, sawExpected := v.loads[l].expected.value)
      else loc.(pc := Committing)
    case Counting =>
      if |Received(v, l)| < loc.sawExpected then loc.(pc := Committing) else loc.(pc := Flipping)
    case Flipping =>
      loc.(pc := SettingSealed,
           rows := loc.rows + Only(FlipRows(v.rows, l), FlipTargets(v.rows, l)),
           locks := loc.locks + FlipTargets(v.rows, l))
    case SettingSealed =>
      if l in v.loads then loc.(pc := Committing, load := Some(v.loads[l].(sealed := true))) else loc
    case Committing => loc
  }

  /** A statement runs when it does not raise and no other transaction holds a lock it needs. */
  ghost predicate CanAct(s: System, l: string, a: Action) {
    match a
    case Begin(id, tx) => id !in s.active
    case Abort(id) => id in s.active
    case Commit(id) => id in s.active && s.active[id].pc.Committing?
    case Execute(id) =>
      && id in s.active && !s.active[id].pc.Committing?
      && (var loc := s.active[id];
          && (forall j :: j in s.active && j != id ==> s.active[j].locks !! Needs(s.db, l, loc))
          && (NeedsLoad(s.db, l, loc) ==> forall j :: j in s.active && j != id ==> !s.active[j].loadLock)
          && (loc.pc.Upserting? && loc.tx.BatchTx? && loc.pc.n < |loc.tx.items| ==>
                !Raises(See(s.db, l, loc).rows, loc.tx.t, loc.tx.items[loc.pc.n])))
  }

  ghost function Act(s: System, l: string, a: Action): System
    requires CanAct(s, l, a)
  {
    match a
    case Begin(id, tx) => s.(active := s.active[id := Start(tx)])
    case Abort(id) => s.(active := s.active - {id})
    case Execute(id) => s.(active := s.active[id := Statement(s.db, l, s.active[id])])
    case Commit(id) => System(See(s.db, l, s.active[id]), s.active - {id}, s.log + [s.active[id].tx])
  }

  /** An interleaving from a store with no transaction running. */
  ghost predicate IsInterleaving(init: State, l: string, states: seq<System>, actions: seq<Action>) {
    && |states| == |actions| + 1 && states[0] == System(init, map[], [])
    && forall i :: 0 <= i < |actions| ==> CanAct(states[i], l, actions[i]) && states[i + 1] == Act(states[i], l, actions[i])
  }

  // ------------------------------------------------------ serial execution

  function Serial(db: State, l: string, tx: Tx): State {
    match tx
    case BatchTx(t, conn, items, i, now) =>
      StageLoadRows(db.(rows := UpsertEach(db.rows, t, conn, items, now)), t,
                    Affected(db.rows, t, conn, items, now), LoadMeta(l, i), now)
    case SealTx(total, now) => SealLoad(db, l, total, now)
  }

  function SerialRun(db: State, l: string, log: seq<Tx>): State {
    if log == [] then db else Serial(SerialRun(db, l, log[..|log| - 1]), l, log[|log| - 1])
  }

  // ---------------------------------------------- partial transactions

  function Refs(items: seq<Item>): set<RowRef> {
    set it | it in items :: it.ref
  }

  /** The store after the upserts and the insert of the load's row. */
  function Entered(db: State, l: string, tx: Tx): State
    requires tx.BatchTx?
  {
    EnsureLoad(db.(rows := UpsertEach(db.rows, tx.t, tx.conn, tx.items, tx.now)), l, tx.now)
  }

  function Touched(db: State, tx: Tx): set<RowRef>
    requires tx.BatchTx?
  {
    Affected(db.rows, tx.t, tx.conn, tx.items, tx.now)
  }

  function Staged(db: State, l: string, tx: Tx): State
    requires tx.BatchTx?
  {
    var s := Entered(db, l, tx);
    s.(rows := MarkStaged(s.rows, tx.t, Touched(db, tx), l))
  }

  /** The store a transaction sees when it checks whether to flip. */
  function BeforeFlip(db: State, l: string, tx: Tx): State {
    match tx
    case BatchTx(_, _, _, i, _) => RegisterBatch(Staged(db, l, tx), l, i)
    case SealTx(total, now) => ExpectBatches(db, l, total, now)
  }

  /** Upserted so far, nothing else: the part done before the load's lock. */
  ghost predicate UpsertedSoFar(db: State, loc: Local, n: nat) {
    && loc.tx.BatchTx? && n <= |loc.tx.items|
    && loc.locks == loc.rows.Keys == Refs(loc.tx.items[..n])
    && db.rows + loc.rows == UpsertEach(db.rows, loc.tx.t, loc.tx.conn, loc.tx.items[..n], loc.tx.now)
    && loc.affected == Affected(db.rows, loc.tx.t, loc.tx.conn, loc.tx.items[..n], loc.tx.now)
    && loc.batch == {}
  }

  /** How far a running transaction is, relative to the committed store. */
  ghost predicate OnTrack(db: State, l: string, loc: Local) {
    var v := See(db, l, loc);
    match loc.pc
    case Upserting(n) => UpsertedSoFar(db, loc, n) && !loc.loadLock && loc.load.None?
    case Locking =>
      && loc.tx.BatchTx? && UpsertedSoFar(db, loc, |loc.tx.items|)
      && (if loc.loadLock then l !in db.loads && loc.load == Some(Load(None, false, false, loc.tx.now))
          else l in db.loads && loc.load.None?)
    case Marking =>
      && loc.loadLock && loc.tx.BatchTx? && v == Entered(db, l, loc.tx)
      && loc.affected == Touched(db, loc.tx) && loc.locks == loc.rows.Keys == Refs(loc.tx.items) && loc.batch == {}
      && loc.sawSealed == v.loads[l].sealed
    case Registering =>
      && loc.loadLock && loc.tx.BatchTx? && v == Staged(db, l, loc.tx) && !v.loads[l].sealed && loc.batch == {}
      && loc.rows.Keys <= loc.locks
    case Expecting => loc == Start(loc.tx) && loc.tx.SealTx?
    case Reading => loc.loadLock && v == BeforeFlip(db, l, loc.tx) && MayFlip(db, l, loc.tx) && loc.rows.Keys <= loc.locks
    case Counting =>
      && loc.loadLock && v == BeforeFlip(db, l, loc.tx) && MayFlip(db, l, loc.tx) && loc.rows.Keys <= loc.locks
      && l in v.loads && !v.loads[l].sealed && v.loads[l].expected == Some(loc.sawExpected)
    case Flipping =>
      && loc.loadLock && v == BeforeFlip(db, l, loc.tx) && MayFlip(db, l, loc.tx) && loc.rows.Keys <= loc.locks
      && ReadyToFlip(v, l)
    case SettingSealed =>
      var b := BeforeFlip(db, l, loc.tx);
      && loc.loadLock && MayFlip(db, l, loc.tx) && loc.rows.Keys <= loc.locks
      && ReadyToFlip(b, l) && v == b.(rows := FlipRows(b.rows, l))
    case Committing => loc.loadLock && v == Serial(db, l, loc.tx) && loc.rows.Keys <= loc.locks
  }

  /** A batch reaches the check only while the load is open. */
  ghost predicate MayFlip(db: State, l: string, tx: Tx) {
    tx.BatchTx? ==> !Entered(db, l, tx).loads[l].sealed
  }

  lemma SerialIsFlip(db: State, l: string, tx: Tx)
    requires MayFlip(db, l, tx)
    ensures Serial(db, l, tx) == FlipLoadIfComplete(BeforeFlip(db, l, tx), l)
  {
  }

  // ------------------------------------------------------- one statement

  lemma RefsSnoc(items: seq<Item>, n: nat)
    requires n < |items|
    ensures Refs(items[..n + 1]) == Refs(items[..n]) + {items[n].ref}
    ensures items[..n + 1][..n] == items[..n]
  {
    assert items[..n + 1] == items[..n] + [items[n]];
    assert forall it :: it in items[..n + 1] <==> it in items[..n] || it == items[n];
  }

  /** One more row upserted into the transaction's own versions. */
  lemma UpsertSoFarStep(db: State, loc: Local, n: nat, next: Local)
    requires UpsertedSoFar(db, loc, n) && n < |loc.tx.items| && next.tx == loc.tx && next.batch == loc.batch
    requires var it, was := loc.tx.items[n], Lookup(db.rows + loc.rows, loc.tx.items[n].ref);
             && next.rows == loc.rows[it.ref := UpsertRow(loc.tx.t, loc.tx.conn, was, it.data, loc.tx.now)]
             && next.affected == loc.affected + (if TakenBy(loc.tx.t, was, it.data) then {it.ref} else {})
             && next.locks == loc.locks + {it.ref}
    ensures UpsertedSoFar(db, next, n + 1)
  {
    var items := loc.tx.items;
    RefsSnoc(items, n);
    OverlayPut(db.rows, loc.rows, items[n].ref, next.rows[items[n].ref]);
  }

  lemma UpsertStatement(db: State, l: string, loc: Local, n: nat)
    requires loc.pc == Upserting(n) && OnTrack(db, l, loc) && n < |loc.tx.items|
    ensures OnTrack(db, l, Statement(db, l, loc))
  {
    UpsertSoFarStep(db, loc, n, Statement(db, l, loc));
  }

  lemma OverlayPut(under: Table, over: Table, r: RowRef, row: Row)
    ensures under + over[r := row] == (under + over)[r := row]
  {
  }

  /** Writing back only rows already written gives the whole new table when the rest is unchanged. */
  lemma OverlayOnly(under: Table, over: Table, after: Table)
    requires after.Keys == (under + over).Keys
    requires forall r :: r in after && r !in over ==> after[r] == under[r]
    ensures under + Only(after, over.Keys) == after
  {
  }

  lemma EnterStatements(db: State, l: string, loc: Local)
    requires OnTrack(db, l, loc)
    requires loc.pc.Locking? || (loc.pc.Upserting? && loc.pc.n >= |loc.tx.items|)
    ensures OnTrack(db, l, Statement(db, l, loc))
  {
    assert loc.tx.items[..|loc.tx.items|] == loc.tx.items;
  }

  /** Marking changes only rows the transaction already locked. */
  lemma MarkStatement(db: State, l: string, loc: Local)
    requires loc.pc.Marking? && OnTrack(db, l, loc)
    ensures OnTrack(db, l, Statement(db, l, loc))
  {
    var v := See(db, l, loc);
    AffectedAreLocked(db, loc);
    if loc.sawSealed {
      OverlayOnly(db.rows, loc.rows, MarkQueued(v.rows, loc.tx.t, loc.affected, QUEUED));
    } else {
      OverlayOnly(db.rows, loc.rows, MarkStaged(v.rows, loc.tx.t, loc.affected, l));
    }
  }

  lemma AffectedAreLocked(db: State, loc: Local)
    requires loc.tx.BatchTx? && loc.affected == Touched(db, loc.tx) && loc.rows.Keys == Refs(loc.tx.items)
    ensures loc.affected <= loc.rows.Keys
  {
    AffectedAreItems(db.rows, loc.tx.t, loc.tx.conn, loc.tx.items, loc.tx.now);
  }

  lemma RegisterStatement(db: State, l: string, loc: Local)
    requires OnTrack(db, l, loc) && loc.pc.Registering?
    ensures OnTrack(db, l, Statement(db, l, loc))
  {
    var i := loc.tx.batchIndex;
    if i.Some? {
      assert {} + {i.value} == {i.value};
      assert {i.value} != {};
    }
  }

  lemma ExpectStatement(db: State, l: string, loc: Local)
    requires OnTrack(db, l, loc) && loc.pc.Expecting?
    ensures OnTrack(db, l, Statement(db, l, loc))
  {
    assert db.rows + map[] == db.rows;
    assert See(db, l, loc) == db;
  }

  lemma ReadStatement(db: State, l: string, loc: Local)
    requires OnTrack(db, l, loc) && loc.pc.Reading?
    ensures OnTrack(db, l, Statement(db, l, loc))
  {
    SerialIsFlip(db, l, loc.tx);
  }

  lemma CountStatement(db: State, l: string, loc: Local)
    requires OnTrack(db, l, loc) && loc.pc.Counting?
    ensures OnTrack(db, l, Statement(db, l, loc))
  {
    SerialIsFlip(db, l, loc.tx);
  }

  lemma FlipStatement(db: State, l: string, loc: Local)
    requires loc.pc.Flipping? && OnTrack(db, l, loc)
    ensures OnTrack(db, l, Statement(db, l, loc))
  {
    FlipOverlay(db.rows, loc.rows, l);
  }

  lemma FlipOverlay(under: Table, over: Table, l: string)
    ensures var v := under + over;
            under + (over + Only(FlipRows(v, l), FlipTargets(v, l))) == FlipRows(v, l)
  {
  }

  lemma SealStatement(db: State, l: string, loc: Local)
    requires loc.pc.SettingSealed? && OnTrack(db, l, loc)
    ensures OnTrack(db, l, Statement(db, l, loc))
  {
    SerialIsFlip(db, l, loc.tx);
  }

  lemma StatementKeepsTrack(db: State, l: string, loc: Local)
    requires OnTrack(db, l, loc) && !loc.pc.Committing?
    ensures OnTrack(db, l, Statement(db, l, loc))
  {
    match loc.pc
    case Upserting(n) => if n < |loc.tx.items| { UpsertStatement(db, l, loc, n); } else { EnterStatements(db, l, loc); }
    case Locking => EnterStatements(db, l, loc);
    case Marking => MarkStatement(db, l, loc);
    case Registering => RegisterStatement(db, l, loc);
    case Expecting => ExpectStatement(db, l, loc);
    case Reading => ReadStatement(db, l, loc);
    case Counting => CountStatement(db, l, loc);
    case Flipping => FlipStatement(db, l, loc);
    case SettingSealed => SealStatement(db, l, loc);
  }

  // --------------------------------------------------- the whole system

  /** The committed store is a serial run, every transaction is on track, locks exclude. */
  ghost predicate Inv(init: State, l: string, s: System) {
    && s.db == SerialRun(init, l, s.log)
    && (forall i :: i in s.active ==> OnTrack(s.db, l, s.active[i]))
    && (forall i, j :: i in s.active && j in s.active && i != j ==>
          s.active[i].locks !! s.active[j].locks && !(s.active[i].loadLock && s.active[j].loadLock))
  }

  lemma StatementLocks(db: State, l: string, loc: Local)
    requires OnTrack(db, l, loc) && !loc.pc.Committing?
    ensures Statement(db, l, loc).locks <= loc.locks + Needs(db, l, loc)
    ensures Statement(db, l, loc).loadLock ==> loc.loadLock || NeedsLoad(db, l, loc)
  {
    match loc.pc
    case Upserting(n) => UpsertTakesItsLock(db, l, loc, n);
    case Flipping => FlipTakesItsLocks(db, l, loc);
    case _ =>
  }

  /** A statement waits for no lock but those it takes. */
  lemma WaitsForWhatItTakes(db: State, l: string, loc: Local)
    requires OnTrack(db, l, loc)
    ensures Needs(db, l, loc) <= Statement(db, l, loc).locks
    ensures NeedsLoad(db, l, loc) ==> Statement(db, l, loc).loadLock
  {
    match loc.pc
    case Upserting(n) => UpsertTakesItsLock(db, l, loc, n);
    case Flipping => FlipTakesItsLocks(db, l, loc);
    case _ =>
  }

  lemma UpsertTakesItsLock(db: State, l: string, loc: Local, n: nat)
    requires loc.pc == Upserting(n) && loc.tx.BatchTx? && loc.load.None?
    ensures Statement(db, l, loc).locks == loc.locks + Needs(db, l, loc)
    ensures Statement(db, l, loc).loadLock <==> loc.loadLock || NeedsLoad(db, l, loc)
  {
  }

  lemma FlipTakesItsLocks(db: State, l: string, loc: Local)
    requires loc.pc.Flipping?
    ensures Statement(db, l, loc).locks == loc.locks + Needs(db, l, loc)
    ensures Statement(db, l, loc).loadLock ==> loc.loadLock
  {
  }

  lemma StartIsOnTrack(db: State, l: string, tx: Tx)
    ensures OnTrack(db, l, Start(tx))
  {
    if tx.BatchTx? {
      assert tx.items[..0] == [];
      assert db.rows + map[] == db.rows;
    }
  }

  /** Rows a commit leaves alone keep a waiting transaction's upserts right. */
  lemma UpsertsStayRight(db: State, db': State, loc: Local, n: nat)
    requires UpsertedSoFar(db, loc, n)
    requires forall r :: r in loc.locks ==> Lookup(db.rows, r) == Lookup(db'.rows, r)
    ensures UpsertedSoFar(db', loc, n)
  {
    var tx, items := loc.tx, loc.tx.items[..n];
    var up := UpsertEach(db'.rows, tx.t, tx.conn, items, tx.now);
    forall r
      ensures Lookup(db'.rows + loc.rows, r) == Lookup(up, r)
      ensures r in loc.affected <==> r in Affected(db'.rows, tx.t, tx.conn, items, tx.now)
    {
      EachRowByItsCopies(db.rows, tx.t, tx.conn, items, tx.now, r);
      EachRowByItsCopies(db'.rows, tx.t, tx.conn, items, tx.now, r);
      assert Lookup(db.rows + loc.rows, r) == Lookup(UpsertEach(db.rows, tx.t, tx.conn, items, tx.now), r);
      if r !in loc.locks {
        CopiesOfAbsent(items, r);
      }
    }
    TablesAgree(db'.rows + loc.rows, up);
  }

  lemma WaitersStayOnTrack(db: State, db': State, l: string, loc: Local)
    requires OnTrack(db, l, loc) && !loc.loadLock
    requires forall r :: r in loc.locks ==> Lookup(db.rows, r) == Lookup(db'.rows, r)
    requires l in db.loads ==> l in db'.loads
    ensures OnTrack(db', l, loc)
  {
    match loc.pc
    case Upserting(n) => UpsertsStayRight(db, db', loc, n);
    case Locking => UpsertsStayRight(db, db', loc, |loc.tx.items|);
    case Expecting =>
  }

  lemma CommittedStore(db: State, l: string, loc: Local)
    requires loc.pc.Committing? && OnTrack(db, l, loc)
    ensures See(db, l, loc) == Serial(db, l, loc.tx)
    ensures forall r :: r !in loc.locks ==> Lookup(db.rows, r) == Lookup(See(db, l, loc).rows, r)
    ensures l in db.loads ==> l in See(db, l, loc).loads
  {
  }

  lemma OthersSurviveCommit(init: State, l: string, s: System, id: nat, j: nat, db': State)
    requires Inv(init, l, s) && id in s.active && j in s.active && j != id && s.active[id].loadLock
    requires forall r :: r !in s.active[id].locks ==> Lookup(s.db.rows, r) == Lookup(db'.rows, r)
    requires l in s.db.loads ==> l in db'.loads
    ensures OnTrack(db', l, s.active[j])
  {
    assert s.active[j].locks !! s.active[id].locks && !s.active[j].loadLock;
    WaitersStayOnTrack(s.db, db', l, s.active[j]);
  }

  lemma SerialRunStep(init: State, l: string, log: seq<Tx>, tx: Tx)
    ensures SerialRun(init, l, log + [tx]) == Serial(SerialRun(init, l, log), l, tx)
  {
    assert (log + [tx])[..|log|] == log;
  }

  lemma CommitKeepsInv(init: State, l: string, s: System, id: nat)
    requires Inv(init, l, s) && CanAct(s, l, Commit(id))
    ensures Inv(init, l, Act(s, l, Commit(id)))
  {
    var loc := s.active[id];
    var db' := See(s.db, l, loc);
    CommittedStore(s.db, l, loc);
    SerialRunStep(init, l, s.log, loc.tx);
    forall j | j in s.active && j != id
      ensures OnTrack(db', l, s.active[j])
    {
      OthersSurviveCommit(init, l, s, id, j, db');
    }
  }

  lemma ExecuteKeepsInv(init: State, l: string, s: System, id: nat)
    requires Inv(init, l, s) && CanAct(s, l, Execute(id))
    ensures Inv(init, l, Act(s, l, Execute(id)))
  {
    var loc := s.active[id];
    StatementKeepsTrack(s.db, l, loc);
    StatementLocks(s.db, l, loc);
    ReplaceKeepsInv(init, l, s, id, Statement(s.db, l, loc), Needs(s.db, l, loc), NeedsLoad(s.db, l, loc));
  }

  /** Replacing one transaction by a later form of it that took only free locks. */
  lemma ReplaceKeepsInv(init: State, l: string, s: System, id: nat, next: Local, taken: set<RowRef>, takesLoad: bool)
    requires Inv(init, l, s) && id in s.active && OnTrack(s.db, l, next)
    requires next.locks <= s.active[id].locks + taken && (next.loadLock ==> s.active[id].loadLock || takesLoad)
    requires forall j :: j in s.active && j != id ==> s.active[j].locks !! taken && (takesLoad ==> !s.active[j].loadLock)
    ensures Inv(init, l, s.(active := s.active[id := next]))
  {
  }

  lemma ActKeepsInv(init: State, l: string, s: System, a: Action)
    requires Inv(init, l, s) && CanAct(s, l, a)
    ensures Inv(init, l, Act(s, l, a))
  {
    match a
    case Begin(id, tx) => StartIsOnTrack(s.db, l, tx);
    case Abort(id) =>
    case Execute(id) => ExecuteKeepsInv(init, l, s, id);
    case Commit(id) => CommitKeepsInv(init, l, s, id);
  }

  /**
   * Main result: in every interleaving, with transactions aborting at will, the
   * committed store is that of the committed transactions run one by one, in the
   * order in which they held the load's lock.
   */
  lemma {:induction false} InterleavingIsSerial(init: State, l: string, states: seq<System>, actions: seq<Action>, k: nat)
    requires IsInterleaving(init, l, states, actions) && k < |states|
    ensures Inv(init, l, states[k])
    ensures states[k].db == SerialRun(init, l, states[k].log)
  {
    if k > 0 {
      InterleavingIsSerial(init, l, states, actions, k - 1);
      ActKeepsInv(init, l, states[k - 1], actions[k - 1]);
    }
  }

  // -------------------------------------------- every serial order can happen

  /** How many statements a transaction has before it, at most. */
  function Ahead(loc: Local): nat {
    match loc.pc
    case Upserting(n) => if loc.tx.BatchTx? && n <= |loc.tx.items| then |loc.tx.items| - n + 9 else 0
    case Locking => 8
    case Marking => 7
    case Registering => 6
    case Expecting => 6
    case Reading => 5
    case Counting => 4
    case Flipping => 3
    case SettingSealed => 2
    case Committing => 0
  }

  /** No statement of the transaction raises when it runs on this store. */
  predicate GoesThrough(db: State, tx: Tx) {
    tx.BatchTx? ==> !AnyRaises(db.rows, tx.t, tx.conn, tx.items, tx.now)
  }

  lemma NextDoesNotRaise(db: State, l: string, loc: Local, n: nat)
    requires OnTrack(db, l, loc) && loc.pc == Upserting(n) && n < |loc.tx.items| && GoesThrough(db, loc.tx)
    ensures !Raises(See(db, l, loc).rows, loc.tx.t, loc.tx.items[n])
  {
    var tx := loc.tx;
    RefsSnoc(tx.items, n);
    if Raises(See(db, l, loc).rows, tx.t, tx.items[n]) {
      RaisesIsFinal(db.rows, tx.t, tx.conn, tx.items, n + 1, tx.now);
    }
  }

  lemma AloneCanGoOn(s: System, l: string, id: nat)
    requires s.active.Keys == {id} && OnTrack(s.db, l, s.active[id]) && GoesThrough(s.db, s.active[id].tx)
    requires !s.active[id].pc.Committing?
    ensures CanAct(s, l, Execute(id)) && Ahead(Statement(s.db, l, s.active[id])) < Ahead(s.active[id])
  {
    var loc := s.active[id];
    if loc.pc.Upserting? && loc.pc.n < |loc.tx.items| {
      NextDoesNotRaise(s.db, l, loc, loc.pc.n);
    }
    AheadShrinks(s.db, l, loc);
  }

  lemma AheadOfUpserts(db: State, l: string, loc: Local)
    requires loc.pc.Upserting? && loc.tx.BatchTx? && loc.pc.n <= |loc.tx.items|
    ensures Ahead(Statement(db, l, loc)) < Ahead(loc)
  {
  }

  lemma AheadOfMarks(db: State, l: string, loc: Local)
    requires loc.pc.Locking? || (loc.pc.Marking? && loc.tx.BatchTx?) || loc.pc.Registering?
    ensures Ahead(Statement(db, l, loc)) < Ahead(loc)
  {
  }

  lemma AheadOfExpects(db: State, l: string, loc: Local)
    requires loc.pc.Expecting? && loc.tx.SealTx?
    ensures Ahead(Statement(db, l, loc)) < Ahead(loc)
  {
  }

  lemma AheadOfReads(db: State, l: string, loc: Local)
    requires loc.pc.Reading?
    ensures Ahead(Statement(db, l, loc)) < Ahead(loc)
  {
  }

  lemma AheadOfCounts(db: State, l: string, loc: Local)
    requires loc.pc.Counting?
    ensures Ahead(Statement(db, l, loc)) < Ahead(loc)
  {
    AfterCounts(db, l, loc);
    EndIsNearer(loc, Statement(db, l, loc));
  }

  lemma AfterCounts(db: State, l: string, loc: Local)
    requires loc.pc.Counting?
    ensures Statement(db, l, loc).pc.Committing? || Statement(db, l, loc).pc.Flipping?
  {
  }

  lemma EndIsNearer(loc: Local, r: Local)
    requires loc.pc.Counting? && (r.pc.Committing? || r.pc.Flipping?)
    ensures Ahead(r) < Ahead(loc)
  {
  }

  lemma AheadOfSeals(db: State, l: string, loc: Local)
    requires loc.pc.Flipping? || (loc.pc.SettingSealed? && l in See(db, l, loc).loads)
    ensures Ahead(Statement(db, l, loc)) < Ahead(loc)
  {
  }

  lemma SealsAKnownLoad(db: State, l: string, loc: Local)
    requires OnTrack(db, l, loc) && loc.pc.SettingSealed?
    ensures l in See(db, l, loc).loads
  {
  }

  lemma AheadShrinks(db: State, l: string, loc: Local)
    requires OnTrack(db, l, loc) && !loc.pc.Committing?
    ensures Ahead(Statement(db, l, loc)) < Ahead(loc)
  {
    if loc.pc.Upserting? {
      AheadOfUpserts(db, l, loc);
    } else if loc.pc.Flipping? {
      AheadOfSeals(db, l, loc);
    } else if loc.pc.SettingSealed? {
      SealsAKnownLoad(db, l, loc);
      AheadOfSeals(db, l, loc);
    } else if loc.pc.Expecting? {
      AheadOfExpects(db, l, loc);
    } else if loc.pc.Reading? {
      AheadOfReads(db, l, loc);
    } else if loc.pc.Counting? {
      AheadOfCounts(db, l, loc);
    } else {
      AheadOfMarks(db, l, loc);
    }
  }

  lemma OneMoreAction(init: State, l: string, states: seq<System>, actions: seq<Action>, a: Action)
    requires IsInterleaving(init, l, states, actions) && CanAct(states[|actions|], l, a)
    ensures IsInterleaving(init, l, states + [Act(states[|actions|], l, a)], actions + [a])
  {
    var states', actions' := states + [Act(states[|actions|], l, a)], actions + [a];
    forall i | 0 <= i < |actions'|
      ensures CanAct(states'[i], l, actions'[i]) && states'[i + 1] == Act(states'[i], l, actions'[i])
    {
      if i < |actions| {
        assert states'[i] == states[i] && states'[i + 1] == states[i + 1] && actions'[i] == actions[i];
      }
    }
  }

  /** One transaction is running, alone. */
  ghost predicate IsAlone(s: System, l: string, id: nat, db: State, log: seq<Tx>, tx: Tx) {
    && s.active.Keys == {id} && s.active[id].tx == tx && s.db == db && s.log == log
    && OnTrack(db, l, s.active[id]) && GoesThrough(db, tx)
  }

  lemma {:induction false} RunsToCommit(init: State, l: string, states: seq<System>, actions: seq<Action>, id: nat,
                                        db: State, log: seq<Tx>, tx: Tx)
    returns (states': seq<System>, actions': seq<Action>)
    requires IsInterleaving(init, l, states, actions) && IsAlone(states[|actions|], l, id, db, log, tx)
    ensures IsInterleaving(init, l, states', actions') && IsAlone(states'[|actions'|], l, id, db, log, tx)
    ensures states'[|actions'|].active[id].pc.Committing?
    decreases Ahead(states[|actions|].active[id])
  {
    var s := states[|actions|];
    if s.active[id].pc.Committing? {
      states', actions' := states, actions;
    } else {
      AloneCanGoOn(s, l, id);
      StatementKeepsTrack(db, l, s.active[id]);
      OneMoreAction(init, l, states, actions, Execute(id));
      var next := Act(s, l, Execute(id));
      assert next.active.Keys == {id};
      states', actions' := RunsToCommit(init, l, states + [next], actions + [Execute(id)], id, db, log, tx);
    }
  }

  lemma OneTransactionMore(init: State, l: string, states: seq<System>, actions: seq<Action>, log: seq<Tx>, tx: Tx)
    returns (states': seq<System>, actions': seq<Action>)
    requires IsInterleaving(init, l, states, actions) && states[|actions|] == System(SerialRun(init, l, log), map[], log)
    requires GoesThrough(SerialRun(init, l, log), tx)
    ensures IsInterleaving(init, l, states', actions')
    ensures states'[|actions'|].log == log + [tx] && states'[|actions'|].active == map[]
  {
    var db := SerialRun(init, l, log);
    StartIsOnTrack(db, l, tx);
    OneMoreAction(init, l, states, actions, Begin(0, tx));
    var begun := Act(states[|actions|], l, Begin(0, tx));
    states', actions' := RunsToCommit(init, l, states + [begun], actions + [Begin(0, tx)], 0, db, log, tx);
    OneMoreAction(init, l, states', actions', Commit(0));
    var done := Act(states'[|actions'|], l, Commit(0));
    assert done.active == map[];
    states', actions' := states' + [done], actions' + [Commit(0)];
  }

  /** Each transaction goes through on the store the ones before it leave. */
  ghost predicate AllGoThrough(init: State, l: string, log: seq<Tx>) {
    forall k :: 0 <= k < |log| ==> GoesThrough(SerialRun(init, l, log[..k]), log[k])
  }

  lemma StoreIsSerial(init: State, l: string, states: seq<System>, actions: seq<Action>, k: nat)
    requires IsInterleaving(init, l, states, actions) && k < |states|
    ensures states[k].db == SerialRun(init, l, states[k].log)
  {
    InterleavingIsSerial(init, l, states, actions, k);
  }

  lemma LogGoesOn(init: State, l: string, log: seq<Tx>, n: nat, states: seq<System>, actions: seq<Action>)
    returns (states': seq<System>, actions': seq<Action>)
    requires AllGoThrough(init, l, log) && n < |log| && IsInterleaving(init, l, states, actions)
    requires states[|actions|] == System(SerialRun(init, l, log[..n]), map[], log[..n])
    ensures IsInterleaving(init, l, states', actions')
    ensures states'[|actions'|] == System(SerialRun(init, l, log[..n + 1]), map[], log[..n + 1])
  {
    states', actions' := OneTransactionMore(init, l, states, actions, log[..n], log[n]);
    StoreIsSerial(init, l, states', actions', |actions'|);
    assert log[..n + 1] == log[..n] + [log[n]];
  }

  lemma {:induction false} OrderCanHappenUpTo(init: State, l: string, log: seq<Tx>, n: nat)
    returns (states: seq<System>, actions: seq<Action>)
    requires AllGoThrough(init, l, log) && n <= |log|
    ensures IsInterleaving(init, l, states, actions)
    ensures states[|actions|] == System(SerialRun(init, l, log[..n]), map[], log[..n])
  {
    if n == 0 {
      states, actions := [System(init, map[], [])], [];
    } else {
      var states0, actions0 := OrderCanHappenUpTo(init, l, log, n - 1);
      states, actions := LogGoesOn(init, l, log, n - 1, states0, actions0);
    }
  }

  /**
   * Main result: transactions that go through one after the other can do so: every such
   * list is the log of an interleaving that ends with nothing running.
   */
  lemma EveryOrderCanHappen(init: State, l: string, log: seq<Tx>) returns (states: seq<System>, actions: seq<Action>)
    requires AllGoThrough(init, l, log)
    ensures IsInterleaving(init, l, states, actions)
    ensures states[|actions|] == System(SerialRun(init, l, log), map[], log)
  {
    states, actions := OrderCanHappenUpTo(init, l, log, |log|);
    assert log[..|log|] == log;
  }

  // ------------------------------------------------ the order of the log

  predicate HasLoadLock(s: System, id: nat) {
    id in s.active && s.active[id].loadLock
  }

  /** The transaction took the load's lock in step `from` and has held it ever since, up to state `p`. */
  ghost predicate HeldSince(states: seq<System>, id: nat, from: nat, p: nat) {
    && from < p < |states| && !HasLoadLock(states[from], id)
    && forall k :: from < k <= p ==> HasLoadLock(states[k], id)
  }

  /** A transaction about to commit holds the lock, and took it in some step. */
  lemma {:induction false} LockWasTaken(init: State, l: string, states: seq<System>, actions: seq<Action>, id: nat, p: nat)
    returns (from: nat)
    requires IsInterleaving(init, l, states, actions) && p < |states| && HasLoadLock(states[p], id)
    ensures HeldSince(states, id, from, p)
    decreases p
  {
    if HasLoadLock(states[p - 1], id) {
      from := LockWasTaken(init, l, states, actions, id, p - 1);
    } else {
      from := p - 1;
    }
  }

  lemma CommitHoldsLock(init: State, l: string, states: seq<System>, actions: seq<Action>, p: nat, i: nat, j: nat)
    requires IsInterleaving(init, l, states, actions) && p < |actions| && actions[p] == Commit(i)
    ensures HasLoadLock(states[p], i) && !HasLoadLock(states[p + 1], i)
    ensures i != j ==> !HasLoadLock(states[p], j) && !HasLoadLock(states[p + 1], j)
  {
    InterleavingIsSerial(init, l, states, actions, p);
    assert CanAct(states[p], l, actions[p]) && states[p + 1] == Act(states[p], l, actions[p]);
    assert OnTrack(states[p].db, l, states[p].active[i]);
  }

  lemma {:induction false} LogGrows(init: State, l: string, states: seq<System>, actions: seq<Action>, p: nat, q: nat)
    requires IsInterleaving(init, l, states, actions) && p <= q < |states|
    ensures states[p].log <= states[q].log
    decreases q
  {
    if p < q {
      LogGrows(init, l, states, actions, p, q - 1);
      assert states[q] == Act(states[q - 1], l, actions[q - 1]);
    }
  }

  /**
   * Main result: the log is in the order of the load's lock. Of two commits the later
   * one's transaction took the lock only after the earlier one had committed.
   */
  lemma LogOrderIsLockOrder(init: State, l: string, states: seq<System>, actions: seq<Action>, p: nat, q: nat, i: nat, j: nat)
    returns (a: nat, b: nat)
    requires IsInterleaving(init, l, states, actions) && p < q < |actions|
    requires actions[p] == Commit(i) && actions[q] == Commit(j)
    ensures HeldSince(states, i, a, p) && HeldSince(states, j, b, q) && a < p < b < q
    ensures i in states[p].active && states[p].log + [states[p].active[i].tx] <= states[q].log
  {
    CommitHoldsLock(init, l, states, actions, p, i, j);
    CommitHoldsLock(init, l, states, actions, q, j, i);
    a := LockWasTaken(init, l, states, actions, i, p);
    b := LockWasTaken(init, l, states, actions, j, q);
    LogGrows(init, l, states, actions, p + 1, q);
    assert CanAct(states[p], l, actions[p]) && states[p + 1] == Act(states[p], l, actions[p]);
  }

  // ------------------------------------------------------------ one flip

  /** The k-th committed transaction is the one that seals the load. */
  predicate Flips(init: State, l: string, log: seq<Tx>, k: nat)
    requires k < |log|
  {
    !Sealed(SerialRun(init, l, log[..k]), l) && Sealed(SerialRun(init, l, log[..k + 1]), l)
  }

  lemma SealedStays(db: State, l: string, tx: Tx)
    requires Sealed(db, l)
    ensures Sealed(Serial(db, l, tx), l)
  {
  }

  lemma {:induction false} SealedForever(init: State, l: string, log: seq<Tx>, i: nat, j: nat)
    requires i <= j <= |log| && Sealed(SerialRun(init, l, log[..i]), l)
    ensures Sealed(SerialRun(init, l, log[..j]), l)
    decreases j - i
  {
    if i < j {
      SealedForever(init, l, log, i, j - 1);
      assert log[..j] == log[..j - 1] + [log[j - 1]];
      SerialRunStep(init, l, log[..j - 1], log[j - 1]);
      SealedStays(SerialRun(init, l, log[..j - 1]), l, log[j - 1]);
    }
  }

  /** Main result: of any number of committed transactions at most one flips the load. */
  lemma AtMostOneFlip(init: State, l: string, log: seq<Tx>, i: nat, j: nat)
    requires i < j < |log|
    ensures !(Flips(init, l, log, i) && Flips(init, l, log, j))
  {
    if Flips(init, l, log, i) {
      SealedForever(init, l, log, i + 1, j);
    }
  }

  /**
   * The flip happens in the transaction with which the distinct batches in reach
   * the announced number, and it leaves no row of the load staged.
   */
  lemma FlipNeedsEveryBatch(init: State, l: string, log: seq<Tx>, k: nat)
    requires k < |log| && Flips(init, l, log, k)
    ensures var before, after := SerialRun(init, l, log[..k]), SerialRun(init, l, log[..k + 1]);
            var own := if log[k].BatchTx? && log[k].batchIndex.Some? then {log[k].batchIndex.value} else {};
            && l in after.loads && after.loads[l].expected.Some?
            && |Received(before, l) + own| >= after.loads[l].expected.value
            && (forall r :: r in after.rows ==> !(after.rows[r].loadId == Some(l) && after.rows[r].status == Some(STAGED)))
  {
    var before, tx := SerialRun(init, l, log[..k]), log[k];
    assert log[..k + 1][..k] == log[..k];
    SerialIsFlip(before, l, tx);
    FlipLeavesNoneStaged(BeforeFlip(before, l, tx), l);
    var own := if tx.BatchTx? && tx.batchIndex.Some? then {tx.batchIndex.value} else {};
    BeforeFlipReceived(before, l, tx);
    assert Received(BeforeFlip(before, l, tx), l) == Received(before, l) + own;
  }

  lemma BeforeFlipReceived(db: State, l: string, tx: Tx)
    ensures var own := if tx.BatchTx? && tx.batchIndex.Some? then {tx.batchIndex.value} else {};
            Received(BeforeFlip(db, l, tx), l) == Received(db, l) + own
  {
  }

  lemma FlipLeavesNoneStaged(s: State, l: string)
    requires ReadyToFlip(s, l)
    ensures forall r :: r in FlipLoadIfComplete(s, l).rows ==>
              !(FlipLoadIfComplete(s, l).rows[r].loadId == Some(l) && FlipLoadIfComplete(s, l).rows[r].status == Some(STAGED))
  {
  }

  // ------------------------------------------- interleaved deliveries

  function TxOf(d: Delivery, e: LoadEvent): Tx
    requires d.Owns(e)
  {
    match e
    case Batch(i, now) => BatchTx(d.t, d.conn, d.content[i], Some(i), now)
    case Seal(now) => SealTx(|d.content|, now)
  }

  lemma SerialIsDeliver(db: State, d: Delivery, e: LoadEvent)
    requires d.Valid() && d.Owns(e)
    ensures Serial(db, d.loadId, TxOf(d, e)) == Deliver(db, d, e)
  {
    if e.Batch? {
      BatchIsStaging(db, d, e.i, e.now);
    }
  }

  lemma RunStep(init: State, d: Delivery, es: seq<LoadEvent>, e: LoadEvent)
    requires forall x :: x in es + [e] ==> d.Owns(x)
    ensures (forall x :: x in es ==> d.Owns(x)) && d.Owns(e)
    ensures Run(init, d, es + [e]) == Deliver(Run(init, d, es), d, e)
  {
    assert (es + [e])[..|es|] == es;
    assert forall x :: x in es ==> x in es + [e];
    assert e in es + [e];
  }

  lemma DeliveryStep(init: State, d: Delivery, log: seq<Tx>, es: seq<LoadEvent>, e: LoadEvent)
    requires d.Valid() && forall x :: x in es + [e] ==> d.Owns(x)
    requires (forall x :: x in es ==> d.Owns(x)) ==> SerialRun(init, d.loadId, log) == Run(init, d, es)
    ensures d.Owns(e) && SerialRun(init, d.loadId, log + [TxOf(d, e)]) == Run(init, d, es + [e])
  {
    RunStep(init, d, es, e);
    SerialRunStep(init, d.loadId, log, TxOf(d, e));
    SerialIsDeliver(Run(init, d, es), d, e);
  }

  function Txs(d: Delivery, es: seq<LoadEvent>): seq<Tx>
    requires forall e :: e in es ==> d.Owns(e)
  {
    if es == [] then [] else Txs(d, es[..|es| - 1]) + [TxOf(d, es[|es| - 1])]
  }

  lemma {:induction false} SerialRunIsDelivery(init: State, d: Delivery, es: seq<LoadEvent>)
    requires d.Valid()
    requires forall e :: e in es ==> d.Owns(e)
    ensures SerialRun(init, d.loadId, Txs(d, es)) == Run(init, d, es)
  {
    if es != [] {
      var before, e := es[..|es| - 1], es[|es| - 1];
      assert es == before + [e];
      SerialRunIsDelivery(init, d, before);
      DeliveryStep(init, d, Txs(d, before), before, e);
    }
  }

  /** The transaction delivers one of the load's events. */
  ghost predicate Belongs(d: Delivery, tx: Tx) {
    exists e :: d.Owns(e) && tx == TxOf(d, e)
  }

  /** Only transactions of the load are ever begun. */
  ghost predicate OnlyDelivers(d: Delivery, actions: seq<Action>) {
    forall k :: 0 <= k < |actions| && actions[k].Begin? ==> Belongs(d, actions[k].tx)
  }

  ghost predicate AllBelong(d: Delivery, s: System) {
    (forall i :: i in s.active ==> Belongs(d, s.active[i].tx)) && (forall tx :: tx in s.log ==> Belongs(d, tx))
  }

  lemma ActKeepsBelonging(d: Delivery, l: string, s: System, a: Action)
    requires CanAct(s, l, a) && AllBelong(d, s) && (a.Begin? ==> Belongs(d, a.tx))
    ensures AllBelong(d, Act(s, l, a))
  {
    match a
    case Begin(_, _) =>
    case Abort(_) =>
    case Commit(_) =>
    case Execute(id) => assert Statement(s.db, l, s.active[id]).tx == s.active[id].tx;
  }

  lemma {:induction false} EveryTxBelongs(init: State, d: Delivery, states: seq<System>, actions: seq<Action>, k: nat)
    requires IsInterleaving(init, d.loadId, states, actions) && OnlyDelivers(d, actions) && k < |states|
    ensures AllBelong(d, states[k])
  {
    if k > 0 {
      EveryTxBelongs(init, d, states, actions, k - 1);
      ActKeepsBelonging(d, d.loadId, states[k - 1], actions[k - 1]);
    }
  }

  /** The events a log of the load's transactions delivers. */
  lemma {:induction false} EventsOf(d: Delivery, log: seq<Tx>) returns (es: seq<LoadEvent>)
    requires forall tx :: tx in log ==> Belongs(d, tx)
    ensures (forall e :: e in es ==> d.Owns(e)) && Txs(d, es) == log
  {
    if log == [] {
      es := [];
    } else {
      var before, tx := log[..|log| - 1], log[|log| - 1];
      assert tx in log && forall x :: x in before ==> x in log;
      var front := EventsOf(d, before);
      var e :| d.Owns(e) && tx == TxOf(d, e);
      es := front + [e];
      assert es[..|front|] == front && log == before + [tx];
    }
  }

  /**
   * Main result: however the transactions of one load interleave, abort and
   * repeat, at every moment the committed load is sealed exactly when all batches
   * and a seal have committed, and its rows are all staged before and all queued
   * from then on. `es` are the events committed so far, in the order of the log.
   */
  lemma InterleavedLoadIsAllOrNothing(init: State, d: Delivery, states: seq<System>, actions: seq<Action>, k: nat)
    returns (es: seq<LoadEvent>)
    requires d.Valid() && Untouched(init, d.loadId)
    requires IsInterleaving(init, d.loadId, states, actions) && OnlyDelivers(d, actions) && k < |states|
    ensures (forall e :: e in es ==> d.Owns(e)) && Txs(d, es) == states[k].log
    ensures var db := states[k].db;
            && (Sealed(db, d.loadId) <==> Complete(d, es))
            && (forall r :: r in db.rows && db.rows[r].loadId == Some(d.loadId) ==>
                  db.rows[r].status == Some(if Complete(d, es) then QUEUED else STAGED))
  {
    InterleavingIsSerial(init, d.loadId, states, actions, k);
    EveryTxBelongs(init, d, states, actions, k);
    es := EventsOf(d, states[k].log);
    SerialRunIsDelivery(init, d, es);
    RunIsAccounted(init, d, es);
  }
}
