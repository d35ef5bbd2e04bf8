/**
 * Row locks of concurrent `ingest` calls: each call takes the rows it names in the
 * order of their joined keys. When calls on one table can never wait in a circle.
 */
module LockOrder {
  import opened Text
  import opened Rows
  import opened Upserts
  import opened Ingest
  import opened Loads
  import Chunks

  /** A transaction: the rows it locks in turn, how many it has, and whether it has ended. */
  datatype Tx = Tx(want: seq<RowRef>, got: nat, ended: bool)

  predicate Sane(x: Tx) {
    x.got <= |x.want|
  }

  predicate Holds(x: Tx, r: RowRef) {
    Sane(x) && !x.ended && r in x.want[..x.got]
  }

  /** Ready to lock its next row. */
  predicate Asks(x: Tx) {
    !x.ended && x.got < |x.want|
  }

  predicate Waits(sys: seq<Tx>, t: nat, u: nat)
    requires t < |sys| && u < |sys|
  {
    t != u && Asks(sys[t]) && Holds(sys[u], sys[t].want[sys[t].got])
  }

  // ------------------------------------------------------------ lock order

  /** The joined key of a row. */
  function Rank(r: RowRef): string {
    match r case Keyed(_, key) => Join(key, [KEY_SEPARATOR]) case Appended(_) => ""
  }

  /** A row with an empty id column: inserted plainly, after all others, yet under the unique index. */
  predicate IsBlank(r: RowRef) {
    r.Keyed? && "" in r.key
  }

  /** Rows with usable ids by their joined keys, then the blank ones. */
  predicate Precedes(r: RowRef, q: RowRef) {
    !IsBlank(r) && (IsBlank(q) || Less(Rank(r), Rank(q)))
  }

  lemma PrecedesIsStrictOrder(r: RowRef, q: RowRef, p: RowRef)
    ensures !Precedes(r, r)
    ensures Precedes(r, q) && Precedes(q, p) ==> Precedes(r, p)
  {
    LessIsTotal(Rank(r), Rank(r));
    if Less(Rank(r), Rank(q)) && Less(Rank(q), Rank(p)) {
      LessIsTransitive(Rank(r), Rank(q), Rank(p));
    }
  }

  predicate Rising(rs: seq<RowRef>) {
    forall i, j :: 0 <= i < j < |rs| ==> Precedes(rs[i], rs[j])
  }

  ghost predicate Ordered(sys: seq<Tx>) {
    forall t :: 0 <= t < |sys| ==> Sane(sys[t]) && Rising(sys[t].want)
  }

  /** Each transaction in the list waits for the next one. */
  ghost predicate IsWaitChain(sys: seq<Tx>, ts: seq<nat>) {
    && (forall i :: 0 <= i < |ts| ==> ts[i] < |sys|)
    && (forall i :: 0 <= i < |ts| - 1 ==> Waits(sys, ts[i], ts[i + 1]))
  }

  ghost predicate IsWaitCircle(sys: seq<Tx>, ts: seq<nat>) {
    |ts| >= 2 && IsWaitChain(sys, ts) && ts[0] == ts[|ts| - 1]
  }

  ghost predicate HasCircle(sys: seq<Tx>) {
    exists ts :: IsWaitCircle(sys, ts)
  }

  function NextRow(x: Tx): RowRef
    requires Asks(x)
  {
    x.want[x.got]
  }

  /** Whom a transaction waits for wants something later in the order, if anything. */
  lemma WaitRises(sys: seq<Tx>, t: nat, u: nat)
    requires Ordered(sys) && t < |sys| && u < |sys| && Waits(sys, t, u) && Asks(sys[u])
    ensures Precedes(NextRow(sys[t]), NextRow(sys[u]))
  {
    var r := sys[t].want[sys[t].got];
    var i :| 0 <= i < sys[u].got && sys[u].want[i] == r;
    assert Precedes(sys[u].want[i], sys[u].want[sys[u].got]);
  }

  lemma {:induction false} ChainRises(sys: seq<Tx>, ts: seq<nat>)
    requires Ordered(sys) && IsWaitChain(sys, ts) && |ts| >= 2 && Asks(sys[ts[|ts| - 1]])
    ensures Asks(sys[ts[0]]) && Precedes(NextRow(sys[ts[0]]), NextRow(sys[ts[|ts| - 1]]))
    decreases |ts|
  {
    var k := |ts| - 1;
    WaitRises(sys, ts[k - 1], ts[k]);
    if k > 1 {
      ChainRises(sys, ts[..k]);
      PrecedesIsStrictOrder(NextRow(sys[ts[0]]), NextRow(sys[ts[k - 1]]), NextRow(sys[ts[k]]));
    }
  }

  /** Transactions that lock in rising order never wait in a circle. */
  lemma NoWaitCircle(sys: seq<Tx>)
    requires Ordered(sys)
    ensures !HasCircle(sys)
  {
    forall ts: seq<nat>
      ensures !IsWaitCircle(sys, ts)
    {
      if IsWaitCircle(sys, ts) {
        assert Waits(sys, ts[0], ts[1]);
        ChainRises(sys, ts);
        PrecedesIsStrictOrder(NextRow(sys[ts[0]]), NextRow(sys[ts[0]]), NextRow(sys[ts[0]]));
      }
    }
  }

  /** Waits for nobody: its next row is free, or it has all it wants and can commit. */
  predicate CanGoOn(sys: seq<Tx>, t: nat)
    requires t < |sys|
  {
    !sys[t].ended && forall u :: 0 <= u < |sys| ==> !Waits(sys, t, u)
  }

  /** The end of a longest wait chain from a transaction. */
  lemma {:induction false} ChainEnds(sys: seq<Tx>, t: nat, seen: set<nat>) returns (v: nat)
    requires Ordered(sys) && t < |sys| && !sys[t].ended
    requires forall s :: s in seen ==> s < |sys| && (Asks(sys[t]) ==> Asks(sys[s]) && Precedes(NextRow(sys[s]), NextRow(sys[t])))
    requires t !in seen
    ensures v < |sys| && CanGoOn(sys, v)
    decreases |sys| - |seen|
  {
    InRange(seen, |sys|);
    if CanGoOn(sys, t) {
      v := t;
    } else {
      var u :| 0 <= u < |sys| && Waits(sys, t, u);
      if Asks(sys[u]) {
        WaitRises(sys, t, u);
        forall s | s in seen + {t}
          ensures s < |sys| && Asks(sys[s]) && Precedes(NextRow(sys[s]), NextRow(sys[u])) && s != u
        {
          if s != t {
            PrecedesIsStrictOrder(NextRow(sys[s]), NextRow(sys[t]), NextRow(sys[u]));
          }
          PrecedesIsStrictOrder(NextRow(sys[u]), NextRow(sys[u]), NextRow(sys[u]));
        }
        InRange(seen + {t}, |sys|);
        v := ChainEnds(sys, u, seen + {t});
      } else {
        v := u;
      }
    }
  }

  lemma {:induction false} InRange(s: set<nat>, n: nat)
    requires forall x :: x in s ==> x < n
    ensures |s| <= n
  {
    if n == 0 {
      assert s == {};
    } else {
      InRange(s - {n - 1}, n - 1);
    }
  }

  /** While any of them is open, one can lock its next row or commit. */
  lemma SomeTransactionGoesOn(sys: seq<Tx>, t: nat)
    requires Ordered(sys) && t < |sys| && !sys[t].ended
    ensures exists v :: 0 <= v < |sys| && CanGoOn(sys, v)
  {
    var v := ChainEnds(sys, t, {});
  }

  // --------------------------------------------------------- the rows of ingest

  /** The stored rows a batch locks, in the order it first meets them; an appended row meets no other call. */
  function LockedRows(items: seq<Item>): seq<RowRef> {
    if items == [] then []
    else WithLock(LockedRows(items[..|items| - 1]), items[|items| - 1].ref)
  }

  function WithLock(held: seq<RowRef>, r: RowRef): seq<RowRef> {
    if r.Keyed? && r !in held then held + [r] else held
  }

  lemma LockedRowsSnoc(items: seq<Item>, it: Item)
    ensures LockedRows(items + [it]) == WithLock(LockedRows(items), it.ref)
  {
    assert (items + [it])[..|items|] == items;
  }

  lemma PlanItemRank(t: Template, conn: string, ds: seq<Data>, k: string)
    requires CopiesAt(t, ds, k) != []
    ensures var r := PlanItem(t, conn, ds, k).ref; r.Keyed? && Rank(r) == k && !IsBlank(r)
  {
    PlanItemHasKey(t, conn, ds, k);
  }

  /** The rows of the plan are all different, none blank, and ranked by their keys. */
  ghost predicate RankedBy(rs: seq<RowRef>, keys: seq<string>) {
    |rs| == |keys| && forall i :: 0 <= i < |rs| ==> Rank(rs[i]) == keys[i] && !IsBlank(rs[i])
  }

  lemma {:induction false} PlanIsRanked(t: Template, conn: string, ds: seq<Data>, keys: seq<string>)
    requires forall k :: k in keys ==> CopiesAt(t, ds, k) != []
    requires forall i, j :: 0 <= i < j < |keys| ==> keys[i] != keys[j]
    ensures RankedBy(LockedRows(Plan(t, conn, ds, keys)), keys)
  {
    if keys != [] {
      var before, k := keys[..|keys| - 1], keys[|keys| - 1];
      PlanIsRanked(t, conn, ds, before);
      PlanItemRank(t, conn, ds, k);
      LockedRowsSnoc(Plan(t, conn, ds, before), PlanItem(t, conn, ds, k));
    }
  }

  lemma RankedIsRising(rs: seq<RowRef>, keys: seq<string>)
    requires RankedBy(rs, keys) && forall i, j :: 0 <= i < j < |keys| ==> Less(keys[i], keys[j])
    ensures Rising(rs)
  {
    forall i, j | 0 <= i < j < |rs|
      ensures Precedes(rs[i], rs[j])
    {
      assert Less(keys[i], keys[j]);
    }
  }

  /** Rising, with no blank row but this one. */
  predicate RisingTo(rs: seq<RowRef>, blank: RowRef) {
    Rising(rs) && forall r :: r in rs && IsBlank(r) ==> r == blank
  }

  lemma BlankIsLast(held: seq<RowRef>, r: RowRef, blank: RowRef)
    requires RisingTo(held, blank) && IsBlank(blank) && (r.Appended? || r == blank)
    ensures RisingTo(WithLock(held, r), blank)
  {
  }

  lemma {:induction false} OneBlankComesLast(a: seq<Item>, b: seq<Item>, blank: RowRef)
    requires RisingTo(LockedRows(a), blank) && IsBlank(blank)
    requires forall it :: it in b ==> it.ref.Appended? || it.ref == blank
    ensures RisingTo(LockedRows(a + b), blank)
  {
    if b == [] {
      assert a + b == a;
    } else {
      var before, last := b[..|b| - 1], b[|b| - 1];
      assert b == before + [last] && last in b;
      OneBlankComesLast(a, before, blank);
      Chunks.Assoc(a, before, [last]);
      LockedRowsSnoc(a + before, last);
      BlankIsLast(LockedRows(a + before), last.ref, blank);
    }
  }

  /** No id column holds the empty string: a row either has a usable id or meets no other. */
  predicate NoBlankIds(t: Template, ds: seq<Data>) {
    forall d :: d in ds ==> HasUsableId(t, d) || RefOf(t, "", d, 0).Appended?
  }

  /** At most one blank row can be named: a single id column, or no blank id at all. */
  predicate OneBlankAtMost(t: Template, ds: seq<Data>) {
    |t.idFields| <= 1 || NoBlankIds(t, ds)
  }

  /** The rows inserted without a usable id: numbered ones, and with one column the one blank row. */
  lemma RestIsBlank(t: Template, conn: string, ds: seq<Data>, n: nat)
    requires OneBlankAtMost(t, ds)
    ensures forall it :: it in Items(t, conn, WithoutId(t, ds), n) ==> it.ref.Appended? || it.ref == Keyed(conn, [""])
  {
    ItemsComeFromRows(t, conn, WithoutId(t, ds), n);
    WithoutIdAreRows(t, ds);
    forall it | it in Items(t, conn, WithoutId(t, ds), n) && it.ref.Keyed?
      ensures it.ref == Keyed(conn, [""])
    {
      assert it.data in ds && !HasUsableId(t, it.data) && it.ref == RefOf(t, conn, it.data, 0);
      assert |it.ref.key| == 1 && "" in it.ref.key;
    }
  }

  /** One `ingest` call: its rows, the sorted keys of its dedup, and the numbers given out before it. */
  datatype Call = Call(conn: string, ds: seq<Data>, keys: seq<string>, n: nat)

  /** What the call locks, in order. */
  ghost function LocksOf(t: Template, c: Call): seq<RowRef>
    requires IsKeyOrder(t, c.ds, c.keys)
  {
    LockedRows(BatchItems(t, c.conn, c.ds, c.keys, c.n))
  }

  /** An ingest that can name one blank row at most locks in rising order, whatever the order of its rows. */
  lemma IngestLocksRise(t: Template, c: Call)
    requires OneBlankAtMost(t, c.ds) && IsKeyOrder(t, c.ds, c.keys)
    ensures Rising(LocksOf(t, c))
  {
    var plan, blank := Plan(t, c.conn, c.ds, c.keys), Keyed(c.conn, [""]);
    PlanRefs(t, c.conn, c.ds, c.keys);
    PlanIsRanked(t, c.conn, c.ds, c.keys);
    RankedIsRising(LockedRows(plan), c.keys);
    RankedHasNoBlank(LockedRows(plan), c.keys);
    RestIsBlank(t, c.conn, c.ds, c.n);
    assert blank.key[0] == "";
    OneBlankComesLast(plan, Items(t, c.conn, WithoutId(t, c.ds), c.n), blank);
  }

  lemma RankedHasNoBlank(rs: seq<RowRef>, keys: seq<string>)
    requires RankedBy(rs, keys)
    ensures forall r :: r in rs ==> !IsBlank(r)
  {
  }

  /** What the call updates at its end, without load metadata, it has locked before. */
  lemma {:induction false} LaterUpdatesAreHeld(rows: Table, t: Template, conn: string, items: seq<Item>, now: nat, r: RowRef)
    requires r in Affected(rows, t, conn, items, now) && r.Keyed?
    ensures r in LockedRows(items)
  {
    AffectedAreItems(rows, t, conn, items, now);
    var it :| it in items && it.ref == r;
    LockedRowsHas(items, it);
  }

  lemma {:induction false} LockedRowsHas(items: seq<Item>, it: Item)
    requires it in items && it.ref.Keyed?
    ensures it.ref in LockedRows(items)
  {
    if items[|items| - 1] != it {
      assert it in items[..|items| - 1];
      LockedRowsHas(items[..|items| - 1], it);
    }
  }

  // ------------------------------------------------------ concurrent ingests

  /** One transaction locks its next row, which nobody holds, or ends. */
  predicate Moves(a: seq<Tx>, i: nat, b: seq<Tx>)
    requires i < |a|
  {
    !a[i].ended &&
    (b == a[i := a[i].(ended := true)] ||
     (Asks(a[i]) && CanGoOn(a, i) && b == a[i := a[i].(got := a[i].got + 1)]))
  }

  ghost predicate Step(a: seq<Tx>, b: seq<Tx>) {
    exists i :: 0 <= i < |a| && Moves(a, i, b)
  }

  ghost predicate IsLockRun(run: seq<seq<Tx>>) {
    forall k :: 0 <= k < |run| - 1 ==> Step(run[k], run[k + 1])
  }

  /** Before anything is locked, each transaction is one of the calls. */
  ghost predicate AreCalls(t: Template, sys: seq<Tx>, calls: seq<Call>) {
    |sys| == |calls| &&
    forall i :: 0 <= i < |sys| ==>
      IsKeyOrder(t, calls[i].ds, calls[i].keys) && sys[i] == Tx(LocksOf(t, calls[i]), 0, false)
  }

  ghost predicate IsIngestRun(t: Template, calls: seq<Call>, run: seq<seq<Tx>>) {
    run != [] && AreCalls(t, run[0], calls) && IsLockRun(run)
  }

  lemma StepKeepsOrder(a: seq<Tx>, b: seq<Tx>)
    requires Ordered(a) && Step(a, b)
    ensures Ordered(b)
  {
    var i :| 0 <= i < |a| && Moves(a, i, b);
    forall t | 0 <= t < |b|
      ensures Sane(b[t]) && Rising(b[t].want)
    {
      assert Sane(a[t]) && Rising(a[t].want) && b[t].want == a[t].want;
    }
  }

  lemma {:induction false} RunStaysOrdered(run: seq<seq<Tx>>)
    requires run != [] && Ordered(run[0]) && IsLockRun(run)
    ensures Ordered(run[|run| - 1])
  {
    if |run| > 1 {
      var before := run[..|run| - 1];
      assert IsLockRun(before);
      RunStaysOrdered(before);
      StepKeepsOrder(run[|run| - 2], run[|run| - 1]);
    }
  }

  lemma CallsAreOrdered(t: Template, calls: seq<Call>, sys: seq<Tx>)
    requires AreCalls(t, sys, calls) && forall c :: c in calls ==> OneBlankAtMost(t, c.ds)
    ensures Ordered(sys)
  {
    forall i | 0 <= i < |sys|
      ensures Sane(sys[i]) && Rising(sys[i].want)
    {
      assert calls[i] in calls;
      IngestLocksRise(t, calls[i]);
    }
  }

  /** Main result: whatever calls run together, at every moment none waits in a circle and an open one can go on. */
  lemma IngestsNeverDeadlock(t: Template, calls: seq<Call>, run: seq<seq<Tx>>)
    requires IsIngestRun(t, calls, run) && forall c :: c in calls ==> OneBlankAtMost(t, c.ds)
    ensures var sys := run[|run| - 1];
            !HasCircle(sys) && ((exists u :: 0 <= u < |sys| && !sys[u].ended) ==> exists v :: 0 <= v < |sys| && CanGoOn(sys, v))
  {
    CallsAreOrdered(t, calls, run[0]);
    RunStaysOrdered(run);
    var sys := run[|run| - 1];
    NoWaitCircle(sys);
    if u :| 0 <= u < |sys| && !sys[u].ended {
      SomeTransactionGoesOn(sys, u);
    }
  }

  // --------------------------------------------------- two columns, two blanks

  /** An id tuple whose first column alone is not blank. */
  function HalfBlank(n: nat, x: string): seq<string>
    requires n >= 1
  {
    [x] + seq(n - 1, _ => "")
  }

  lemma HalfBlankIsKeyed(t: Template, conn: string, x: string, m: nat)
    requires |t.idFields| >= 2 && forall i, j :: 0 <= i < j < |t.idFields| ==> t.idFields[i] != t.idFields[j]
    ensures var d := DataWith(t.idFields, HalfBlank(|t.idFields|, x));
            !HasUsableId(t, d) && RefOf(t, conn, d, m) == Keyed(conn, HalfBlank(|t.idFields|, x))
  {
    DataWithHasTexts(t.idFields, HalfBlank(|t.idFields|, x));
    assert HalfBlank(|t.idFields|, x)[1] == "";
  }

  lemma {:induction false} NoneUsable(t: Template, ds: seq<Data>, k: string)
    requires forall d :: d in ds ==> !HasUsableId(t, d)
    ensures WithoutId(t, ds) == ds && CopiesAt(t, ds, k) == []
  {
    if ds != [] {
      var before, d := ds[..|ds| - 1], ds[|ds| - 1];
      assert d in ds && ds == before + [d];
      NoneUsable(t, before, k);
    }
  }

  lemma NoKeys(t: Template, ds: seq<Data>)
    requires forall d :: d in ds ==> !HasUsableId(t, d)
    ensures IsKeyOrder(t, ds, [])
  {
    forall k
      ensures CopiesAt(t, ds, k) == []
    {
      NoneUsable(t, ds, k);
    }
  }

  /** With no usable id at all, a batch is its rows in arrival order. */
  lemma BatchOfUnusable(t: Template, conn: string, ds: seq<Data>, n: nat)
    requires forall d :: d in ds ==> !HasUsableId(t, d)
    ensures IsKeyOrder(t, ds, []) && BatchItems(t, conn, ds, [], n) == Items(t, conn, ds, n)
  {
    NoKeys(t, ds);
    NoneUsable(t, ds, "");
    assert Plan(t, conn, ds, []) == [];
    assert [] + Items(t, conn, ds, n) == Items(t, conn, ds, n);
  }

  lemma TwoItems(t: Template, conn: string, a: Data, b: Data, p: RowRef, q: RowRef, n: nat)
    requires p.Keyed? && q.Keyed? && p != q
    requires forall m :: RefOf(t, conn, a, m) == p && RefOf(t, conn, b, m) == q
    ensures LockedRows(Items(t, conn, [a, b], n)) == [p, q]
  {
    ItemsSnoc(t, conn, [], a, n);
    ItemsSnoc(t, conn, [a], b, n);
    assert [] + [a] == [a] && [a] + [b] == [a, b];
    LockedRowsSnoc([], Item(p, a));
    LockedRowsSnoc([Item(p, a)], Item(q, b));
    assert [] + [Item(p, a)] == [Item(p, a)];
    assert [] + [p] == [p] && [p] + [q] == [p, q];
  }

  /** A call with two half-blank rows, in this order. */
  function BlankCall(t: Template, x: string, y: string): Call
    requires |t.idFields| >= 2
  {
    var k := |t.idFields|;
    Call("", [DataWith(t.idFields, HalfBlank(k, x)), DataWith(t.idFields, HalfBlank(k, y))], [], 0)
  }

  lemma BlankCallLocks(t: Template, x: string, y: string)
    requires |t.idFields| >= 2 && x != y && forall i, j :: 0 <= i < j < |t.idFields| ==> t.idFields[i] != t.idFields[j]
    ensures var c, k := BlankCall(t, x, y), |t.idFields|;
            IsKeyOrder(t, c.ds, c.keys) && LocksOf(t, c) == [Keyed("", HalfBlank(k, x)), Keyed("", HalfBlank(k, y))]
  {
    var k := |t.idFields|;
    var a, b := DataWith(t.idFields, HalfBlank(k, x)), DataWith(t.idFields, HalfBlank(k, y));
    var p, q := Keyed("", HalfBlank(k, x)), Keyed("", HalfBlank(k, y));
    forall m: nat
      ensures RefOf(t, "", a, m) == p && RefOf(t, "", b, m) == q && !HasUsableId(t, a) && !HasUsableId(t, b)
    {
      HalfBlankIsKeyed(t, "", x, m);
      HalfBlankIsKeyed(t, "", y, m);
    }
    HalfBlankIsKeyed(t, "", x, 0);
    HalfBlankIsKeyed(t, "", y, 0);
    BatchOfUnusable(t, "", [a, b], 0);
    assert HalfBlank(k, x)[0] != HalfBlank(k, y)[0];
    TwoItems(t, "", a, b, p, q, 0);
  }

  function Opposite(p: RowRef, q: RowRef, first: nat, second: nat): seq<Tx> {
    [Tx([p, q], first, false), Tx([q, p], second, false)]
  }

  lemma FirstLocks(p: RowRef, q: RowRef)
    ensures Step(Opposite(p, q, 0, 0), Opposite(p, q, 1, 0))
  {
    var a := Opposite(p, q, 0, 0);
    assert a[1].want[..0] == [];
    assert a[0 := a[0].(got := 1)] == Opposite(p, q, 1, 0);
    assert Moves(a, 0, Opposite(p, q, 1, 0));
  }

  lemma SecondLocks(p: RowRef, q: RowRef)
    requires p != q
    ensures Step(Opposite(p, q, 1, 0), Opposite(p, q, 1, 1))
  {
    var a := Opposite(p, q, 1, 0);
    assert a[0].want[..1] == [p];
    assert a[1 := a[1].(got := 1)] == Opposite(p, q, 1, 1);
    assert Moves(a, 1, Opposite(p, q, 1, 1));
  }

  /** Two transactions with the same two rows in opposite orders, each holding its first. */
  lemma OppositeOrdersDeadlock(p: RowRef, q: RowRef)
    requires p != q
    ensures IsLockRun([Opposite(p, q, 0, 0), Opposite(p, q, 1, 0), Opposite(p, q, 1, 1)])
    ensures HasCircle(Opposite(p, q, 1, 1))
  {
    FirstLocks(p, q);
    SecondLocks(p, q);
    var sys := Opposite(p, q, 1, 1);
    assert sys[0].want[..1] == [p] && sys[1].want[..1] == [q];
    assert Waits(sys, 0, 1) && Waits(sys, 1, 0);
    assert IsWaitCircle(sys, [0, 1, 0]);
  }

  /** No run of ingests over the template ever waits in a circle, blank ids or not. */
  ghost predicate NeverCircles(t: Template) {
    forall calls, run :: IsIngestRun(t, calls, run) ==> !HasCircle(run[|run| - 1])
  }

  lemma TwoColumnsCircle(t: Template)
    requires |t.idFields| >= 2 && forall i, j :: 0 <= i < j < |t.idFields| ==> t.idFields[i] != t.idFields[j]
    ensures !NeverCircles(t)
  {
    var k := |t.idFields|;
    var p, q := Keyed("", HalfBlank(k, "a")), Keyed("", HalfBlank(k, "b"));
    var calls := [BlankCall(t, "a", "b"), BlankCall(t, "b", "a")];
    BlankCallLocks(t, "a", "b");
    BlankCallLocks(t, "b", "a");
    assert HalfBlank(k, "a")[0] != HalfBlank(k, "b")[0];
    OppositeOrdersDeadlock(p, q);
    assert AreCalls(t, Opposite(p, q, 0, 0), calls);
    assert IsIngestRun(t, calls, [Opposite(p, q, 0, 0), Opposite(p, q, 1, 0), Opposite(p, q, 1, 1)]);
  }

  /**
   * Main result: concurrent ingests over a template can never wait in a circle exactly
   * when the template has at most one id column.
   */
  lemma NeverCirclesIffOneColumn(t: Template)
    requires forall i, j :: 0 <= i < j < |t.idFields| ==> t.idFields[i] != t.idFields[j]
    ensures NeverCircles(t) <==> |t.idFields| <= 1
  {
    if |t.idFields| <= 1 {
      forall calls, run | IsIngestRun(t, calls, run)
        ensures !HasCircle(run[|run| - 1])
      {
        IngestsNeverDeadlock(t, calls, run);
      }
    } else {
      TwoColumnsCircle(t);
    }
  }
}
