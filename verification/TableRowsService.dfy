/**
 * The row service and its database. Each method runs the statements of its
 * original in order; contracts speak of `View`, the stored state as a value.
 */
module TableRowsService {
  import opened Text
  import opened Rows
  import opened Upserts
  import opened Statements
  import opened Ingest
  import opened Chunks
  import opened CallbackRows

  // ------------------------------------------------------ batches in pieces

  lemma {:induction false} UpsertEachConcat(rows: Table, t: Template, conn: string, a: seq<Item>, b: seq<Item>, now: nat)
    ensures UpsertEach(rows, t, conn, a + b, now) == UpsertEach(UpsertEach(rows, t, conn, a, now), t, conn, b, now)
    ensures Affected(rows, t, conn, a + b, now)
         == Affected(rows, t, conn, a, now) + Affected(UpsertEach(rows, t, conn, a, now), t, conn, b, now)
    ensures AnyRaises(rows, t, conn, a + b, now) <==>
            AnyRaises(rows, t, conn, a, now) || AnyRaises(UpsertEach(rows, t, conn, a, now), t, conn, b, now)
  {
    if b == [] {
      assert a + b == a;
    } else {
      assert (a + b)[..|a + b| - 1] == a + b[..|b| - 1];
      UpsertEachConcat(rows, t, conn, a, b[..|b| - 1], now);
    }
  }

  predicate DistinctRefs(items: seq<Item>) {
    forall i, j :: 0 <= i < j < |items| ==> items[i].ref != items[j].ref
  }

  /** How many items insert a row, and how many get past the guard of an existing one. */
  function Inserts(rows: Table, items: seq<Item>): nat {
    if items == [] then 0
    else Inserts(rows, items[..|items| - 1]) + (if items[|items| - 1].ref in rows then 0 else 1)
  }

  function Updates(rows: Table, t: Template, items: seq<Item>): nat {
    if items == [] then 0
    else
      var it := items[|items| - 1];
      Updates(rows, t, items[..|items| - 1]) + (if it.ref in rows && Guard(t, rows[it.ref], it.data).Take? then 1 else 0)
  }

  lemma {:induction false} CountsConcat(rows: Table, t: Template, a: seq<Item>, b: seq<Item>)
    ensures Inserts(rows, a + b) == Inserts(rows, a) + Inserts(rows, b)
    ensures Updates(rows, t, a + b) == Updates(rows, t, a) + Updates(rows, t, b)
  {
    if b == [] {
      assert a + b == a;
    } else {
      assert (a + b)[..|a + b| - 1] == a + b[..|b| - 1];
      CountsConcat(rows, t, a, b[..|b| - 1]);
    }
  }

  /** One more item of a chunk of distinct rows, judged on the row as it was at the start. */
  lemma ChunkStep(rows: Table, t: Template, conn: string, before: seq<Item>, it: Item, now: nat)
    requires forall b :: b in before ==> b.ref != it.ref
    ensures var mid, items := UpsertEach(rows, t, conn, before, now), before + [it];
            && Lookup(mid, it.ref) == Lookup(rows, it.ref)
            && UpsertEach(rows, t, conn, items, now) == Upsert(mid, t, conn, it, now)
            && (AnyRaises(rows, t, conn, items, now) <==> AnyRaises(rows, t, conn, before, now) || Raises(mid, t, it))
            && Affected(rows, t, conn, items, now) ==
               Affected(rows, t, conn, before, now) + (if TakenBy(t, Lookup(mid, it.ref), it.data) then {it.ref} else {})
            && Inserts(rows, items) == Inserts(rows, before) + (if it.ref in mid then 0 else 1)
            && Updates(rows, t, items) == Updates(rows, t, before)
               + (if it.ref in mid && TakenBy(t, Lookup(mid, it.ref), it.data) then 1 else 0)
  {
    assert (before + [it])[..|before|] == before;
    UntouchedByOthers(rows, t, conn, before, now, it.ref);
  }

  /** A statement that raises part way raises as a whole. */
  lemma RaisesIsFinal(rows: Table, t: Template, conn: string, items: seq<Item>, j: nat, now: nat)
    requires j <= |items| && AnyRaises(rows, t, conn, items[..j], now)
    ensures AnyRaises(rows, t, conn, items, now)
  {
    UpsertEachConcat(rows, t, conn, items[..j], items[j..], now);
    assert items[..j] + items[j..] == items;
  }

  /** Items leave the rows of other items as they were. */
  lemma {:induction false} UntouchedByOthers(rows: Table, t: Template, conn: string, items: seq<Item>, now: nat, r: RowRef)
    requires forall it :: it in items ==> it.ref != r
    ensures Lookup(UpsertEach(rows, t, conn, items, now), r) == Lookup(rows, r)
  {
    if items != [] {
      UntouchedByOthers(rows, t, conn, items[..|items| - 1], now, r);
    }
  }

  lemma {:induction false} CountsSeeOnlyTheirRows(a: Table, b: Table, t: Template, items: seq<Item>)
    requires forall it :: it in items ==> Lookup(a, it.ref) == Lookup(b, it.ref)
    ensures Inserts(a, items) == Inserts(b, items) && Updates(a, t, items) == Updates(b, t, items)
  {
    if items != [] {
      var it := items[|items| - 1];
      assert it in items;
      CountsSeeOnlyTheirRows(a, b, t, items[..|items| - 1]);
    }
  }

  // ------------------------------------------------------------- the dedup

  lemma CopiesAtSnoc(t: Template, ds: seq<Data>, d: Data, k: string)
    ensures CopiesAt(t, ds + [d], k) ==
            if HasUsableId(t, d) && JoinKey(t, d) == k then CopiesAt(t, ds, k) + [d] else CopiesAt(t, ds, k)
  {
    assert (ds + [d])[..|ds|] == ds;
  }

  lemma WithoutIdSnoc(t: Template, ds: seq<Data>, d: Data)
    ensures WithoutId(t, ds + [d]) == WithoutId(t, ds) + (if HasUsableId(t, d) then [] else [d])
  {
    assert (ds + [d])[..|ds|] == ds;
  }

  lemma LastGreatestSnoc(t: Template, copies: seq<Data>, d: Data)
    ensures LastGreatest(t, copies + [d]) ==
            if copies == [] || MemRecency(t, d) >= MemRecency(t, LastGreatest(t, copies)) then d else LastGreatest(t, copies)
  {
    assert (copies + [d])[..|copies|] == copies;
  }

  function Get(withId: map<string, Data>, k: string): Option<Data> {
    if k in withId then Some(withId[k]) else None
  }

  /** What is kept of the copies of one key: nothing, or the newest. */
  ghost predicate KeptOf(t: Template, copies: seq<Data>, kept: Option<Data>) {
    kept == if copies == [] then None else Some(LastGreatest(t, copies))
  }

  /** Per joined key, the newest copy seen so far. */
  ghost predicate HoldsNewest(t: Template, ds: seq<Data>, withId: map<string, Data>) {
    forall k :: KeptOf(t, CopiesAt(t, ds, k), Get(withId, k))
  }

  /** The dedup's step on a row with a usable id. */
  function Keep(t: Template, withId: map<string, Data>, k: string, d: Data): map<string, Data> {
    if k !in withId || MemRecency(t, d) >= MemRecency(t, withId[k]) then withId[k := d] else withId
  }

  lemma HoldsNewestStep(t: Template, ds: seq<Data>, d: Data, withId: map<string, Data>)
    requires HoldsNewest(t, ds, withId) && HasUsableId(t, d)
    ensures HoldsNewest(t, ds + [d], Keep(t, withId, JoinKey(t, d), d))
  {
    var k := JoinKey(t, d);
    var copies := CopiesAt(t, ds, k);
    assert KeptOf(t, copies, Get(withId, k));
    LastGreatestSnoc(t, copies, d);
    forall l
      ensures KeptOf(t, CopiesAt(t, ds + [d], l), Get(Keep(t, withId, k, d), l))
    {
      assert KeptOf(t, CopiesAt(t, ds, l), Get(withId, l));
      CopiesAtSnoc(t, ds, d, l);
    }
  }

  lemma HoldsNewestSkip(t: Template, ds: seq<Data>, d: Data, withId: map<string, Data>)
    requires HoldsNewest(t, ds, withId) && !HasUsableId(t, d)
    ensures HoldsNewest(t, ds + [d], withId)
  {
    forall l
      ensures KeptOf(t, CopiesAt(t, ds + [d], l), Get(withId, l))
    {
      assert KeptOf(t, CopiesAt(t, ds, l), Get(withId, l));
      CopiesAtSnoc(t, ds, d, l);
    }
  }

  /** The split of one call: the copy kept per joined key, and the rows without an id. */
  method Dedup(t: Template, ds: seq<Data>) returns (withId: map<string, Data>, withoutId: seq<Data>)
    ensures HoldsNewest(t, ds, withId)
    ensures withoutId == WithoutId(t, ds)
  {
    withId, withoutId := map[], [];
    var i := 0;
    while i < |ds|
      invariant 0 <= i <= |ds|
      invariant HoldsNewest(t, ds[..i], withId)
      invariant withoutId == WithoutId(t, ds[..i])
    {
      assert ds[..i + 1] == ds[..i] + [ds[i]];
      WithoutIdSnoc(t, ds[..i], ds[i]);
      if !HasUsableId(t, ds[i]) {
        HoldsNewestSkip(t, ds[..i], ds[i], withId);
        withoutId := withoutId + [ds[i]];
      } else {
        var key := JoinKey(t, ds[i]);
        HoldsNewestStep(t, ds[..i], ds[i], withId);
        if key !in withId || MemRecency(t, ds[i]) >= MemRecency(t, withId[key]) {
          withId := withId[key := ds[i]];
        }
      }
      i := i + 1;
    }
    assert ds[..|ds|] == ds;
  }

  /** The keys of the dedup, sorted: the order in which the rows get locked. */
  method SortKeys(withId: map<string, Data>) returns (keys: seq<string>)
    ensures forall i, j :: 0 <= i < j < |keys| ==> Less(keys[i], keys[j])
    ensures forall k :: k in keys <==> k in withId
  {
    keys := [];
    var left := withId.Keys;
    while left != {}
      invariant left <= withId.Keys
      invariant forall i, j :: 0 <= i < j < |keys| ==> Less(keys[i], keys[j])
      invariant forall k :: k in withId <==> k in keys || k in left
      invariant forall k, l :: k in keys && l in left ==> Less(k, l)
      decreases left
    {
      var m := LeastKey(left);
      keys := keys + [m];
      left := left - {m};
    }
  }

  method LeastKey(s: set<string>) returns (m: string)
    requires s != {}
    ensures m in s && forall k :: k in s && k != m ==> Less(m, k)
  {
    m :| m in s;
    var left := s - {m};
    while left != {}
      invariant left < s && m in s && m !in left
      invariant forall k :: k in s - left && k != m ==> Less(m, k)
      decreases left
    {
      var k :| k in left;
      LessIsTotal(m, k);
      if Less(k, m) {
        forall l | l in s - left && l != m
          ensures Less(k, l)
        {
          LessIsTransitive(k, m, l);
        }
        m := k;
      }
      left := left - {k};
    }
  }

  lemma DistinctKeysDistinctRows(t: Template, conn: string, ds: seq<Data>, keys: seq<string>)
    requires IsKeyOrder(t, ds, keys)
    ensures DistinctRefs(Plan(t, conn, ds, keys))
  {
    PlanComesFromRows(t, conn, ds, keys);
    PlanRefs(t, conn, ds, keys);
    forall i, j | 0 <= i < j < |keys|
      ensures PlanItem(t, conn, ds, keys[i]).ref != PlanItem(t, conn, ds, keys[j]).ref
    {
      PlanItemHasKey(t, conn, ds, keys[i]);
      PlanItemHasKey(t, conn, ds, keys[j]);
    }
  }

  // ---------------------------------------------------- rows without an id

  /** The table and the affected rows after these items went through without raising. */
  ghost predicate WentThrough(start: Table, t: Template, conn: string, items: seq<Item>, now: nat, rows: Table, affected: set<RowRef>) {
    && !AnyRaises(start, t, conn, items, now)
    && rows == UpsertEach(start, t, conn, items, now) && affected == Affected(start, t, conn, items, now)
  }

  lemma {:induction false} ItemsConcat(t: Template, conn: string, a: seq<Data>, b: seq<Data>, n: nat)
    ensures AppendedCount(t, a + b) == AppendedCount(t, a) + AppendedCount(t, b)
    ensures Items(t, conn, a + b, n) == Items(t, conn, a, n) + Items(t, conn, b, n + AppendedCount(t, a))
  {
    if b == [] {
      assert a + b == a;
    } else {
      assert (a + b)[..|a + b| - 1] == a + b[..|b| - 1];
      ItemsConcat(t, conn, a, b[..|b| - 1], n);
    }
  }

  /** Nothing to upsert on: every item must be a new row. */
  lemma AppendStep(rows: Table, t: Template, conn: string, ds: seq<Data>, d: Data, n: nat, now: nat, mid: Table, affected: set<RowRef>)
    requires !HasUsableId(t, d)
    requires WentThrough(rows, t, conn, Items(t, conn, ds, n), now, mid, affected)
    ensures var r := RefOf(t, conn, d, n + AppendedCount(t, ds));
            && Items(t, conn, ds + [d], n) == Items(t, conn, ds, n) + [Item(r, d)]
            && AppendedCount(t, ds + [d]) == AppendedCount(t, ds) + (if r.Appended? then 1 else 0)
            && if r in mid then AnyRaises(rows, t, conn, Items(t, conn, ds + [d], n), now)
               else WentThrough(rows, t, conn, Items(t, conn, ds + [d], n), now, mid[r := NewRow(conn, d, now)], affected + {r})
  {
    var items := Items(t, conn, ds, n);
    var it := Item(RefOf(t, conn, d, n + AppendedCount(t, ds)), d);
    ItemsSnoc(t, conn, ds, d, n);
    assert (items + [it])[..|items|] == items;
  }

  lemma RaisesInFront(rows: Table, t: Template, conn: string, a: seq<Item>, b: seq<Item>, now: nat)
    requires AnyRaises(rows, t, conn, a, now)
    ensures AnyRaises(rows, t, conn, a + b, now)
  {
    UpsertEachConcat(rows, t, conn, a, b, now);
  }

  lemma ItemsSplit(t: Template, conn: string, ds: seq<Data>, i: nat, n: nat)
    requires i <= |ds|
    ensures Items(t, conn, ds, n) == Items(t, conn, ds[..i], n) + Items(t, conn, ds[i..], n + AppendedCount(t, ds[..i]))
  {
    ItemsConcat(t, conn, ds[..i], ds[i..], n);
    assert ds == ds[..i] + ds[i..];
  }

  lemma AppendRaisesIsFinal(rows: Table, t: Template, conn: string, ds: seq<Data>, i: nat, n: nat, now: nat)
    requires i <= |ds| && AnyRaises(rows, t, conn, Items(t, conn, ds[..i], n), now)
    ensures AnyRaises(rows, t, conn, Items(t, conn, ds, n), now)
  {
    ItemsSplit(t, conn, ds, i, n);
    RaisesInFront(rows, t, conn, Items(t, conn, ds[..i], n), Items(t, conn, ds[i..], n + AppendedCount(t, ds[..i])), now);
  }

  // -------------------------------------------------------- clean calls

  /** SQL can read the recency. */
  predicate Casts(t: Template, d: Data) {
    t.recencyField.Some? ==> SqlRecency(t.recencyField.value, d).Some?
  }

  /** Rows whose recency casts, over a table of such rows, never make the transaction roll back. */
  lemma {:induction false} CastingItemsDoNotRaise(rows: Table, t: Template, conn: string, items: seq<Item>, now: nat)
    requires DistinctRefs(items)
    requires forall it :: it in items && it.ref in rows ==> HasUsableId(t, it.data) && Casts(t, it.data) && Casts(t, rows[it.ref].data)
    ensures !AnyRaises(rows, t, conn, items, now)
  {
    if items != [] {
      var before, it := items[..|items| - 1], items[|items| - 1];
      CastingItemsDoNotRaise(rows, t, conn, before, now);
      UntouchedByOthers(rows, t, conn, before, now, it.ref);
      assert it in items;
      assert Lookup(UpsertEach(rows, t, conn, before, now), it.ref) == Lookup(rows, it.ref);
    }
  }

  lemma {:induction false} AppendedItemsAreNumbered(t: Template, conn: string, ds: seq<Data>, n: nat)
    requires forall d :: d in ds ==> RefOf(t, "", d, 0).Appended?
    ensures |Items(t, conn, ds, n)| == |ds| == AppendedCount(t, ds)
    ensures forall i :: 0 <= i < |ds| ==> Items(t, conn, ds, n)[i] == Item(Appended(n + i), ds[i])
  {
    if ds != [] {
      assert ds[|ds| - 1] in ds;
      AppendedItemsAreNumbered(t, conn, ds[..|ds| - 1], n);
    }
  }

  lemma AppendsAreFresh(rows: Table, t: Template, conn: string, ds: seq<Data>, n: nat)
    requires AllKeyable(t, ds)
    requires forall r :: r in rows && r.Appended? ==> r.n < n
    ensures DistinctRefs(Items(t, conn, WithoutId(t, ds), n))
    ensures forall it :: it in Items(t, conn, WithoutId(t, ds), n) ==> it.ref.Appended? && it.ref !in rows
  {
    WithoutIdAreRows(t, ds);
    AppendedItemsAreNumbered(t, conn, WithoutId(t, ds), n);
  }

  lemma DistinctConcat(a: seq<Item>, b: seq<Item>)
    requires DistinctRefs(a) && DistinctRefs(b)
    requires forall x, y :: x in a && y in b ==> x.ref != y.ref
    ensures DistinctRefs(a + b)
  {
  }

  lemma CastingBatchDoesNotRaise(rows: Table, t: Template, conn: string, ds: seq<Data>, keys: seq<string>, n: nat, now: nat)
    requires AllKeyable(t, ds) && IsKeyOrder(t, ds, keys)
    requires forall r :: r in rows ==> if r.Appended? then r.n < n else Casts(t, rows[r].data)
    requires forall d :: d in ds && HasUsableId(t, d) ==> Casts(t, d)
    ensures !AnyRaises(rows, t, conn, BatchItems(t, conn, ds, keys, n), now)
  {
    var plan, rest := Plan(t, conn, ds, keys), Items(t, conn, WithoutId(t, ds), n);
    PlanRefs(t, conn, ds, keys);
    DistinctKeysDistinctRows(t, conn, ds, keys);
    AppendsAreFresh(rows, t, conn, ds, n);
    DistinctConcat(plan, rest);
    CastingItemsDoNotRaise(rows, t, conn, plan + rest, now);
  }

  /** The items of a later piece are apart from those of the earlier ones. */
  lemma PieceIsApart(items: seq<Item>, i: nat, j: nat)
    requires DistinctRefs(items) && i <= j <= |items|
    ensures items[..j] == items[..i] + items[i..j] && DistinctRefs(items[i..j])
    ensures forall b, p :: b in items[..i] && p in items[i..j] ==> b.ref != p.ref
  {
  }

  lemma CountsOnChunk(rows: Table, t: Template, conn: string, before: seq<Item>, piece: seq<Item>, now: nat)
    requires forall b, p :: b in before && p in piece ==> b.ref != p.ref
    ensures Inserts(UpsertEach(rows, t, conn, before, now), piece) == Inserts(rows, piece)
    ensures Updates(UpsertEach(rows, t, conn, before, now), t, piece) == Updates(rows, t, piece)
  {
    forall p | p in piece
      ensures Lookup(UpsertEach(rows, t, conn, before, now), p.ref) == Lookup(rows, p.ref)
    {
      UntouchedByOthers(rows, t, conn, before, now, p.ref);
    }
    CountsSeeOnlyTheirRows(UpsertEach(rows, t, conn, before, now), rows, t, piece);
  }

  // ------------------------------------ the statements inside the transaction

  /** The table, affected rows and counts after these items went through without raising. */
  ghost predicate Upserted(start: Table, t: Template, conn: string, items: seq<Item>, now: nat,
                           rows: Table, affected: set<RowRef>, inserted: nat, upserted: nat) {
    && WentThrough(start, t, conn, items, now, rows, affected)
    && inserted == Inserts(start, items) && upserted == Updates(start, t, items)
  }

  lemma UpsertedConcat(start: Table, t: Template, conn: string, a: seq<Item>, b: seq<Item>, now: nat,
                       r1: Table, f1: set<RowRef>, i1: nat, u1: nat, r2: Table, f2: set<RowRef>, i2: nat, u2: nat)
    requires forall x, y :: x in a && y in b ==> x.ref != y.ref
    requires Upserted(start, t, conn, a, now, r1, f1, i1, u1)
    requires Upserted(r1, t, conn, b, now, r2, f2, i2, u2)
    ensures Upserted(start, t, conn, a + b, now, r2, f1 + f2, i1 + i2, u1 + u2)
  {
    UpsertEachConcat(start, t, conn, a, b, now);
    CountsOnChunk(start, t, conn, a, b, now);
    CountsConcat(start, t, a, b);
  }

  lemma RaisesInPiece(start: Table, t: Template, conn: string, items: seq<Item>, i: nat, j: nat, now: nat, mid: Table)
    requires i <= j <= |items| && mid == UpsertEach(start, t, conn, items[..i], now) && AnyRaises(mid, t, conn, items[i..j], now)
    ensures AnyRaises(start, t, conn, items, now)
  {
    UpsertEachConcat(start, t, conn, items[..i], items[i..j], now);
    assert items[..j] == items[..i] + items[i..j];
    RaisesIsFinal(start, t, conn, items, j, now);
  }

  /** One multi-VALUES upsert statement; `affected` and the counts are read off its RETURNING. */
  method InsertChunk(start: Table, t: Template, conn: string, chunk: seq<Item>, now: nat)
    returns (ok: bool, rows: Table, affected: set<RowRef>, inserted: nat, upserted: nat, ghost locks: seq<Item>)
    requires DistinctRefs(chunk)
    ensures ok <==> !AnyRaises(start, t, conn, chunk, now)
    ensures ok ==> Upserted(start, t, conn, chunk, now, rows, affected, inserted, upserted)
    ensures ok ==> locks == chunk
  {
    ok, rows, affected, inserted, upserted, locks := true, start, {}, 0, 0, [];
    ghost var done: seq<Item> := [];
    for j := 0 to |chunk|
      invariant done == chunk[..j] && ok
      invariant !AnyRaises(start, t, conn, done, now)
      invariant rows == UpsertEach(start, t, conn, done, now) && affected == Affected(start, t, conn, done, now)
      invariant inserted == Inserts(start, done) && upserted == Updates(start, t, done)
      invariant locks == done
    {
      var it := chunk[j];
      ChunkStep(start, t, conn, done, it, now);
      if Raises(rows, t, it) {
        assert chunk[..j + 1] == done + [it];
        RaisesIsFinal(start, t, conn, chunk, j + 1, now);
        return false, start, {}, 0, 0, [];
      }
      if TakenBy(t, Lookup(rows, it.ref), it.data) {
        affected := affected + {it.ref};
        if it.ref in rows {
          upserted := upserted + 1;
        } else {
          inserted := inserted + 1;
        }
      }
      rows := Upsert(rows, t, conn, it, now);
      locks := locks + [it];
      done := done + [it];
    }
    assert done == chunk;
  }

  /** The upsert half of `ingest`: statements of at most 1000 rows each. */
  method UpsertAll(start: Table, t: Template, conn: string, items: seq<Item>, now: nat)
    returns (ok: bool, rows: Table, affected: set<RowRef>, inserted: nat, upserted: nat, skipped: int, ghost locks: seq<Item>)
    requires DistinctRefs(items)
    ensures ok <==> !AnyRaises(start, t, conn, items, now)
    ensures ok ==> Upserted(start, t, conn, items, now, rows, affected, inserted, upserted)
    ensures ok ==> inserted + upserted + skipped == |items|
    ensures ok ==> locks == items
  {
    ok, rows, affected, inserted, upserted, skipped, locks := true, start, {}, 0, 0, 0, [];
    var i := 0;
    while i < |items|
      invariant 0 <= i <= |items| && ok
      invariant Upserted(start, t, conn, items[..i], now, rows, affected, inserted, upserted)
      invariant inserted + upserted + skipped == i
      invariant locks == items[..i]
    {
      var j := if i + 1000 < |items| then i + 1000 else |items|;
      PieceIsApart(items, i, j);
      var fine, after, touched, news, olds, taken := InsertChunk(rows, t, conn, items[i..j], now);
      if !fine {
        RaisesInPiece(start, t, conn, items, i, j, now, rows);
        return false, start, {}, 0, 0, 0, [];
      }
      UpsertedConcat(start, t, conn, items[..i], items[i..j], now, rows, affected, inserted, upserted, after, touched, news, olds);
      rows, affected, locks := after, affected + touched, locks + taken;
      inserted, upserted, skipped := inserted + news, upserted + olds, skipped + (j - i - (news + olds));
      i := j;
    }
    assert items[..|items|] == items;
  }

  /** A plain insert of one row after `done`. */
  method AppendOne(ghost start: Table, t: Template, conn: string, ghost done: seq<Data>, d: Data, ghost n: nat, now: nat,
                   rows: Table, affected: set<RowRef>, appended: nat)
    returns (ok: bool, rows': Table, affected': set<RowRef>, appended': nat, r: RowRef)
    requires !HasUsableId(t, d) && appended == n + AppendedCount(t, done)
    requires WentThrough(start, t, conn, Items(t, conn, done, n), now, rows, affected)
    ensures Items(t, conn, done + [d], n) == Items(t, conn, done, n) + [Item(r, d)]
    ensures if ok then WentThrough(start, t, conn, Items(t, conn, done + [d], n), now, rows', affected')
            else AnyRaises(start, t, conn, Items(t, conn, done + [d], n), now)
    ensures ok ==> appended' == n + AppendedCount(t, done + [d])
  {
    AppendStep(start, t, conn, done, d, n, now, rows, affected);
    r := RefOf(t, conn, d, appended);
    ok := r !in rows;
    rows', affected' := rows[r := NewRow(conn, d, now)], affected + {r};
    appended' := appended + (if r.Appended? then 1 else 0);
  }

  /** `insertAppend` over every row without a usable id. */
  method AppendAll(start: Table, t: Template, conn: string, ds: seq<Data>, n: nat, now: nat)
    returns (ok: bool, rows: Table, affected: set<RowRef>, appended: nat, ghost locks: seq<Item>)
    requires forall d :: d in ds ==> !HasUsableId(t, d)
    ensures ok <==> !AnyRaises(start, t, conn, Items(t, conn, ds, n), now)
    ensures ok ==> WentThrough(start, t, conn, Items(t, conn, ds, n), now, rows, affected)
    ensures ok ==> appended == n + AppendedCount(t, ds)
    ensures ok ==> locks == Items(t, conn, ds, n)
  {
    ok, rows, affected, appended, locks := true, start, {}, n, [];
    for i := 0 to |ds|
      invariant ok && WentThrough(start, t, conn, Items(t, conn, ds[..i], n), now, rows, affected)
      invariant appended == n + AppendedCount(t, ds[..i])
      invariant locks == Items(t, conn, ds[..i], n)
    {
      assert ds[..i + 1] == ds[..i] + [ds[i]];
      var r;
      ok, rows, affected, appended, r := AppendOne(start, t, conn, ds[..i], ds[i], n, now, rows, affected, appended);
      if !ok {
        AppendRaisesIsFinal(start, t, conn, ds, i + 1, n, now);
        return;
      }
      locks := locks + [Item(r, ds[i])];
    }
    assert ds[..|ds|] == ds;
  }

  /** The upsert items of one call, from the dedup's map in key order. */
  method PlanItems(t: Template, conn: string, ghost ds: seq<Data>, keys: seq<string>, withId: map<string, Data>) returns (items: seq<Item>)
    requires HoldsNewest(t, ds, withId) && IsKeyOrder(t, ds, keys)
    requires forall k :: k in keys ==> k in withId
    ensures items == Plan(t, conn, ds, keys)
  {
    items := [];
    for i := 0 to |keys|
      invariant items == Plan(t, conn, ds, keys[..i])
    {
      assert keys[..i + 1] == keys[..i] + [keys[i]];
      PlanSnoc(t, conn, ds, keys[..i], keys[i]);
      assert KeptOf(t, CopiesAt(t, ds, keys[i]), Get(withId, keys[i]));
      items := items + [Item(RefOf(t, conn, withId[keys[i]], 0), withId[keys[i]])];
    }
    assert keys[..|keys|] == keys;
  }

  lemma KeysOfDedup(t: Template, ds: seq<Data>, withId: map<string, Data>, keys: seq<string>)
    requires HoldsNewest(t, ds, withId)
    requires forall i, j :: 0 <= i < j < |keys| ==> Less(keys[i], keys[j])
    requires forall k :: k in keys <==> k in withId
    ensures IsKeyOrder(t, ds, keys)
  {
    forall k
      ensures k in keys <==> CopiesAt(t, ds, k) != []
    {
      assert KeptOf(t, CopiesAt(t, ds, k), Get(withId, k));
    }
  }

  lemma {:induction false} NoIdColumnsNoKeys(t: Template, ds: seq<Data>)
    requires t.idFields == []
    ensures WithoutId(t, ds) == ds && forall k :: CopiesAt(t, ds, k) == []
  {
    if ds != [] {
      NoIdColumnsNoKeys(t, ds[..|ds| - 1]);
      assert ds == ds[..|ds| - 1] + [ds[|ds| - 1]];
      forall k
        ensures CopiesAt(t, ds, k) == []
      {
        assert CopiesAt(t, ds[..|ds| - 1], k) == [];
      }
    }
  }

  lemma {:induction false} WithoutIdHasTheAppends(t: Template, ds: seq<Data>)
    ensures AppendedCount(t, WithoutId(t, ds)) == AppendedCount(t, ds)
  {
    if ds != [] {
      var before, d := ds[..|ds| - 1], ds[|ds| - 1];
      WithoutIdHasTheAppends(t, before);
      assert WithoutId(t, ds) == if HasUsableId(t, d) then WithoutId(t, before) else WithoutId(t, before) + [d];
      assert !HasUsableId(t, d) ==> WithoutId(t, ds)[..|WithoutId(t, ds)| - 1] == WithoutId(t, before);
    }
  }

  /** One call upserts its plan and then its rows without an id. */
  lemma IngestEffect(rows: Table, t: Template, conn: string, ds: seq<Data>, keys: seq<string>, n: nat, now: nat)
    requires IsKeyOrder(t, ds, keys)
    ensures var plan, rest := Plan(t, conn, ds, keys), Items(t, conn, WithoutId(t, ds), n);
            var items := BatchItems(t, conn, ds, keys, n);
            var mid := UpsertEach(rows, t, conn, plan, now);
            && UpsertEach(rows, t, conn, items, now) == UpsertEach(mid, t, conn, rest, now)
            && Affected(rows, t, conn, items, now) == Affected(rows, t, conn, plan, now) + Affected(mid, t, conn, rest, now)
            && (AnyRaises(rows, t, conn, items, now) <==> AnyRaises(rows, t, conn, plan, now) || AnyRaises(mid, t, conn, rest, now))
            && AppendedCount(t, WithoutId(t, ds)) == AppendedCount(t, ds)
            && |plan| == |keys|
  {
    UpsertEachConcat(rows, t, conn, Plan(t, conn, ds, keys), Items(t, conn, WithoutId(t, ds), n), now);
    WithoutIdHasTheAppends(t, ds);
    PlanComesFromRows(t, conn, ds, keys);
  }

  /**
   * The report of a call: every distinct key and every row without an id is
   * counted once, as inserted, as updated past the guard, or as skipped.
   */
  ghost predicate CountsAddUp(r: IngestResult, start: Table, t: Template, conn: string, ds: seq<Data>, keys: seq<string>)
    requires r.Ingested? && IsKeyOrder(t, ds, keys)
  {
    && r.inserted + r.upserted + r.skippedStale == |keys| + |WithoutId(t, ds)|
    && r.inserted == Inserts(start, Plan(t, conn, ds, keys)) + |WithoutId(t, ds)|
    && r.upserted == Updates(start, t, Plan(t, conn, ds, keys))
  }

  /** The insert statements of one call, in their order; RolledBack when one raises. */
  method InsertRows(start: Table, t: Template, conn: string, ds: seq<Data>, n: nat, now: nat)
    returns (r: IngestResult, rows: Table, affected: set<RowRef>, appended: nat, ghost keys: seq<string>, ghost locks: seq<Item>)
    ensures IsKeyOrder(t, ds, keys)
    ensures r.Ingested? ==> locks == BatchItems(t, conn, ds, keys, n)
    ensures r.RolledBack? <==> AnyRaises(start, t, conn, BatchItems(t, conn, ds, keys, n), now)
    ensures r.Ingested? ==> WentThrough(start, t, conn, BatchItems(t, conn, ds, keys, n), now, rows, affected)
    ensures r.Ingested? ==> appended == n + AppendedCount(t, ds)
    ensures r.Ingested? ==> CountsAddUp(r, start, t, conn, ds, keys)
  {
    var order: seq<string>, withoutId: seq<Data>;
    var withId: map<string, Data> := map[];
    if t.idFields != [] {
      withId, withoutId := Dedup(t, ds);
      order := SortKeys(withId);
      KeysOfDedup(t, ds, withId, order);
    } else {
      order, withoutId := [], ds;
      NoIdColumnsNoKeys(t, ds);
    }
    keys := order;
    WithoutIdAreRows(t, ds);
    IngestEffect(start, t, conn, ds, keys, n, now);
    var plan := PlanItems(t, conn, ds, order, withId);
    DistinctKeysDistinctRows(t, conn, ds, keys);
    var ok, table, first, inserted, upserted, skipped, ahead := UpsertAll(start, t, conn, plan, now);
    if !ok {
      return RolledBack, start, {}, n, keys, [];
    }
    var fine, full, more, count, behind := AppendAll(table, t, conn, withoutId, n, now);
    if !fine {
      return RolledBack, start, {}, n, keys, [];
    }
    rows, appended, locks := full, count, ahead + behind;
    r, affected := Ingested(inserted + |withoutId|, upserted, skipped), first + more;
  }

  /** What `ingest` reports; a raising statement rolls its transaction back. */
  datatype IngestResult = Ingested(inserted: nat, upserted: nat, skippedStale: int) | RolledBack

  /** The committed effect of one `ingest` over these upsert items. */
  function IngestTx(s: State, t: Template, conn: string, items: seq<Item>, appended: nat, meta: Option<LoadMeta>, now: nat): State {
    Statements.LandRows(s.(rows := UpsertEach(s.rows, t, conn, items, now), appended := appended),
             t, Affected(s.rows, t, conn, items, now), meta, now)
  }

  /** Without load metadata a call upserts its items and queues the affected rows. */
  lemma PlainIngest(s: State, t: Template, conn: string, items: seq<Item>, appended: nat, now: nat)
    ensures IngestTx(s, t, conn, items, appended, None, now)
            == s.(rows := Statements.MarkQueued(UpsertEach(s.rows, t, conn, items, now), t, Affected(s.rows, t, conn, items, now), QUEUED),
                  appended := appended)
  {
  }

  /** What the external system did with one outbound call. */
  datatype Reply = Responds(status: int, message: string) | Throws(message: string)

  /** What `submitGroup` returns, or the commit failure it lets escape. */
  datatype SubmitResult = NothingToSend | NoWriteConfig | Submitted(sent: bool) | CommitFailed

  datatype EditResult = Edited | NotEditable | NotAllowed | AlreadyCorrecto | NotFound

  /** No trace of an earlier send is left on the row. */
  predicate Unsent(r: Row) {
    r.batchId.None? && r.response.None? && r.writeStatus.None? && r.writeError.None?
  }

  predicate KeepsContent(was: Row, r: Row) {
    r.conn == was.conn && r.data == was.data && r.created == was.created
  }

  /** A delete may touch the row: no connection is given, or it is the row's. */
  predicate InScope(rows: Table, conn: string, r: RowRef)
    requires r in rows
  {
    conn == "" || rows[r].conn == conn
  }

  /** Two rows of the scope that are sent together. */
  predicate SameGroup(rows: Table, t: Template, conn: string, r: RowRef, q: RowRef) {
    && t.write.Some? && t.write.value.groupBy != []
    && r in rows && q in rows && InScope(rows, conn, r) && InScope(rows, conn, q)
    && rows[r].groupId.Some? && rows[r].groupId == rows[q].groupId
  }

  predicate TimedOut(l: Load, now: nat, timeout: nat) {
    !l.sealed && l.created + timeout < now
  }

  /** How many batches of the load are in. */
  function InSoFar(batches: map<string, set<int>>, loadId: string): nat {
    if loadId in batches then |batches[loadId]| else 0
  }

  function BatchesIn(batches: map<string, set<int>>, loadId: string): set<int> {
    if loadId in batches then batches[loadId] else {}
  }

  /** Known to be complete, and not closed yet. */
  predicate IsComplete(loads: map<string, Load>, batches: map<string, set<int>>, loadId: string) {
    && loadId in loads && !loads[loadId].sealed && loads[loadId].expected.Some?
    && InSoFar(batches, loadId) >= loads[loadId].expected.value
  }

  /** The staged rows of the load are queued, nothing else of them and no other row changes. */
  ghost predicate Released(was: Table, rows: Table, loadId: string) {
    && rows.Keys == was.Keys
    && forall r :: r in rows ==>
         if was[r].loadId == Some(loadId) && was[r].status == Some("staged") then rows[r] == was[r].(status := Some("queued"))
         else rows[r] == was[r]
  }

  /** What an open load becomes: closed and its rows released when complete, else it stays as it is. */
  ghost predicate ClosedIfComplete(rows: Table, loads: map<string, Load>, batches: map<string, set<int>>, loadId: string,
                                   rows': Table, loads': map<string, Load>) {
    if IsComplete(loads, batches, loadId)
    then loads' == loads[loadId := loads[loadId].(sealed := true)] && Released(rows, rows', loadId)
    else loads' == loads && rows' == rows
  }

  /** A row at the start of a new attempt, in its group. */
  predicate IsFresh(was: Row, r: Row, w: WriteConfig, status: string) {
    && r.status == Some(status) && Unsent(r) && KeepsContent(was, r) && r.loadId == was.loadId
    && r.groupId == GroupId(w.groupBy, r.conn, r.data)
  }

  /** Of a table that sends, the rows named start over; no other row changes. */
  ghost predicate StartedOver(was: Table, rows: Table, t: Template, ids: set<RowRef>, status: string) {
    && rows.Keys == was.Keys
    && forall r :: r in rows ==>
         if r in ids && t.write.Some? then IsFresh(was[r], rows[r], t.write.value, status) else rows[r] == was[r]
  }

  /** Not gone out yet: without a state, or staged, queued or edited. */
  predicate StillHere(status: Option<string>) {
    status.None? || status.value == "staged" || status.value == "queued" || status.value == "revisado"
  }

  /** A row held back for its load, as a fresh attempt in its group. */
  predicate IsHeldFor(was: Row, r: Row, w: WriteConfig, loadId: string) {
    && r.status == Some("staged") && r.loadId == Some(loadId) && Unsent(r) && KeepsContent(was, r)
    && r.groupId == GroupId(w.groupBy, r.conn, r.data)
  }

  /** Of the rows named, those still here are held for the load; no other row changes. */
  ghost predicate HeldBack(was: Table, rows: Table, t: Template, ids: set<RowRef>, loadId: string) {
    && rows.Keys == was.Keys
    && forall r :: r in rows ==>
         if r in ids && t.write.Some? && StillHere(was[r].status) then IsHeldFor(was[r], rows[r], t.write.value, loadId)
         else rows[r] == was[r]
  }

  /** The edit is saved: the new data, and with a write config a fresh attempt in its new group. */
  ghost predicate EditStored(was: Table, rows: Table, t: Template, r: RowRef, d: Data)
    requires r in was
  {
    && rows.Keys == was.Keys && (forall q :: q in rows && q != r ==> rows[q] == was[q])
    && rows[r].data == d && rows[r].conn == was[r].conn && rows[r].created == was[r].created && rows[r].loadId == was[r].loadId
    && (if t.write.None? then rows[r] == was[r].(data := d)
        else rows[r].status == Some("revisado") && Unsent(rows[r]) && rows[r].groupId == GroupId(t.write.value.groupBy, was[r].conn, d))
  }

  /** What a marked row holds after its call. */
  predicate HasOutcome(was: Row, r: Row, batchId: string, sent: bool) {
    && r.batchId == Some(batchId) && KeepsContent(was, r)
    && r.groupId == was.groupId && r.loadId == was.loadId && r.response == was.response
    && (if sent then r.status == Some("pending") && r.writeStatus == Some(Sent) && r.writeError.None?
        else r.status == Some("queued") && Sweepable(r.status) && r.writeStatus == Some(Failed) && r.writeError.Some?)
  }

  /** The outcome stands on the marked rows, field by field, and on no other. */
  ghost predicate OutcomeStored(was: Table, rows: Table, ids: set<RowRef>, batchId: string, sent: bool) {
    && rows.Keys == was.Keys
    && (forall r :: r in rows && r in ids ==> HasOutcome(was[r], rows[r], batchId, sent))
    && (forall r :: r in rows && r !in ids ==> rows[r] == was[r])
  }

  class Database {
    var rows: Table
    var loads: map<string, Load>
    var batches: map<string, set<int>>
    var outbox: seq<Event>
    var appended: nat
    /** Row locks taken by committed ingests, in order of acquisition. */
    ghost var locked: seq<RowRef>

    constructor ()
      ensures View() == State(map[], map[], map[], [], 0) && locked == []
    {
      rows, loads, batches, outbox, appended, locked := map[], map[], map[], [], 0, [];
    }

    function View(): State
      reads this
    {
      State(rows, loads, batches, outbox, appended)
    }

    /**
     * One call of `ingest`: rows land as if upserted one by one in the order of
     * the dedup, all in one transaction, and are staged or queued at its end.
     */
    method Ingest(t: Template, ds: seq<Data>, conn: string, meta: Option<LoadMeta>, now: nat)
      returns (r: IngestResult, ghost keys: seq<string>)
      modifies this
      ensures IsKeyOrder(t, ds, keys)
      ensures ds == [] ==> r == Ingested(0, 0, 0) && View() == old(View()) && locked == old(locked)
      ensures r.RolledBack? <==> ds != [] && AnyRaises(old(rows), t, conn, BatchItems(t, conn, ds, keys, old(appended)), now)
      ensures r.RolledBack? ==> View() == old(View())
      ensures ds != [] && r.Ingested? ==>
                var items := BatchItems(t, conn, ds, keys, old(appended));
                && View() == IngestTx(old(View()), t, conn, items, old(appended) + AppendedCount(t, ds), meta, now)
                && locked == old(locked) + Refs(items)
      ensures r.Ingested? ==> CountsAddUp(r, old(rows), t, conn, ds, keys)
    {
      if ds == [] {
        return Ingested(0, 0, 0), [];
      }
      var table, affected, count;
      ghost var locks;
      r, table, affected, count, keys, locks := InsertRows(rows, t, conn, ds, appended, now);
      if r.RolledBack? {
        return;
      }
      locked := locked + Refs(locks);
      rows, appended := table, count;
      LandRows(t, affected, meta, now);
    }

    /** The tail of the ingest transaction. */
    method LandRows(t: Template, affected: set<RowRef>, meta: Option<LoadMeta>, now: nat)
      modifies this`rows, this`loads, this`batches
      ensures View() == Statements.LandRows(old(View()), t, affected, meta, now)
    {
      if meta.Some? && meta.value.loadId != "" {
        StageLoadRows(t, affected, meta.value, now);
      } else {
        MarkQueued(t, affected, QUEUED);
      }
    }

    /** UPDATE of the given rows to a fresh attempt. */
    method MarkQueued(t: Template, ids: set<RowRef>, status: string)
      modifies this`rows
      ensures rows == Statements.MarkQueued(old(rows), t, ids, status)
      ensures StartedOver(old(rows), rows, t, ids, status)
    {
      if t.write.Some? && ids != {} {
        rows := map r | r in rows :: if r in ids then Requeued(rows[r], t.write.value, status) else rows[r];
      }
    }

    /** UPDATE of those of the given rows that have not gone out yet. */
    method MarkStaged(t: Template, ids: set<RowRef>, loadId: string)
      modifies this`rows
      ensures rows == Statements.MarkStaged(old(rows), t, ids, loadId)
      ensures HeldBack(old(rows), rows, t, ids, loadId)
    {
      if t.write.Some? && ids != {} {
        rows := map r | r in rows ::
          if r in ids && NotYetSent(rows[r].status)
          then Requeued(rows[r], t.write.value, STAGED).(loadId := Some(loadId))
          else rows[r];
      }
    }

    /** The load accounting of one batch, inside its ingest transaction. */
    method StageLoadRows(t: Template, ids: set<RowRef>, meta: LoadMeta, now: nat)
      modifies this`rows, this`loads, this`batches
      ensures View() == Statements.StageLoadRows(old(View()), t, ids, meta, now)
      ensures var open := if meta.loadId in old(loads) then old(loads) else old(loads)[meta.loadId := Load(None, false, false, now)];
              if open[meta.loadId].sealed then loads == open && batches == old(batches) && StartedOver(old(rows), rows, t, ids, "queued")
              else
                && batches == (if meta.batchIndex.None? then old(batches)
                               else old(batches)[meta.loadId := BatchesIn(old(batches), meta.loadId) + {meta.batchIndex.value}])
                && exists held :: HeldBack(old(rows), held, t, ids, meta.loadId)
                               && ClosedIfComplete(held, open, batches, meta.loadId, rows, loads)
    {
      var l := meta.loadId;
      if l !in loads {
        loads := loads[l := Load(None, false, false, now)];
      }
      if loads[l].sealed {
        MarkQueued(t, ids, QUEUED);
        return;
      }
      MarkStaged(t, ids, l);
      ghost var held := rows;
      if meta.batchIndex.Some? {
        batches := batches[l := (if l in batches then batches[l] else {}) + {meta.batchIndex.value}];
      }
      FlipLoadIfComplete(l);
    }

    /** The seal event of a load. */
    method SealLoad(loadId: string, totalBatches: int, now: nat)
      modifies this`rows, this`loads
      ensures View() == Statements.SealLoad(old(View()), loadId, totalBatches, now)
      ensures var told := if loadId in old(loads) then old(loads)[loadId].(expected := Some(totalBatches))
                          else Load(Some(totalBatches), false, false, now);
              ClosedIfComplete(old(rows), old(loads)[loadId := told], batches, loadId, rows, loads)
    {
      if loadId in loads {
        loads := loads[loadId := loads[loadId].(expected := Some(totalBatches))];
      } else {
        loads := loads[loadId := Load(Some(totalBatches), false, false, now)];
      }
      FlipLoadIfComplete(loadId);
    }

    method FlipLoadIfComplete(loadId: string)
      modifies this`rows, this`loads
      ensures View() == Statements.FlipLoadIfComplete(old(View()), loadId)
      ensures ClosedIfComplete(old(rows), old(loads), batches, loadId, rows, loads)
    {
      if loadId !in loads || loads[loadId].sealed || loads[loadId].expected.None? {
        return;
      }
      var received := if loadId in batches then |batches[loadId]| else 0;
      if received < loads[loadId].expected.value {
        return;
      }
      rows := FlipRows(rows, loadId);
      loads := loads[loadId := loads[loadId].(sealed := true)];
    }

    // ------------------------------------------------------------------ edits

    /** Saves an edited row and queues it for an update send; accepted rows are refused. */
    method UpdateAndWrite(t: Template, conn: string, r: RowRef, d: Data) returns (res: EditResult)
      modifies this`rows
      ensures res.Edited? <==>
                && (t.write.Some? ==> (t.write.value.editable && conn != ""
                                       && (Some(conn) in t.write.value.rules || None in t.write.value.rules)))
                && r in old(rows) && (conn == "" || old(rows)[r].conn == conn)
                && (old(rows)[r].status.Some? ==> Lower(old(rows)[r].status.value) != "correcto")
      ensures View() == if res.Edited? then EditRow(old(View()), t, r, d) else old(View())
      ensures res.Edited? ==> EditStored(old(rows), rows, t, r, d)
      ensures res.AlreadyCorrecto? ==> r in old(rows) && IsCorrecto(old(rows)[r].status)
    {
      if t.write.Some? {
        if !t.write.value.editable {
          return NotEditable;
        }
        if !HasRule(t.write.value.rules, conn) {
          return NotAllowed;
        }
      }
      if r !in rows || (conn != "" && rows[r].conn != conn) {
        return NotFound;
      }
      if IsCorrecto(rows[r].status) {
        return AlreadyCorrecto;
      }
      rows := rows[r := rows[r].(data := d)];
      MarkQueued(t, {r}, REVISADO);
      return Edited;
    }

    // ------------------------------------------------------------------ sends

    /** One transaction: row states and outbox event together, or neither when it fails. */
    method CommitOutcome(ids: set<RowRef>, batchId: string, sent: bool, error: Option<string>, commits: bool) returns (ok: bool)
      modifies this`rows, this`outbox
      ensures ok == commits
      ensures View() == if ok then Statements.CommitOutcome(old(View()), ids, batchId, sent, error) else old(View())
      ensures ok && error.None? == sent ==> OutcomeStored(old(rows), rows, ids, batchId, sent)
      ensures ok ==> outbox == old(outbox) + [Event(batchId, sent, ids)]
    {
      if commits {
        rows := MarkGroupResult(rows, ids, batchId, sent, error);
        outbox := outbox + [Event(batchId, sent, ids)];
      }
      return commits;
    }

    /**
     * One outbound call. `firstCommits` and `secondCommits` say whether the first
     * and the second outcome transaction of the call commit; the second is the one
     * of the catch branch.
     */
    method SubmitGroup(t: Template, payload: set<RowRef>, markIds: set<RowRef>, batchId: string, conn: string,
                       reply: Reply, firstCommits: bool, secondCommits: bool) returns (res: SubmitResult)
      modifies this`rows, this`outbox
      ensures res.Submitted? ==> exists error: Option<string> ::
                error.None? == res.sent && View() == Statements.CommitOutcome(old(View()), markIds, batchId, res.sent, error)
      ensures res.Submitted? ==> OutcomeStored(old(rows), rows, markIds, batchId, res.sent)
      ensures res.Submitted? ==> outbox == old(outbox) + [Event(batchId, res.sent, markIds)]
      ensures !res.Submitted? ==> View() == old(View())
      ensures res == Submitted(true) <==>
                && payload != {} && t.write.Some? && conn != "" && (Some(conn) in t.write.value.rules || None in t.write.value.rules)
                && reply.Responds? && 200 <= reply.status < 300 && firstCommits
      ensures res.CommitFailed? ==> !firstCommits
    {
      if payload == {} {
        return NothingToSend;
      }
      if t.write.None? {
        return NoWriteConfig;
      }
      var ok;
      if !HasRule(t.write.value.rules, conn) {
        ok := CommitOutcome(markIds, batchId, false, Some("not allowed to write back"), firstCommits);
        return if ok then Submitted(false) else CommitFailed;
      }
      if reply.Throws? {
        ok := CommitOutcome(markIds, batchId, false, Some(reply.message), firstCommits);
        return if ok then Submitted(false) else CommitFailed;
      }
      if 200 <= reply.status < 300 {
        ok := CommitOutcome(markIds, batchId, true, None, firstCommits);
        if ok {
          return Submitted(true);
        }
      } else {
        ok := CommitOutcome(markIds, batchId, false, Some(reply.message), firstCommits);
        if ok {
          return Submitted(false);
        }
      }
      // The failed commit is caught like a transport failure.
      ok := CommitOutcome(markIds, batchId, false, Some("commit failed"), secondCommits);
      return if ok then Submitted(false) else CommitFailed;
    }

    // -------------------------------------------------------------- callbacks

    /** UPDATE by row; RETURNING the rows hit. */
    method ApplyLine(line: map<RowRef, VendorItem>) returns (hit: set<RowRef>)
      modifies this`rows
      ensures rows == ApplyLineItems(old(rows), line)
      ensures hit == set r | r in old(rows) && r in line && !IsCorrecto(old(rows)[r].status)
    {
      hit := set r | r in rows && r in line && !IsCorrecto(rows[r].status);
      rows := ApplyLineItems(rows, line);
    }

    /** UPDATE by batch id; RETURNING the rows hit and their batch. */
    method ApplyBatch(batch: map<string, VendorItem>) returns (batchOf: map<RowRef, string>)
      modifies this`rows
      ensures rows == ApplyBatchItems(old(rows), batch)
      ensures forall r :: r in batchOf <==>
                r in old(rows) && !IsCorrecto(old(rows)[r].status) && ByBatch(old(rows)[r], batch).Some?
      ensures forall r :: r in batchOf ==> old(rows)[r].batchId == Some(batchOf[r])
    {
      batchOf := map r | r in rows && rows[r].batchId.Some? && rows[r].batchId.value in batch && !IsCorrecto(rows[r].status) ::
        rows[r].batchId.value;
      rows := ApplyBatchItems(rows, batch);
    }

    /**
     * A vendor callback: line items by row, then batch items by batch id, then the
     * error fields into `data` of the rows hit. Where several items name one row
     * the UPDATE may take any of them; `line` and `batch` are the ones taken.
     */
    method ProcessCallback(lineItems: seq<(RowRef, VendorItem)>, batchItems: seq<(string, VendorItem)>, hasCode: bool, hasMessage: bool)
      returns (line: map<RowRef, VendorItem>, batch: map<string, VendorItem>, patches: map<RowRef, Data>)
      modifies this`rows
      ensures Picks(lineItems, line) && Picks(batchItems, batch)
      ensures forall r :: r in patches ==> Hit(old(rows), line, batch, r)
      ensures View() == Callback(old(View()), line, batch, patches)
      ensures AllStored(old(rows), rows, lineItems, batchItems, hasCode, hasMessage, line, batch)
    {
      line, batch := FirstItems(lineItems), FirstItems(batchItems);
      ghost var start := rows;
      var hitByLine := ApplyLine(line);
      var batchOf := ApplyBatch(batch);
      HitsOfUpdates(start, line, batch, hitByLine, batchOf);
      CallbackIsStored(start, lineItems, batchItems, hasCode, hasMessage, line, batch, hitByLine, batchOf);
      patches := PatchesOf(hasCode, hasMessage, LastItems(lineItems), LastItems(batchItems), hitByLine, batchOf);
      rows := ApplyErrorFields(rows, patches);
    }

    // ---------------------------------------------------------------- upkeep

    /** Deletes by id; in a grouped table the whole group goes. */
    method DeleteByIds(t: Template, conn: string, ids: set<RowRef>)
      modifies this`rows
      ensures View() == DeleteRows(old(View()), t.write.Some? && t.write.value.groupBy != [], conn, ids)
      ensures forall r :: r in rows ==> r in old(rows) && rows[r] == old(rows)[r]
      ensures forall r :: r in old(rows) && !InScope(old(rows), conn, r) ==> r in rows
      ensures forall r :: r in old(rows) && InScope(old(rows), conn, r) && r in ids ==> r !in rows
      ensures forall r, q :: SameGroup(old(rows), t, conn, r, q) ==> (r in rows <==> q in rows)
    {
      var grouped := t.write.Some? && t.write.value.groupBy != [];
      rows := map r | r in rows && !Doomed(rows, grouped, conn, ids, r) :: rows[r];
    }

    /** Flags loads that stayed open too long; row states are not touched. */
    method ReapStaleLoads(now: nat, timeout: nat)
      modifies this`loads
      ensures View() == Reap(old(View()), now, timeout)
      ensures loads.Keys == old(loads).Keys
      ensures forall l :: l in loads ==>
                && loads[l].(stale := true) == old(loads)[l].(stale := true)
                && (loads[l].stale <==> old(loads)[l].stale || TimedOut(old(loads)[l], now, timeout))
      ensures forall l :: l in loads && loads[l].sealed ==> loads[l] == old(loads)[l]
    {
      loads := map l | l in loads ::
        if !loads[l].sealed && !loads[l].stale && loads[l].created + timeout < now then loads[l].(stale := true) else loads[l];
    }
  }

  function Refs(items: seq<Item>): seq<RowRef> {
    if items == [] then [] else Refs(items[..|items| - 1]) + [items[|items| - 1].ref]
  }
}
