/**
 * One `ingest` call against one call per row: exactly when the two agree, for every
 * set of rows a table may hold and be sent.
 */
module BatchAgreement {
  import opened Text
  import opened Rows
  import opened Upserts
  import opened Ingest
  import opened TableRowsService
  import Statements

  // ------------------------------------------------------------------- calls

  /** The state one call without load metadata leaves; a raising statement undoes it whole. */
  ghost function OneCall(s: State, t: Template, conn: string, ds: seq<Data>, keys: seq<string>, now: nat): State
    requires IsKeyOrder(t, ds, keys)
  {
    var items := BatchItems(t, conn, ds, keys, s.appended);
    if ds == [] || AnyRaises(s.rows, t, conn, items, now) then s
    else IngestTx(s, t, conn, items, s.appended + AppendedCount(t, ds), None, now)
  }

  /** The dedup keys of a call with one row. */
  function KeysOf(t: Template, d: Data): seq<string> {
    if HasUsableId(t, d) then [JoinKey(t, d)] else []
  }

  lemma CopiesAtOne(t: Template, d: Data, k: string)
    ensures CopiesAt(t, [d], k) == if HasUsableId(t, d) && JoinKey(t, d) == k then [d] else []
  {
    CopiesAtSnoc(t, [], d, k);
    assert [] + [d] == [d];
  }

  lemma KeysOfIsKeyOrder(t: Template, d: Data)
    ensures IsKeyOrder(t, [d], KeysOf(t, d))
  {
    forall k
      ensures k in KeysOf(t, d) <==> CopiesAt(t, [d], k) != []
    {
      CopiesAtOne(t, d, k);
    }
  }

  /** The state one call per row leaves, in arrival order. */
  ghost function EachCall(s: State, t: Template, conn: string, ds: seq<Data>, now: nat): State {
    if ds == [] then s
    else
      KeysOfIsKeyOrder(t, ds[|ds| - 1]);
      OneCall(EachCall(s, t, conn, ds[..|ds| - 1], now), t, conn, [ds[|ds| - 1]], KeysOf(t, ds[|ds| - 1]), now)
  }

  lemma ItemsOfOne(t: Template, conn: string, d: Data, n: nat)
    ensures Items(t, conn, [d], n) == [Item(RefOf(t, conn, d, n), d)]
    ensures AppendedCount(t, [d]) == if RefOf(t, "", d, 0).Appended? then 1 else 0
  {
    ItemsSnoc(t, conn, [], d, n);
    assert [] + [d] == [d];
  }

  lemma BatchOfOne(t: Template, conn: string, d: Data, n: nat)
    ensures IsKeyOrder(t, [d], KeysOf(t, d))
    ensures BatchItems(t, conn, [d], KeysOf(t, d), n) == [Item(RefOf(t, conn, d, n), d)]
  {
    KeysOfIsKeyOrder(t, d);
    WithoutIdSnoc(t, [], d);
    assert [] + [d] == [d];
    if HasUsableId(t, d) {
      var k := JoinKey(t, d);
      CopiesAtOne(t, d, k);
      PlanSnoc(t, conn, [d], [], k);
      assert [] + [k] == [k];
    } else {
      ItemsOfOne(t, conn, d, n);
    }
  }

  lemma UpsertOne(rows: Table, t: Template, conn: string, it: Item, now: nat)
    ensures UpsertEach(rows, t, conn, [it], now) == Upsert(rows, t, conn, it, now)
    ensures AnyRaises(rows, t, conn, [it], now) <==> Raises(rows, t, it)
    ensures Affected(rows, t, conn, [it], now) == if TakenBy(t, Lookup(rows, it.ref), it.data) then {it.ref} else {}
  {
    assert [it][..0] == [];
  }

  /** A call with one row, in full. */
  lemma SingleCall(s: State, t: Template, conn: string, d: Data, now: nat)
    ensures IsKeyOrder(t, [d], KeysOf(t, d))
    ensures var it := Item(RefOf(t, conn, d, s.appended), d);
            OneCall(s, t, conn, [d], KeysOf(t, d), now)
            == if Raises(s.rows, t, it) then s
               else s.(rows := IngestOne(s.rows, t, conn, it, now), appended := s.appended + AppendedCount(t, [d]))
  {
    BatchOfOne(t, conn, d, s.appended);
    var it := Item(RefOf(t, conn, d, s.appended), d);
    UpsertOne(s.rows, t, conn, it, now);
    PlainIngest(s, t, conn, [it], s.appended + AppendedCount(t, [d]), now);
  }

  /** Numbers given out so far are below the counter. */
  predicate Numbered(rows: Table, n: nat) {
    forall r :: r in rows && r.Appended? ==> r.n < n
  }

  /** On a keyable row, raising or not, a call of one row is `IngestOne`. */
  lemma SingleCallIsIngestOne(s: State, t: Template, conn: string, d: Data, now: nat)
    requires Keyable(t, d) && Numbered(s.rows, s.appended)
    ensures IsKeyOrder(t, [d], KeysOf(t, d))
    ensures var it := Item(RefOf(t, conn, d, s.appended), d);
            var after := OneCall(s, t, conn, [d], KeysOf(t, d), now);
            && after == s.(rows := IngestOne(s.rows, t, conn, it, now), appended := s.appended + AppendedCount(t, [d]))
            && Numbered(after.rows, after.appended)
  {
    var it := Item(RefOf(t, conn, d, s.appended), d);
    SingleCall(s, t, conn, d, now);
    ItemsOfOne(t, conn, d, s.appended);
    if Raises(s.rows, t, it) {
      assert HasUsableId(t, d) && Guard(t, s.rows[it.ref], d).CastError?;
      assert Upsert(s.rows, t, conn, it, now) == s.rows;
      assert IngestOne(s.rows, t, conn, it, now) == s.rows;
    }
  }

  lemma ArrivalStep(rows: Table, t: Template, conn: string, before: seq<Data>, d: Data, n: nat, now: nat)
    ensures var it := Item(RefOf(t, conn, d, n + AppendedCount(t, before)), d);
            RowByRow(rows, t, conn, Items(t, conn, before + [d], n), now)
            == IngestOne(RowByRow(rows, t, conn, Items(t, conn, before, n), now), t, conn, it, now)
    ensures AppendedCount(t, before + [d]) == AppendedCount(t, before) + AppendedCount(t, [d])
  {
    var items, it := Items(t, conn, before, n), Item(RefOf(t, conn, d, n + AppendedCount(t, before)), d);
    ItemsSnoc(t, conn, before, d, n);
    ItemsOfOne(t, conn, d, n);
    assert (items + [it])[..|items|] == items;
  }

  /** The table and the counter are those of ingesting row by row. */
  ghost predicate IsRowByRow(s: State, t: Template, conn: string, ds: seq<Data>, now: nat, after: State) {
    && after == s.(rows := RowByRow(s.rows, t, conn, Items(t, conn, ds, s.appended), now),
                   appended := s.appended + AppendedCount(t, ds))
    && Numbered(after.rows, after.appended)
  }

  lemma RowByRowStep(s: State, t: Template, conn: string, before: seq<Data>, d: Data, now: nat, mid: State, after: State)
    requires IsRowByRow(s, t, conn, before, now, mid) && Numbered(after.rows, after.appended)
    requires after == mid.(rows := IngestOne(mid.rows, t, conn, Item(RefOf(t, conn, d, mid.appended), d), now),
                           appended := mid.appended + AppendedCount(t, [d]))
    ensures IsRowByRow(s, t, conn, before + [d], now, after)
  {
    var rows := RowByRow(s.rows, t, conn, Items(t, conn, before, s.appended), now);
    var rows' := RowByRow(s.rows, t, conn, Items(t, conn, before + [d], s.appended), now);
    ArrivalStep(s.rows, t, conn, before, d, s.appended, now);
    OnlyRowsAndCounter(s, rows, s.appended + AppendedCount(t, before), rows', s.appended + AppendedCount(t, before + [d]));
  }

  lemma OnlyRowsAndCounter(s: State, rows: Table, n: nat, rows': Table, n': nat)
    ensures s.(rows := rows, appended := n).(rows := rows', appended := n') == s.(rows := rows', appended := n')
  {
  }

  /** One call per row is the row-by-row specification, whether or not some of the calls raise. */
  lemma {:induction false} EachCallIsRowByRow(s: State, t: Template, conn: string, ds: seq<Data>, now: nat)
    requires AllKeyable(t, ds) && Numbered(s.rows, s.appended)
    ensures IsRowByRow(s, t, conn, ds, now, EachCall(s, t, conn, ds, now))
  {
    if ds != [] {
      var before, d := ds[..|ds| - 1], ds[|ds| - 1];
      assert d in ds && ds == before + [d];
      EachCallIsRowByRow(s, t, conn, before, now);
      var mid := EachCall(s, t, conn, before, now);
      SingleCallIsIngestOne(mid, t, conn, d, now);
      RowByRowStep(s, t, conn, before, d, now, mid, OneCall(mid, t, conn, [d], KeysOf(t, d), now));
    }
  }

  /** A clean call without load metadata leaves what one call per row leaves. */
  lemma CleanCallIsEachCall(s: State, t: Template, conn: string, ds: seq<Data>, keys: seq<string>, now: nat)
    requires AllClean(t, ds) && StoredClean(t, s.rows, s.appended) && IsKeyOrder(t, ds, keys)
    ensures OneCall(s, t, conn, ds, keys, now) == EachCall(s, t, conn, ds, now)
  {
    CleanIsConcordant(s.rows, t, conn, ds, s.appended);
    ConcordantCallIsEachCall(s, t, conn, ds, keys, now);
  }

  /** Where memory and SQL judge alike and every recency casts, a call is its rows one call each. */
  lemma ConcordantCallIsEachCall(s: State, t: Template, conn: string, ds: seq<Data>, keys: seq<string>, now: nat)
    requires AllKeyable(t, ds) && IsKeyOrder(t, ds, keys) && ConcordantBatch(s.rows, t, conn, ds, s.appended)
    requires forall r :: r in s.rows ==> if r.Appended? then r.n < s.appended else Casts(t, s.rows[r].data)
    requires forall d :: d in ds && HasUsableId(t, d) ==> Casts(t, d)
    ensures OneCall(s, t, conn, ds, keys, now) == EachCall(s, t, conn, ds, now)
  {
    EachCallIsRowByRow(s, t, conn, ds, now);
    BatchIsRowByRow(s.rows, t, conn, ds, keys, s.appended, now);
    CastingBatchDoesNotRaise(s.rows, t, conn, ds, keys, s.appended, now);
    PlainIngest(s, t, conn, BatchItems(t, conn, ds, keys, s.appended), s.appended + AppendedCount(t, ds), now);
  }

  // ------------------------------------------------------ which sets agree

  /** `b` beside `a`: `a` casts, and where both are copies of one row memory and SQL judge them alike. */
  predicate PairAgrees(t: Template, a: Data, b: Data) {
    HasUsableId(t, a) ==> Casts(t, a) && (HasUsableId(t, b) && JoinKey(t, a) == JoinKey(t, b) ==> Concord(t, a, b))
  }

  ghost predicate PairsAgree(t: Template, all: iset<Data>) {
    forall a, b :: a in all && b in all && a != b ==> PairAgrees(t, a, b)
  }

  /** The row holds data from the set, under the identity that data gives it. */
  ghost predicate HoldsOf(t: Template, all: iset<Data>, r: RowRef, d: Data, n: nat) {
    d in all && match r case Keyed(c, _) => RefOf(t, c, d, 0) == r case Appended(m) => m < n && RefOf(t, "", d, 0).Appended?
  }

  ghost predicate StoredOver(t: Template, all: iset<Data>, s: State) {
    forall r :: r in s.rows ==> HoldsOf(t, all, r, s.rows[r].data, s.appended)
  }

  ghost predicate CallAgrees(s: State, t: Template, conn: string, ds: seq<Data>, keys: seq<string>, now: nat) {
    IsKeyOrder(t, ds, keys) ==> OneCall(s, t, conn, ds, keys, now) == EachCall(s, t, conn, ds, now)
  }

  /** Whatever rows of the set are stored, any call with rows of the set is one call per row. */
  ghost predicate EveryCallAgrees(t: Template, all: iset<Data>) {
    forall s, conn, ds, keys, now ::
      StoredOver(t, all, s) && (forall d :: d in ds ==> d in all) ==> CallAgrees(s, t, conn, ds, keys, now)
  }

  // ---------------------------------------------------- agreeing is enough

  lemma CopiesMeet(t: Template, all: iset<Data>, s: State, conn: string, ds: seq<Data>, r: RowRef, x: Data)
    requires StoredOver(t, all, s) && (forall d :: d in ds ==> d in all) && (forall d :: d in all ==> Keyable(t, d))
    requires r.Keyed? && r.conn == conn && Among(Lookup(s.rows, r), CopiesOf(Items(t, conn, ds, s.appended), r), x)
    ensures x in all && HasUsableId(t, x) && RefOf(t, conn, x, 0) == r
  {
    if x in CopiesOf(Items(t, conn, ds, s.appended), r) {
      CopiesOfAreItems(Items(t, conn, ds, s.appended), r);
      ItemsComeFromRows(t, conn, ds, s.appended);
    } else {
      assert HoldsOf(t, all, r, s.rows[r].data, s.appended);
    }
  }

  lemma {:induction false} KeyedItemsAreOfConn(t: Template, conn: string, ds: seq<Data>, n: nat, r: RowRef)
    requires r.Keyed? && CopiesOf(Items(t, conn, ds, n), r) != []
    ensures r.conn == conn
  {
    var x := CopiesOf(Items(t, conn, ds, n), r)[0];
    CopiesOfAreItems(Items(t, conn, ds, n), r);
    ItemsComeFromRows(t, conn, ds, n);
    assert Item(r, x) in Items(t, conn, ds, n);
  }

  lemma AgreeingIsConcordant(t: Template, all: iset<Data>, s: State, conn: string, ds: seq<Data>)
    requires StoredOver(t, all, s) && (forall d :: d in ds ==> d in all) && (forall d :: d in all ==> Keyable(t, d))
    requires PairsAgree(t, all) && forall d :: d in all && HasUsableId(t, d) ==> Casts(t, d)
    ensures ConcordantBatch(s.rows, t, conn, ds, s.appended)
  {
    var items := Items(t, conn, ds, s.appended);
    forall r: RowRef | r.Keyed? && CopiesOf(items, r) != []
      ensures AllConcord(t, Lookup(s.rows, r), CopiesOf(items, r))
    {
      KeyedItemsAreOfConn(t, conn, ds, s.appended, r);
      forall a, b | Among(Lookup(s.rows, r), CopiesOf(items, r), a) && Among(Lookup(s.rows, r), CopiesOf(items, r), b)
        ensures Concord(t, a, b)
      {
        CopiesMeet(t, all, s, conn, ds, r, a);
        CopiesMeet(t, all, s, conn, ds, r, b);
        if a != b {
          assert PairAgrees(t, a, b);
        }
      }
    }
  }

  lemma StoredCasts(t: Template, all: iset<Data>, s: State)
    requires StoredOver(t, all, s) && (forall d :: d in all ==> Keyable(t, d))
    requires forall d :: d in all && HasUsableId(t, d) ==> Casts(t, d)
    ensures forall r :: r in s.rows ==> if r.Appended? then r.n < s.appended else Casts(t, s.rows[r].data)
  {
    forall r | r in s.rows
      ensures if r.Appended? then r.n < s.appended else Casts(t, s.rows[r].data)
    {
      assert HoldsOf(t, all, r, s.rows[r].data, s.appended);
    }
  }

  // ------------------------------------------- one row that does not cast

  ghost predicate AllAre(ds: seq<Data>, a: Data) {
    forall i :: 0 <= i < |ds| ==> ds[i] == a
  }

  lemma {:induction false} CopiesAtOfSame(t: Template, ds: seq<Data>, a: Data, k: string)
    requires AllAre(ds, a) && HasUsableId(t, a)
    ensures CopiesAt(t, ds, k) == if JoinKey(t, a) == k then ds else []
    ensures WithoutId(t, ds) == [] && AppendedCount(t, ds) == 0
  {
    if ds != [] {
      var before, d := ds[..|ds| - 1], ds[|ds| - 1];
      assert d in ds && ds == before + [d];
      CopiesAtOfSame(t, before, a, k);
    }
  }

  lemma KeysOfSame(t: Template, ds: seq<Data>, a: Data, keys: seq<string>)
    requires ds != [] && AllAre(ds, a) && HasUsableId(t, a) && IsKeyOrder(t, ds, keys)
    ensures keys == [JoinKey(t, a)]
  {
    var k := JoinKey(t, a);
    CopiesAtOfSame(t, ds, a, k);
    assert k in keys;
    forall i | 0 <= i < |keys|
      ensures keys[i] == k
    {
      CopiesAtOfSame(t, ds, a, keys[i]);
      assert CopiesAt(t, ds, keys[i]) != [];
    }
    if |keys| > 1 {
      LessIsTotal(keys[0], keys[1]);
    }
  }

  lemma BatchOfSame(t: Template, conn: string, ds: seq<Data>, a: Data, keys: seq<string>, n: nat)
    requires ds != [] && AllAre(ds, a) && HasUsableId(t, a) && IsKeyOrder(t, ds, keys)
    ensures keys == KeysOf(t, a) && BatchItems(t, conn, ds, keys, n) == [Item(RefOf(t, conn, a, n), a)]
    ensures AppendedCount(t, ds) == 0
  {
    KeysOfSame(t, ds, a, keys);
    var k := JoinKey(t, a);
    CopiesAtOfSame(t, ds, a, k);
    LastGreatestIsACopy(t, ds);
    PlanSnoc(t, conn, ds, [], k);
    assert [] + [k] == [k];
  }

  lemma OneCallOfSame(s: State, t: Template, conn: string, ds: seq<Data>, a: Data, keys: seq<string>, now: nat)
    requires ds != [] && AllAre(ds, a) && HasUsableId(t, a) && IsKeyOrder(t, ds, keys)
    ensures IsKeyOrder(t, [a], KeysOf(t, a))
    ensures OneCall(s, t, conn, ds, keys, now) == OneCall(s, t, conn, [a], KeysOf(t, a), now)
  {
    KeysOfIsKeyOrder(t, a);
    BatchOfSame(t, conn, ds, a, keys, s.appended);
    BatchOfSame(t, conn, [a], a, KeysOf(t, a), s.appended);
  }

  /** A row that is there and does not cast takes no further copy of itself. */
  lemma UncastableStays(s: State, t: Template, conn: string, a: Data, now: nat)
    requires HasUsableId(t, a) && !Casts(t, a)
    requires RefOf(t, conn, a, 0) in s.rows && s.rows[RefOf(t, conn, a, 0)].data == a
    ensures IsKeyOrder(t, [a], KeysOf(t, a))
    ensures OneCall(s, t, conn, [a], KeysOf(t, a), now) == s
  {
    SingleCall(s, t, conn, a, now);
    ItemsOfOne(t, conn, a, s.appended);
    var it := Item(RefOf(t, conn, a, s.appended), a);
    if IsCorrecto(s.rows[it.ref].status) {
      assert Upsert(s.rows, t, conn, it, now) == s.rows;
      assert IngestOne(s.rows, t, conn, it, now) == s.rows;
    }
  }

  lemma StoredAfterOneCall(s: State, t: Template, conn: string, a: Data, now: nat)
    requires HasUsableId(t, a) && !Casts(t, a)
    requires RefOf(t, conn, a, 0) in s.rows ==> s.rows[RefOf(t, conn, a, 0)].data == a
    ensures IsKeyOrder(t, [a], KeysOf(t, a))
    ensures var after := OneCall(s, t, conn, [a], KeysOf(t, a), now);
            RefOf(t, conn, a, 0) in after.rows && after.rows[RefOf(t, conn, a, 0)].data == a
  {
    if RefOf(t, conn, a, 0) in s.rows {
      UncastableStays(s, t, conn, a, now);
    } else {
      SingleCall(s, t, conn, a, now);
    }
  }

  lemma {:induction false} EachCallOfSame(s: State, t: Template, conn: string, ds: seq<Data>, a: Data, now: nat)
    requires ds != [] && AllAre(ds, a) && HasUsableId(t, a) && !Casts(t, a)
    requires RefOf(t, conn, a, 0) in s.rows ==> s.rows[RefOf(t, conn, a, 0)].data == a
    ensures IsKeyOrder(t, [a], KeysOf(t, a))
    ensures EachCall(s, t, conn, ds, now) == OneCall(s, t, conn, [a], KeysOf(t, a), now)
  {
    KeysOfIsKeyOrder(t, a);
    var before := ds[..|ds| - 1];
    assert ds[|ds| - 1] in ds;
    if before == [] {
      assert EachCall(s, t, conn, before, now) == s;
    } else {
      EachCallOfSame(s, t, conn, before, a, now);
      StoredAfterOneCall(s, t, conn, a, now);
      UncastableStays(EachCall(s, t, conn, before, now), t, conn, a, now);
    }
  }

  /** The only set with a member that does not cast: that member alone. */
  lemma LoneUncastableAgrees(t: Template, all: iset<Data>, a: Data, s: State, conn: string, ds: seq<Data>, keys: seq<string>, now: nat)
    requires HasUsableId(t, a) && !Casts(t, a) && forall d :: d in all ==> d == a
    requires StoredOver(t, all, s) && (forall d :: d in ds ==> d in all)
    ensures CallAgrees(s, t, conn, ds, keys, now)
  {
    if ds != [] && IsKeyOrder(t, ds, keys) {
      var r := RefOf(t, conn, a, 0);
      if r in s.rows {
        assert HoldsOf(t, all, r, s.rows[r].data, s.appended);
      }
      assert forall i :: 0 <= i < |ds| ==> ds[i] in ds;
      OneCallOfSame(s, t, conn, ds, a, keys, now);
      EachCallOfSame(s, t, conn, ds, a, now);
    }
  }

  lemma AgreeingPairsSuffice(t: Template, all: iset<Data>)
    requires (forall d :: d in all ==> Keyable(t, d)) && PairsAgree(t, all)
    ensures EveryCallAgrees(t, all)
  {
    forall s, conn, ds, keys, now | StoredOver(t, all, s) && (forall d :: d in ds ==> d in all)
      ensures CallAgrees(s, t, conn, ds, keys, now)
    {
      if a :| a in all && HasUsableId(t, a) && !Casts(t, a) {
        forall d | d in all
          ensures d == a
        {
          assert a != d ==> PairAgrees(t, a, d);
        }
        LoneUncastableAgrees(t, all, a, s, conn, ds, keys, now);
      } else if IsKeyOrder(t, ds, keys) {
        AgreeingIsConcordant(t, all, s, conn, ds);
        StoredCasts(t, all, s);
        ConcordantCallIsEachCall(s, t, conn, ds, keys, now);
      }
    }
  }

  // ------------------------------------------------------- and it is needed

  const EMPTY: State := State(map[], map[], map[], [], 0)

  lemma TwoOfOneKey(t: Template, conn: string, a: Data, b: Data, n: nat)
    requires HasUsableId(t, a) && HasUsableId(t, b) && JoinKey(t, a) == JoinKey(t, b)
    ensures var w := if MemRecency(t, b) >= MemRecency(t, a) then b else a;
            && IsKeyOrder(t, [a, b], KeysOf(t, a)) && AppendedCount(t, [a, b]) == 0
            && BatchItems(t, conn, [a, b], KeysOf(t, a), n) == [Item(RefOf(t, conn, w, n), w)]
  {
    var k := JoinKey(t, a);
    assert [a] + [b] == [a, b];
    forall l
      ensures CopiesAt(t, [a, b], l) == if l == k then [a, b] else []
    {
      CopiesAtOne(t, a, l);
      CopiesAtSnoc(t, [a], b, l);
    }
    WithoutIdSnoc(t, [], a);
    WithoutIdSnoc(t, [a], b);
    assert [] + [a] == [a] && [] + [k] == [k];
    LastGreatestSnoc(t, [a], b);
    PlanSnoc(t, conn, [a, b], [], k);
    ItemsOfOne(t, conn, a, n);
    ItemsSnoc(t, conn, [a], b, n);
  }

  /** What a row without a predecessor holds after one call with one row. */
  lemma FirstCall(s: State, t: Template, conn: string, d: Data, now: nat)
    requires HasUsableId(t, d) && RefOf(t, conn, d, 0) !in s.rows
    ensures IsKeyOrder(t, [d], KeysOf(t, d))
    ensures var r := RefOf(t, conn, d, 0);
            OneCall(s, t, conn, [d], KeysOf(t, d), now)
            == s.(rows := Statements.MarkQueued(s.rows[r := NewRow(conn, d, now)], t, {r}, QUEUED))
  {
    SingleCall(s, t, conn, d, now);
    ItemsOfOne(t, conn, d, 0);
  }

  /** What one call with one more copy does to a row that is not accepted. */
  lemma NextCall(s: State, t: Template, conn: string, d: Data, now: nat)
    requires HasUsableId(t, d) && RefOf(t, conn, d, 0) in s.rows && !IsCorrecto(s.rows[RefOf(t, conn, d, 0)].status)
    ensures IsKeyOrder(t, [d], KeysOf(t, d))
    ensures var r := RefOf(t, conn, d, 0);
            OneCall(s, t, conn, [d], KeysOf(t, d), now)
            == if Takes(t, s.rows[r].data, d)
               then s.(rows := Statements.MarkQueued(s.rows[r := s.rows[r].(data := d)], t, {r}, QUEUED))
               else s
  {
    SingleCall(s, t, conn, d, now);
    ItemsOfOne(t, conn, d, 0);
    var it := Item(RefOf(t, conn, d, s.appended), d);
    GuardTakes(t, s.rows[it.ref], d);
    if !Takes(t, s.rows[it.ref].data, d) {
      assert Upsert(s.rows, t, conn, it, now) == s.rows;
      assert IngestOne(s.rows, t, conn, it, now) == s.rows;
    }
  }

  lemma EachOfTwo(s: State, t: Template, conn: string, a: Data, b: Data, now: nat)
    ensures IsKeyOrder(t, [a], KeysOf(t, a)) && IsKeyOrder(t, [b], KeysOf(t, b))
    ensures EachCall(s, t, conn, [a, b], now)
            == OneCall(OneCall(s, t, conn, [a], KeysOf(t, a), now), t, conn, [b], KeysOf(t, b), now)
  {
    KeysOfIsKeyOrder(t, a);
    KeysOfIsKeyOrder(t, b);
    assert [a, b][..1] == [a] && [a][..0] == [];
    assert EachCall(s, t, conn, [a], now) == OneCall(s, t, conn, [a], KeysOf(t, a), now);
  }

  lemma QueuedStatus()
    ensures !IsCorrecto(Some(QUEUED))
  {
    assert Lower(QUEUED)[0] == 'q';
  }

  lemma FirstCopyRow(t: Template, conn: string, r: RowRef, d: Data, now: nat)
    ensures var first := Statements.MarkQueued(map[r := NewRow(conn, d, now)], t, {r}, QUEUED);
            r in first && first[r].data == d && !IsCorrecto(first[r].status)
  {
    var first := Statements.MarkQueued(map[r := NewRow(conn, d, now)], t, {r}, QUEUED);
    assert r in first && first[r].data == d && (first[r].status == None || first[r].status == Some(QUEUED));
    QueuedStatus();
  }

  lemma QueueOneRow(t: Template, r: RowRef, x: Row)
    ensures Statements.MarkQueued(map[r := x], t, {r}, QUEUED)
            == map[r := if t.write.None? then x else Statements.Requeued(x, t.write.value, QUEUED)]
  {
  }

  /** A second copy taken over the first leaves what the second alone would have. */
  lemma TwoCopiesRow(t: Template, conn: string, r: RowRef, a: Data, b: Data, now: nat)
    ensures var first := Statements.MarkQueued(map[r := NewRow(conn, a, now)], t, {r}, QUEUED);
            && r in first
            && Statements.MarkQueued(first[r := first[r].(data := b)], t, {r}, QUEUED)
               == Statements.MarkQueued(map[r := NewRow(conn, b, now)], t, {r}, QUEUED)
  {
    QueueOneRow(t, r, NewRow(conn, a, now));
    var first := Statements.MarkQueued(map[r := NewRow(conn, a, now)], t, {r}, QUEUED);
    assert first[r := first[r].(data := b)] == map[r := first[r].(data := b)];
    QueueOneRow(t, r, first[r].(data := b));
    QueueOneRow(t, r, NewRow(conn, b, now));
  }

  /** The state after a first call that brought one row. */
  function WithFirst(t: Template, conn: string, r: RowRef, d: Data, now: nat): State {
    EMPTY.(rows := Statements.MarkQueued(map[r := NewRow(conn, d, now)], t, {r}, QUEUED))
  }

  lemma FirstOnEmpty(t: Template, conn: string, d: Data, now: nat)
    requires HasUsableId(t, d)
    ensures IsKeyOrder(t, [d], KeysOf(t, d))
    ensures OneCall(EMPTY, t, conn, [d], KeysOf(t, d), now) == WithFirst(t, conn, RefOf(t, conn, d, 0), d, now)
  {
    FirstCall(EMPTY, t, conn, d, now);
    var r := RefOf(t, conn, d, 0);
    assert EMPTY.rows[r := NewRow(conn, d, now)] == map[r := NewRow(conn, d, now)];
  }

  /** One call keeps the copy that memory prefers. */
  lemma TwoInOneCall(t: Template, conn: string, a: Data, b: Data, now: nat)
    requires HasUsableId(t, a) && HasUsableId(t, b) && JoinKey(t, a) == JoinKey(t, b)
    ensures var w := if MemRecency(t, b) >= MemRecency(t, a) then b else a;
            && IsKeyOrder(t, [a, b], KeysOf(t, a))
            && OneCall(EMPTY, t, conn, [a, b], KeysOf(t, a), now) == WithFirst(t, conn, RefOf(t, conn, w, 0), w, now)
  {
    var w := if MemRecency(t, b) >= MemRecency(t, a) then b else a;
    TwoOfOneKey(t, conn, a, b, 0);
    BatchOfOne(t, conn, w, 0);
    ItemsOfOne(t, conn, w, 0);
    FirstOnEmpty(t, conn, w, now);
  }

  /** Two calls keep the second copy when the guard takes it. */
  lemma TwoInTwoCalls(t: Template, conn: string, a: Data, b: Data, now: nat)
    requires HasUsableId(t, a) && HasUsableId(t, b) && RefOf(t, conn, a, 0) == RefOf(t, conn, b, 0)
    ensures EachCall(EMPTY, t, conn, [a, b], now) == WithFirst(t, conn, RefOf(t, conn, a, 0), if Takes(t, a, b) then b else a, now)
  {
    var r := RefOf(t, conn, a, 0);
    EachOfTwo(EMPTY, t, conn, a, b, now);
    FirstOnEmpty(t, conn, a, now);
    FirstCopyRow(t, conn, r, a, now);
    TwoCopiesRow(t, conn, r, a, b, now);
    NextCall(WithFirst(t, conn, r, a, now), t, conn, b, now);
  }

  lemma FirstTellsItsData(t: Template, conn: string, r: RowRef, a: Data, b: Data, now: nat)
    ensures WithFirst(t, conn, r, a, now) == WithFirst(t, conn, r, b, now) <==> a == b
  {
    FirstCopyRow(t, conn, r, a, now);
    FirstCopyRow(t, conn, r, b, now);
  }

  /**
   * Two copies of a new row: one call and two calls agree exactly when the copies are
   * one, or memory ranks the second no lower than the first just when SQL takes it.
   */
  lemma TwoCopiesAgreeIff(t: Template, conn: string, a: Data, b: Data, now: nat)
    requires HasUsableId(t, a) && HasUsableId(t, b) && Keyable(t, a) && Keyable(t, b) && JoinKey(t, a) == JoinKey(t, b)
    ensures IsKeyOrder(t, [a, b], KeysOf(t, a))
    ensures OneCall(EMPTY, t, conn, [a, b], KeysOf(t, a), now) == EachCall(EMPTY, t, conn, [a, b], now)
            <==> a == b || Concord(t, a, b)
  {
    SameRowIffSameKey(t, conn, a, b, 0);
    TwoInOneCall(t, conn, a, b, now);
    TwoInTwoCalls(t, conn, a, b, now);
    var w, v := if MemRecency(t, b) >= MemRecency(t, a) then b else a, if Takes(t, a, b) then b else a;
    FirstTellsItsData(t, conn, RefOf(t, conn, a, 0), w, v, now);
  }

  // ------------------------------------------------ a row that blocks others

  lemma RaisingItem(rows: Table, t: Template, conn: string, items: seq<Item>, i: nat, now: nat)
    requires DistinctRefs(items) && i < |items| && Raises(rows, t, items[i])
    ensures AnyRaises(rows, t, conn, items, now)
  {
    UntouchedByOthers(rows, t, conn, items[..i], now, items[i].ref);
    assert items[..i + 1][..i] == items[..i];
    RaisesIsFinal(rows, t, conn, items, i + 1, now);
  }

  /** A stored row whose copy does not cast makes a call that brings it raise. */
  lemma CallRaises(rows: Table, t: Template, conn: string, ds: seq<Data>, keys: seq<string>, a: Data, n: nat, now: nat)
    requires HasUsableId(t, a) && IsKeyOrder(t, ds, keys) && CopiesAt(t, ds, JoinKey(t, a)) == [a]
    requires Raises(rows, t, Item(RefOf(t, conn, a, 0), a))
    ensures AnyRaises(rows, t, conn, BatchItems(t, conn, ds, keys, n), now)
  {
    var plan, rest := Plan(t, conn, ds, keys), Items(t, conn, WithoutId(t, ds), n);
    assert JoinKey(t, a) in keys;
    var i :| 0 <= i < |keys| && keys[i] == JoinKey(t, a);
    PlanComesFromRows(t, conn, ds, keys);
    DistinctKeysDistinctRows(t, conn, ds, keys);
    RaisingItem(rows, t, conn, plan, i, now);
    assert (plan + rest)[..|plan|] == plan;
    RaisesIsFinal(rows, t, conn, plan + rest, |plan|, now);
  }

  function TwoKeys(t: Template, a: Data, b: Data): seq<string>
    requires HasUsableId(t, a)
  {
    if !HasUsableId(t, b) then [JoinKey(t, a)]
    else if Less(JoinKey(t, a), JoinKey(t, b)) then [JoinKey(t, a), JoinKey(t, b)]
    else [JoinKey(t, b), JoinKey(t, a)]
  }

  lemma CopiesOfTwo(t: Template, a: Data, b: Data, k: string)
    requires HasUsableId(t, a)
    ensures CopiesAt(t, [a, b], k) == (if JoinKey(t, a) == k then [a] else [])
                                    + (if HasUsableId(t, b) && JoinKey(t, b) == k then [b] else [])
  {
    assert [a] + [b] == [a, b];
    CopiesAtOne(t, a, k);
    CopiesAtSnoc(t, [a], b, k);
  }

  lemma TwoKeysAreInOrder(t: Template, a: Data, b: Data)
    requires HasUsableId(t, a) && (HasUsableId(t, b) ==> JoinKey(t, a) != JoinKey(t, b))
    ensures IsKeyOrder(t, [a, b], TwoKeys(t, a, b)) && CopiesAt(t, [a, b], JoinKey(t, a)) == [a]
  {
    forall k
      ensures k in TwoKeys(t, a, b) <==> CopiesAt(t, [a, b], k) != []
    {
      CopiesOfTwo(t, a, b, k);
    }
    CopiesOfTwo(t, a, b, JoinKey(t, a));
    if HasUsableId(t, b) {
      LessIsTotal(JoinKey(t, a), JoinKey(t, b));
    }
  }

  /** The table that holds one row with this data. */
  function Holding(t: Template, conn: string, a: Data): State {
    EMPTY.(rows := map[RefOf(t, conn, a, 0) := NewRow(conn, a, 0)])
  }

  lemma IngestOneHas(rows: Table, t: Template, conn: string, it: Item, now: nat)
    ensures it.ref in IngestOne(rows, t, conn, it, now)
  {
  }

  lemma SecondRowComesIn(s: State, t: Template, conn: string, b: Data, now: nat)
    requires RefOf(t, conn, b, s.appended) !in s.rows
    ensures IsKeyOrder(t, [b], KeysOf(t, b))
    ensures OneCall(s, t, conn, [b], KeysOf(t, b), now) != s
  {
    var it := Item(RefOf(t, conn, b, s.appended), b);
    SingleCall(s, t, conn, b, now);
    IngestOneHas(s.rows, t, conn, it, now);
    assert it.ref in OneCall(s, t, conn, [b], KeysOf(t, b), now).rows;
  }

  lemma BlockedCall(t: Template, conn: string, a: Data, b: Data, now: nat)
    requires HasUsableId(t, a) && !Casts(t, a) && (HasUsableId(t, b) ==> JoinKey(t, a) != JoinKey(t, b))
    ensures IsKeyOrder(t, [a, b], TwoKeys(t, a, b))
    ensures OneCall(Holding(t, conn, a), t, conn, [a, b], TwoKeys(t, a, b), now) == Holding(t, conn, a)
  {
    TwoKeysAreInOrder(t, a, b);
    CallRaises(Holding(t, conn, a).rows, t, conn, [a, b], TwoKeys(t, a, b), a, 0, now);
  }

  lemma UnblockedCalls(t: Template, conn: string, a: Data, b: Data, now: nat)
    requires HasUsableId(t, a) && !Casts(t, a) && Keyable(t, a) && Keyable(t, b)
    requires HasUsableId(t, b) ==> JoinKey(t, a) != JoinKey(t, b)
    ensures EachCall(Holding(t, conn, a), t, conn, [a, b], now) != Holding(t, conn, a)
  {
    EachOfTwo(Holding(t, conn, a), t, conn, a, b, now);
    UncastableStays(Holding(t, conn, a), t, conn, a, now);
    SameRowIffSameKey(t, conn, a, b, 0);
    SecondRowComesIn(Holding(t, conn, a), t, conn, b, now);
  }

  /** A stored row that does not cast keeps another row of its call out. */
  lemma UncastableBlocks(t: Template, conn: string, a: Data, b: Data, now: nat)
    requires HasUsableId(t, a) && !Casts(t, a) && Keyable(t, a) && Keyable(t, b)
    requires HasUsableId(t, b) ==> JoinKey(t, a) != JoinKey(t, b)
    ensures IsKeyOrder(t, [a, b], TwoKeys(t, a, b))
    ensures OneCall(Holding(t, conn, a), t, conn, [a, b], TwoKeys(t, a, b), now)
         != EachCall(Holding(t, conn, a), t, conn, [a, b], now)
  {
    BlockedCall(t, conn, a, b, now);
    UnblockedCalls(t, conn, a, b, now);
  }

  lemma Instance(t: Template, all: iset<Data>, s: State, conn: string, a: Data, b: Data, keys: seq<string>, now: nat)
    requires EveryCallAgrees(t, all) && StoredOver(t, all, s) && a in all && b in all
    ensures CallAgrees(s, t, conn, [a, b], keys, now)
  {
    assert forall d :: d in [a, b] ==> d in all;
  }

  lemma SameKeyNeedsConcord(t: Template, all: iset<Data>, a: Data, b: Data)
    requires EveryCallAgrees(t, all) && a in all && b in all && a != b
    requires Keyable(t, a) && Keyable(t, b) && HasUsableId(t, a) && HasUsableId(t, b) && JoinKey(t, a) == JoinKey(t, b)
    ensures Concord(t, a, b)
  {
    TwoCopiesAgreeIff(t, "", a, b, 0);
    Instance(t, all, EMPTY, "", a, b, KeysOf(t, a), 0);
  }

  lemma OtherKeyNeedsCast(t: Template, all: iset<Data>, a: Data, b: Data)
    requires EveryCallAgrees(t, all) && a in all && b in all
    requires Keyable(t, a) && Keyable(t, b) && HasUsableId(t, a) && (HasUsableId(t, b) ==> JoinKey(t, a) != JoinKey(t, b))
    ensures Casts(t, a)
  {
    if !Casts(t, a) {
      UncastableBlocks(t, "", a, b, 0);
      Instance(t, all, Holding(t, "", a), "", a, b, TwoKeys(t, a, b), 0);
    }
  }

  lemma AgreeingCallsNeedPairs(t: Template, all: iset<Data>, a: Data, b: Data)
    requires (forall d :: d in all ==> Keyable(t, d)) && EveryCallAgrees(t, all)
    requires a in all && b in all && a != b
    ensures PairAgrees(t, a, b)
  {
    if HasUsableId(t, a) {
      if HasUsableId(t, b) && JoinKey(t, a) == JoinKey(t, b) {
        SameKeyNeedsConcord(t, all, a, b);
        SameKeyNeedsConcord(t, all, b, a);
      } else {
        OtherKeyNeedsCast(t, all, a, b);
      }
    }
  }

  /**
   * Main result: over a set of rows, every call on every table of such rows equals
   * one call per row exactly when, for any two different members, the first casts and,
   * if they are copies of one row, memory order and guard verdict agree on them.
   */
  lemma CallsAgreeIffPairsAgree(t: Template, all: iset<Data>)
    requires forall d :: d in all ==> Keyable(t, d)
    ensures EveryCallAgrees(t, all) <==> PairsAgree(t, all)
  {
    if PairsAgree(t, all) {
      AgreeingPairsSuffice(t, all);
    }
    if EveryCallAgrees(t, all) {
      forall a, b | a in all && b in all && a != b
        ensures PairAgrees(t, a, b)
      {
        AgreeingCallsNeedPairs(t, all, a, b);
      }
    }
  }

  lemma TwoRowsAgree(t: Template, a: Data, b: Data)
    requires a != b
    ensures PairsAgree(t, iset{a, b}) <==> PairAgrees(t, a, b) && PairAgrees(t, b, a)
  {
    var all := iset{a, b};
    assert a in all && b in all && forall x :: x in all ==> x == a || x == b;
  }

  /** A copy with a null recency beside one with an integer, or none (-1): only 0 and -1 part the calls. */
  lemma NullAgreesUnlessMinusOneOrZero(t: Template, a: Data, b: Data)
    requires t.recencyField.Some? && HasUsableId(t, a) && HasUsableId(t, b) && JoinKey(t, a) == JoinKey(t, b)
    requires Keyable(t, a) && Keyable(t, b) && PlainRecency(t, b)
    requires t.recencyField.value in a && a[t.recencyField.value] == Null
    ensures EveryCallAgrees(t, iset{a, b}) <==> MemRecency(t, b) != -1 && MemRecency(t, b) != 0
  {
    CallsAgreeIffPairsAgree(t, iset{a, b});
    TwoRowsAgree(t, a, b);
  }

  /** The recency of a copy as an integer: its number, its number as text, or -1 when it has none. */
  predicate HasRecency(t: Template, d: Data, x: int)
    requires t.recencyField.Some?
  {
    if t.recencyField.value !in d then x == -1
    else match d[t.recencyField.value]
         case Number(n) => x == n
         case Text(s) => ParseInteger(s) == Some(x)
         case _ => false
  }

  /** A flag or a text that is no integer, and what it counts for in memory. */
  predicate CountsFor(t: Template, d: Data, x: int)
    requires t.recencyField.Some?
  {
    t.recencyField.value in d &&
    match d[t.recencyField.value]
    case Flag(b) => x == if b then 1 else 0
    case Text(s) => ParseInteger(s).None? && x == if s == "" then 0 else -1
    case _ => false
  }

  /** A second copy that does not cast is kept out by SQL, and by memory exactly when it counts for less. */
  lemma UncastableAgreesIff(t: Template, conn: string, a: Data, b: Data, x: int, y: int, now: nat)
    requires t.recencyField.Some? && HasUsableId(t, a) && HasUsableId(t, b) && JoinKey(t, a) == JoinKey(t, b)
    requires Keyable(t, a) && Keyable(t, b) && HasRecency(t, a, x) && CountsFor(t, b, y)
    ensures IsKeyOrder(t, [a, b], KeysOf(t, a))
    ensures OneCall(EMPTY, t, conn, [a, b], KeysOf(t, a), now) == EachCall(EMPTY, t, conn, [a, b], now) <==> y < x
  {
    TwoCopiesAgreeIff(t, conn, a, b, now);
  }
}
