/**
 * `ingest` as a batch and as one call per row: the in-memory dedup keyed by the
 * joined id columns, followed by one guarded upsert per key, against upserting
 * and queueing every incoming row in its turn.
 */
module Ingest {
  import opened Text
  import opened Rows
  import opened Upserts
  import opened Statements

  // ------------------------------------------------------------ dedup keys

  function JoinKey(t: Template, d: Data): string
    requires HasUsableId(t, d)
  {
    Join(IdTexts(t.idFields, d).value, [KEY_SEPARATOR])
  }

  /** The id columns cannot be confused once joined: one column, or no separator inside. */
  predicate KeyIsFaithful(t: Template, d: Data) {
    HasUsableId(t, d) && |t.idFields| > 1 ==> forall x :: x in IdTexts(t.idFields, d).value ==> KEY_SEPARATOR !in x
  }

  lemma JoinKeyIdentifiesRow(t: Template, d: Data, e: Data)
    requires HasUsableId(t, d) && HasUsableId(t, e)
    requires KeyIsFaithful(t, d) && KeyIsFaithful(t, e)
    requires JoinKey(t, d) == JoinKey(t, e)
    ensures IdTexts(t.idFields, d) == IdTexts(t.idFields, e)
  {
    var p, q := IdTexts(t.idFields, d).value, IdTexts(t.idFields, e).value;
    if |t.idFields| == 1 {
      assert p == [p[0]] && q == [q[0]];
    } else {
      JoinIsInjective(p, q, KEY_SEPARATOR);
    }
  }

  /** The dedup key separates all rows of a template exactly when it has a single id column. */
  lemma DedupSeparatesRowsIffOneColumn(t: Template)
    requires t.idFields != []
    requires forall i, j :: 0 <= i < j < |t.idFields| ==> t.idFields[i] != t.idFields[j]
    ensures |t.idFields| == 1 <==>
            forall d, e | HasUsableId(t, d) && HasUsableId(t, e) && JoinKey(t, d) == JoinKey(t, e) ::
              IdTexts(t.idFields, d) == IdTexts(t.idFields, e)
  {
    if |t.idFields| == 1 {
      forall d, e | HasUsableId(t, d) && HasUsableId(t, e) && JoinKey(t, d) == JoinKey(t, e)
        ensures IdTexts(t.idFields, d) == IdTexts(t.idFields, e)
      {
        JoinKeyIdentifiesRow(t, d, e);
      }
    } else {
      var p, q := CollidingTexts(|t.idFields|, KEY_SEPARATOR);
      var d, e := DataWith(t.idFields, p), DataWith(t.idFields, q);
      DataWithHasTexts(t.idFields, p);
      DataWithHasTexts(t.idFields, q);
      assert JoinKey(t, d) == JoinKey(t, e) && IdTexts(t.idFields, d) != IdTexts(t.idFields, e);
    }
  }

  function DataWith(fields: seq<string>, texts: seq<string>): Data
    requires |fields| == |texts|
  {
    if fields == [] then map[] else DataWith(fields[1..], texts[1..])[fields[0] := Text(texts[0])]
  }

  lemma {:induction false} DataWithHasTexts(fields: seq<string>, texts: seq<string>)
    requires |fields| == |texts|
    requires forall i, j :: 0 <= i < j < |fields| ==> fields[i] != fields[j]
    ensures IdTexts(fields, DataWith(fields, texts)) == Some(texts)
  {
    if fields != [] {
      DataWithHasTexts(fields[1..], texts[1..]);
      OtherFieldKeepsTexts(fields[1..], DataWith(fields[1..], texts[1..]), fields[0], Text(texts[0]));
      assert texts == [texts[0]] + texts[1..];
    }
  }

  lemma {:induction false} OtherFieldKeepsTexts(fields: seq<string>, d: Data, f: string, v: Value)
    requires f !in fields
    ensures IdTexts(fields, d[f := v]) == IdTexts(fields, d)
  {
    if fields != [] {
      OtherFieldKeepsTexts(fields[1..], d, f, v);
    }
  }

  /** Two different tuples of any length above one that are one text when joined. */
  lemma {:induction false} CollidingTexts(n: nat, c: char) returns (p: seq<string>, q: seq<string>)
    requires n > 1
    ensures |p| == |q| == n && p != q && "" !in p && "" !in q
    ensures Join(p, [c]) == Join(q, [c])
  {
    if n == 2 {
      p, q := ["a" + [c] + "b", "c"], ["a", "b" + [c] + "c"];
      assert p[1..] == ["c"] && q[1..] == ["b" + [c] + "c"];
      assert Join(p[1..], [c]) == "c";
      assert Join(p, [c]) == ['a', c, 'b', c, 'c'];
      assert Join(q, [c]) == ['a', c, 'b', c, 'c'];
      assert |p[0]| != |q[0]|;
    } else {
      var p', q' := CollidingTexts(n - 1, c);
      p, q := ["x"] + p', ["x"] + q';
      assert p[1..] == p' && q[1..] == q';
    }
  }

  // ------------------------------------------------- rows into upsert items

  /** How many of these rows get a number instead of an id tuple. */
  function AppendedCount(t: Template, ds: seq<Data>): nat {
    if ds == [] then 0
    else AppendedCount(t, ds[..|ds| - 1]) + (if RefOf(t, "", ds[|ds| - 1], 0).Appended? then 1 else 0)
  }

  /** The rows in arrival order, each with the identity its INSERT would have. */
  function Items(t: Template, conn: string, ds: seq<Data>, n: nat): seq<Item> {
    if ds == [] then []
    else
      var before := ds[..|ds| - 1];
      Items(t, conn, before, n) + [Item(RefOf(t, conn, ds[|ds| - 1], n + AppendedCount(t, before)), ds[|ds| - 1])]
  }

  function WithoutId(t: Template, ds: seq<Data>): seq<Data> {
    if ds == [] then []
    else WithoutId(t, ds[..|ds| - 1]) + (if HasUsableId(t, ds[|ds| - 1]) then [] else [ds[|ds| - 1]])
  }

  function CopiesAt(t: Template, ds: seq<Data>, k: string): seq<Data> {
    if ds == [] then []
    else
      var d := ds[|ds| - 1];
      CopiesAt(t, ds[..|ds| - 1], k) + (if HasUsableId(t, d) && JoinKey(t, d) == k then [d] else [])
  }

  /** The keys the dedup ends up with, in the order the statements lock them. */
  ghost predicate IsKeyOrder(t: Template, ds: seq<Data>, keys: seq<string>) {
    (forall i, j :: 0 <= i < j < |keys| ==> Less(keys[i], keys[j])) &&
    (forall k :: k in keys <==> CopiesAt(t, ds, k) != [])
  }

  function PlanItem(t: Template, conn: string, ds: seq<Data>, k: string): Item
    requires CopiesAt(t, ds, k) != []
  {
    var w := LastGreatest(t, CopiesAt(t, ds, k));
    Item(RefOf(t, conn, w, 0), w)
  }

  /** One item per key: the dedup's choice among the copies of that key. */
  ghost function Plan(t: Template, conn: string, ds: seq<Data>, keys: seq<string>): seq<Item>
    requires forall k :: k in keys ==> CopiesAt(t, ds, k) != []
  {
    if keys == [] then []
    else Plan(t, conn, ds, keys[..|keys| - 1]) + [PlanItem(t, conn, ds, keys[|keys| - 1])]
  }

  /** Everything one `ingest` call upserts, in statement order. */
  ghost function BatchItems(t: Template, conn: string, ds: seq<Data>, keys: seq<string>, n: nat): seq<Item>
    requires IsKeyOrder(t, ds, keys)
  {
    Plan(t, conn, ds, keys) + Items(t, conn, WithoutId(t, ds), n)
  }

  // -------------------------------------------------------- one call per row

  function IngestOne(rows: Table, t: Template, conn: string, it: Item, now: nat): Table {
    MarkQueued(Upsert(rows, t, conn, it, now), t,
               if TakenBy(t, Lookup(rows, it.ref), it.data) then {it.ref} else {}, QUEUED)
  }

  function RowByRow(rows: Table, t: Template, conn: string, items: seq<Item>, now: nat): Table {
    if items == [] then rows
    else IngestOne(RowByRow(rows, t, conn, items[..|items| - 1], now), t, conn, items[|items| - 1], now)
  }

  lemma {:induction false} AffectedAreLive(rows: Table, t: Template, conn: string, items: seq<Item>, now: nat)
    ensures UpsertEach(rows, t, conn, items, now).Keys >= rows.Keys
    ensures forall r :: r in Affected(rows, t, conn, items, now) ==>
              r in UpsertEach(rows, t, conn, items, now) && !IsCorrecto(UpsertEach(rows, t, conn, items, now)[r].status)
  {
    if items != [] {
      AffectedAreLive(rows, t, conn, items[..|items| - 1], now);
    }
  }

  lemma GuardIgnoresQueueing(t: Template, r: Row, w: WriteConfig, d: Data)
    requires !IsCorrecto(r.status)
    ensures Guard(t, Requeued(r, w, QUEUED), d) == Guard(t, r, d)
  {
    QueuedIsNotCorrecto();
  }

  lemma QueueCommutesOnTheRow(u: Table, t: Template, conn: string, ids: set<RowRef>, it: Item, now: nat)
    requires t.write.Some?
    requires it.ref in ids ==> it.ref in u && !IsCorrecto(u[it.ref].status)
    ensures var q := MarkQueued(u, t, ids, QUEUED);
            var was, qwas := Lookup(u, it.ref), Lookup(q, it.ref);
            var r, qr := UpsertRow(t, conn, was, it.data, now), UpsertRow(t, conn, qwas, it.data, now);
            && TakenBy(t, qwas, it.data) == TakenBy(t, was, it.data)
            && if TakenBy(t, was, it.data) then Requeued(qr, t.write.value, QUEUED) == Requeued(r, t.write.value, QUEUED)
               else qr == if it.ref in ids then Requeued(r, t.write.value, QUEUED) else r
  {
    if it.ref in ids {
      GuardIgnoresQueueing(t, u[it.ref], t.write.value, it.data);
    }
  }

  /** Upserting into a queued table is queueing the upserted one. */
  lemma QueueCommutesWithUpsert(u: Table, t: Template, conn: string, ids: set<RowRef>, it: Item, now: nat)
    requires forall r :: r in ids ==> r in u && !IsCorrecto(u[r].status)
    ensures var taken := if TakenBy(t, Lookup(u, it.ref), it.data) then {it.ref} else {};
            IngestOne(MarkQueued(u, t, ids, QUEUED), t, conn, it, now) ==
            MarkQueued(Upsert(u, t, conn, it, now), t, ids + taken, QUEUED)
  {
    if t.write.Some? {
      QueueCommutesOnTheRow(u, t, conn, ids, it, now);
    }
  }

  lemma QueuedIsNotCorrecto()
    ensures !IsCorrecto(Some(QUEUED)) && !IsCorrecto(Some(STAGED)) && !IsCorrecto(Some(REVISADO)) && !IsCorrecto(Some(PENDING))
  {
    assert Lower(QUEUED)[0] == 'q';
    assert Lower(STAGED)[0] == 's';
    assert Lower(REVISADO)[0] == 'r';
    assert Lower(PENDING)[0] == 'p';
  }

  /** Queueing after every upsert is queueing once, at the end, what was affected. */
  lemma {:induction false} QueueOnceAtTheEnd(rows: Table, t: Template, conn: string, items: seq<Item>, now: nat)
    ensures RowByRow(rows, t, conn, items, now) ==
            MarkQueued(UpsertEach(rows, t, conn, items, now), t, Affected(rows, t, conn, items, now), QUEUED)
  {
    if items == [] {
      assert MarkQueued(rows, t, {}, QUEUED) == rows;
    } else {
      var before, it := items[..|items| - 1], items[|items| - 1];
      QueueOnceAtTheEnd(rows, t, conn, before, now);
      AffectedAreLive(rows, t, conn, before, now);
      QueueCommutesWithUpsert(UpsertEach(rows, t, conn, before, now), t, conn, Affected(rows, t, conn, before, now), it, now);
    }
  }

  // ----------------------------------------------------- batch = row by row

  /** A row whose dedup key stands for its id tuple, or that is inserted apart from all others. */
  predicate Keyable(t: Template, d: Data) {
    KeyIsFaithful(t, d) && (HasUsableId(t, d) || RefOf(t, "", d, 0).Appended?)
  }

  predicate AllKeyable(t: Template, ds: seq<Data>) {
    forall d :: d in ds ==> Keyable(t, d)
  }

  /** Rows on which the memory side and the SQL side cannot disagree. */
  predicate Clean(t: Template, d: Data) {
    PlainRecency(t, d) && Keyable(t, d)
  }

  predicate AllClean(t: Template, ds: seq<Data>) {
    forall d :: d in ds ==> Clean(t, d)
  }

  /** The stored side: castable recencies, and numbers given out so far below `n`. */
  predicate StoredClean(t: Template, rows: Table, n: nat) {
    forall r :: r in rows ==> PlainRecency(t, rows[r].data) && (r.Appended? ==> r.n < n)
  }

  lemma {:induction false} CopiesOfConcat(a: seq<Item>, b: seq<Item>, r: RowRef)
    ensures CopiesOf(a + b, r) == CopiesOf(a, r) + CopiesOf(b, r)
  {
    if b == [] {
      assert a + b == a;
    } else {
      assert (a + b)[..|a + b| - 1] == a + b[..|b| - 1];
      CopiesOfConcat(a, b[..|b| - 1], r);
    }
  }

  lemma CopiesOfSnoc(items: seq<Item>, it: Item, r: RowRef)
    ensures CopiesOf(items + [it], r) == CopiesOf(items, r) + (if it.ref == r then [it.data] else [])
  {
    assert (items + [it])[..|items|] == items;
  }

  lemma ItemsSnoc(t: Template, conn: string, ds: seq<Data>, d: Data, n: nat)
    ensures Items(t, conn, ds + [d], n) == Items(t, conn, ds, n) + [Item(RefOf(t, conn, d, n + AppendedCount(t, ds)), d)]
    ensures AppendedCount(t, ds + [d]) == AppendedCount(t, ds) + (if RefOf(t, "", d, 0).Appended? then 1 else 0)
  {
    assert (ds + [d])[..|ds|] == ds;
  }

  lemma SameRowIffSameKey(t: Template, conn: string, d: Data, e: Data, m: nat)
    requires Keyable(t, d) && HasUsableId(t, d) && Keyable(t, e)
    ensures RefOf(t, conn, e, m) == RefOf(t, conn, d, 0) <==> HasUsableId(t, e) && JoinKey(t, e) == JoinKey(t, d)
  {
    if HasUsableId(t, e) && JoinKey(t, e) == JoinKey(t, d) {
      JoinKeyIdentifiesRow(t, d, e);
    }
  }

  /** The copies of a keyed row among the arrivals are those with its joined key. */
  lemma {:induction false} ArrivalsOfKey(t: Template, conn: string, ds: seq<Data>, n: nat, d: Data)
    requires AllKeyable(t, ds) && Keyable(t, d) && HasUsableId(t, d)
    ensures CopiesOf(Items(t, conn, ds, n), RefOf(t, conn, d, 0)) == CopiesAt(t, ds, JoinKey(t, d))
  {
    if ds != [] {
      var before, e := ds[..|ds| - 1], ds[|ds| - 1];
      var m := n + AppendedCount(t, before);
      assert e in ds && ds == before + [e];
      ArrivalsOfKey(t, conn, before, n, d);
      ItemsSnoc(t, conn, before, e, n);
      CopiesOfSnoc(Items(t, conn, before, n), Item(RefOf(t, conn, e, m), e), RefOf(t, conn, d, 0));
      SameRowIffSameKey(t, conn, d, e, m);
    }
  }

  lemma KeyedIsNotAppended(t: Template, conn: string, ds: seq<Data>, n: nat, d: Data)
    requires AllKeyable(t, ds) && HasUsableId(t, d)
    ensures CopiesOf(Items(t, conn, WithoutId(t, ds), n), RefOf(t, conn, d, 0)) == []
  {
    ItemsComeFromRows(t, conn, WithoutId(t, ds), n);
    WithoutIdAreRows(t, ds);
    CopiesOfAbsent(Items(t, conn, WithoutId(t, ds), n), RefOf(t, conn, d, 0));
  }

  /** A list of arrivals numbers and inserts the rows without an id as another does. */
  ghost predicate SameAppends(t: Template, conn: string, ds: seq<Data>, es: seq<Data>, n: nat, r: RowRef) {
    AppendedCount(t, ds) == AppendedCount(t, es) && CopiesOf(Items(t, conn, ds, n), r) == CopiesOf(Items(t, conn, es, n), r)
  }

  lemma SameAppendsSkip(t: Template, conn: string, ds: seq<Data>, es: seq<Data>, n: nat, r: RowRef, e: Data)
    requires SameAppends(t, conn, ds, es, n, r) && r.Appended? && HasUsableId(t, e)
    ensures SameAppends(t, conn, ds, es + [e], n, r)
  {
    ItemsSnoc(t, conn, es, e, n);
    CopiesOfSnoc(Items(t, conn, es, n), Item(RefOf(t, conn, e, n + AppendedCount(t, es)), e), r);
  }

  lemma SameAppendsKeep(t: Template, conn: string, ds: seq<Data>, es: seq<Data>, n: nat, r: RowRef, e: Data)
    requires SameAppends(t, conn, ds, es, n, r)
    ensures SameAppends(t, conn, ds + [e], es + [e], n, r)
  {
    var it := Item(RefOf(t, conn, e, n + AppendedCount(t, es)), e);
    ItemsSnoc(t, conn, ds, e, n);
    ItemsSnoc(t, conn, es, e, n);
    CopiesOfSnoc(Items(t, conn, ds, n), it, r);
    CopiesOfSnoc(Items(t, conn, es, n), it, r);
  }

  /** Rows without an id are inserted alike whether or not rows with one go first. */
  lemma {:induction false} ArrivalsWithoutId(t: Template, conn: string, ds: seq<Data>, n: nat, r: RowRef)
    requires r.Appended?
    ensures SameAppends(t, conn, WithoutId(t, ds), ds, n, r)
  {
    if ds != [] {
      var before, e := ds[..|ds| - 1], ds[|ds| - 1];
      ArrivalsWithoutId(t, conn, before, n, r);
      assert ds == before + [e];
      if HasUsableId(t, e) {
        SameAppendsSkip(t, conn, WithoutId(t, before), before, n, r, e);
        assert WithoutId(t, ds) == WithoutId(t, before);
      } else {
        SameAppendsKeep(t, conn, WithoutId(t, before), before, n, r, e);
      }
    }
  }

  lemma {:induction false} CopiesAtAreCopies(t: Template, ds: seq<Data>, k: string)
    ensures forall d :: d in CopiesAt(t, ds, k) ==> d in ds && HasUsableId(t, d) && JoinKey(t, d) == k
  {
    if ds != [] {
      CopiesAtAreCopies(t, ds[..|ds| - 1], k);
    }
  }

  lemma PlanItemHasKey(t: Template, conn: string, ds: seq<Data>, k: string)
    requires CopiesAt(t, ds, k) != []
    ensures var it := PlanItem(t, conn, ds, k); HasUsableId(t, it.data) && JoinKey(t, it.data) == k && it.data in ds && it.ref.Keyed?
  {
    LastGreatestIsACopy(t, CopiesAt(t, ds, k));
    CopiesAtAreCopies(t, ds, k);
  }

  lemma PlanSnoc(t: Template, conn: string, ds: seq<Data>, keys: seq<string>, k: string)
    requires forall l :: l in keys ==> CopiesAt(t, ds, l) != []
    requires CopiesAt(t, ds, k) != []
    ensures Plan(t, conn, ds, keys + [k]) == Plan(t, conn, ds, keys) + [PlanItem(t, conn, ds, k)]
  {
    assert (keys + [k])[..|keys|] == keys;
  }

  lemma PlanItemIsOfKey(t: Template, conn: string, ds: seq<Data>, k: string, d: Data)
    requires AllKeyable(t, ds) && Keyable(t, d) && HasUsableId(t, d) && CopiesAt(t, ds, k) != []
    ensures PlanItem(t, conn, ds, k).ref == RefOf(t, conn, d, 0) <==> k == JoinKey(t, d)
  {
    PlanItemHasKey(t, conn, ds, k);
    SameRowIffSameKey(t, conn, d, PlanItem(t, conn, ds, k).data, 0);
  }

  lemma PlanOfKeyStep(t: Template, conn: string, ds: seq<Data>, keys: seq<string>, k: string, d: Data)
    requires AllKeyable(t, ds) && Keyable(t, d) && HasUsableId(t, d)
    requires (forall l :: l in keys ==> CopiesAt(t, ds, l) != []) && CopiesAt(t, ds, k) != []
    ensures var r := RefOf(t, conn, d, 0);
            CopiesOf(Plan(t, conn, ds, keys + [k]), r)
            == CopiesOf(Plan(t, conn, ds, keys), r) + if k == JoinKey(t, d) then [LastGreatest(t, CopiesAt(t, ds, k))] else []
  {
    PlanSnoc(t, conn, ds, keys, k);
    CopiesOfSnoc(Plan(t, conn, ds, keys), PlanItem(t, conn, ds, k), RefOf(t, conn, d, 0));
    PlanItemIsOfKey(t, conn, ds, k, d);
  }

  /** The plan holds one copy of a keyed row: the dedup's choice. */
  lemma {:induction false} PlanOfKey(t: Template, conn: string, ds: seq<Data>, keys: seq<string>, d: Data)
    requires AllKeyable(t, ds) && Keyable(t, d) && HasUsableId(t, d)
    requires forall k :: k in keys ==> CopiesAt(t, ds, k) != []
    requires forall i, j :: 0 <= i < j < |keys| ==> keys[i] != keys[j]
    ensures CopiesOf(Plan(t, conn, ds, keys), RefOf(t, conn, d, 0)) ==
            if JoinKey(t, d) in keys then [LastGreatest(t, CopiesAt(t, ds, JoinKey(t, d)))] else []
  {
    if keys != [] {
      var before, k := keys[..|keys| - 1], keys[|keys| - 1];
      assert keys == before + [k] && k !in before;
      PlanOfKey(t, conn, ds, before, d);
      PlanOfKeyStep(t, conn, ds, before, k, d);
    }
  }

  lemma {:induction false} ItemsComeFromRows(t: Template, conn: string, ds: seq<Data>, n: nat)
    ensures forall it :: it in Items(t, conn, ds, n) ==>
              it.data in ds && (it.ref.Appended? ==> n <= it.ref.n) && (it.ref.Keyed? ==> it.ref == RefOf(t, conn, it.data, 0))
  {
    if ds != [] {
      ItemsComeFromRows(t, conn, ds[..|ds| - 1], n);
    }
  }

  lemma {:induction false} PlanComesFromRows(t: Template, conn: string, ds: seq<Data>, keys: seq<string>)
    requires forall k :: k in keys ==> CopiesAt(t, ds, k) != []
    ensures |Plan(t, conn, ds, keys)| == |keys|
    ensures forall i :: 0 <= i < |keys| ==> Plan(t, conn, ds, keys)[i] == PlanItem(t, conn, ds, keys[i])
  {
    if keys != [] {
      PlanComesFromRows(t, conn, ds, keys[..|keys| - 1]);
    }
  }

  lemma {:induction false} CopiesOfAbsent(items: seq<Item>, r: RowRef)
    requires forall it :: it in items ==> it.ref != r
    ensures CopiesOf(items, r) == []
  {
    if items != [] {
      CopiesOfAbsent(items[..|items| - 1], r);
    }
  }

  lemma PlanRefs(t: Template, conn: string, ds: seq<Data>, keys: seq<string>)
    requires IsKeyOrder(t, ds, keys)
    ensures forall it :: it in Plan(t, conn, ds, keys) ==>
              it.ref.Keyed? && it.data in ds && HasUsableId(t, it.data) && it.ref == RefOf(t, conn, it.data, 0)
    ensures forall i, j :: 0 <= i < j < |keys| ==> keys[i] != keys[j]
  {
    PlanComesFromRows(t, conn, ds, keys);
    forall i | 0 <= i < |keys|
      ensures var it := Plan(t, conn, ds, keys)[i];
              it.ref.Keyed? && it.data in ds && HasUsableId(t, it.data) && it.ref == RefOf(t, conn, it.data, 0)
    {
      PlanItemHasKey(t, conn, ds, keys[i]);
    }
    forall i, j | 0 <= i < j < |keys|
      ensures keys[i] != keys[j]
    {
      LessIsTotal(keys[i], keys[j]);
    }
  }

  /** A row no incoming copy has the identity of is in neither list. */
  lemma StrangerHasNoCopies(t: Template, conn: string, ds: seq<Data>, keys: seq<string>, n: nat, r: RowRef)
    requires AllKeyable(t, ds) && IsKeyOrder(t, ds, keys)
    requires r.Keyed? && forall d :: d in ds && HasUsableId(t, d) ==> RefOf(t, conn, d, 0) != r
    ensures CopiesOf(Items(t, conn, ds, n), r) == []
    ensures CopiesOf(BatchItems(t, conn, ds, keys, n), r) == []
  {
    ItemsComeFromRows(t, conn, ds, n);
    ItemsComeFromRows(t, conn, WithoutId(t, ds), n);
    WithoutIdAreRows(t, ds);
    PlanRefs(t, conn, ds, keys);
    CopiesOfAbsent(BatchItems(t, conn, ds, keys, n), r);
    CopiesOfAbsent(Items(t, conn, ds, n), r);
  }

  /** For each stored row, the batch carries the dedup's choice among its arrivals. */
  lemma BatchCopies(t: Template, conn: string, ds: seq<Data>, keys: seq<string>, n: nat, r: RowRef)
    requires AllKeyable(t, ds) && IsKeyOrder(t, ds, keys)
    ensures var arrivals := CopiesOf(Items(t, conn, ds, n), r);
            var batch := CopiesOf(BatchItems(t, conn, ds, keys, n), r);
            batch == arrivals || (r.Keyed? && arrivals != [] && batch == [LastGreatest(t, arrivals)])
  {
    PlanRefs(t, conn, ds, keys);
    CopiesOfConcat(Plan(t, conn, ds, keys), Items(t, conn, WithoutId(t, ds), n), r);
    if r.Appended? {
      ArrivalsWithoutId(t, conn, ds, n, r);
      CopiesOfAbsent(Plan(t, conn, ds, keys), r);
    } else if d :| d in ds && HasUsableId(t, d) && RefOf(t, conn, d, 0) == r {
      ArrivalsOfKey(t, conn, ds, n, d);
      KeyedIsNotAppended(t, conn, ds, n, d);
      PlanOfKey(t, conn, ds, keys, d);
    } else {
      StrangerHasNoCopies(t, conn, ds, keys, n, r);
    }
  }

  lemma ArrivalsAreRows(t: Template, conn: string, ds: seq<Data>, n: nat, r: RowRef)
    ensures forall d :: d in CopiesOf(Items(t, conn, ds, n), r) ==> d in ds
  {
    CopiesOfAreItems(Items(t, conn, ds, n), r);
    ItemsComeFromRows(t, conn, ds, n);
  }

  lemma {:induction false} WithoutIdAreRows(t: Template, ds: seq<Data>)
    ensures forall d :: d in WithoutId(t, ds) ==> d in ds && !HasUsableId(t, d)
  {
    if ds != [] {
      WithoutIdAreRows(t, ds[..|ds| - 1]);
    }
  }

  lemma {:induction false} CopiesOfAreItems(items: seq<Item>, r: RowRef)
    ensures forall d :: d in CopiesOf(items, r) ==> Item(r, d) in items
  {
    if items != [] {
      CopiesOfAreItems(items[..|items| - 1], r);
    }
  }

  /** For each stored row the copies that meet there are judged alike by memory and SQL. */
  ghost predicate ConcordantBatch(rows: Table, t: Template, conn: string, ds: seq<Data>, n: nat) {
    forall r: RowRef :: r.Keyed? && CopiesOf(Items(t, conn, ds, n), r) != [] ==>
      AllConcord(t, Lookup(rows, r), CopiesOf(Items(t, conn, ds, n), r))
  }

  lemma BatchOnRow(rows: Table, t: Template, conn: string, ds: seq<Data>, keys: seq<string>, n: nat, now: nat, r: RowRef)
    requires AllKeyable(t, ds) && IsKeyOrder(t, ds, keys) && ConcordantBatch(rows, t, conn, ds, n)
    ensures var batch, each := BatchItems(t, conn, ds, keys, n), Items(t, conn, ds, n);
            && Lookup(UpsertEach(rows, t, conn, batch, now), r) == Lookup(UpsertEach(rows, t, conn, each, now), r)
            && (r in Affected(rows, t, conn, batch, now) <==> r in Affected(rows, t, conn, each, now))
  {
    EachRowByItsCopies(rows, t, conn, BatchItems(t, conn, ds, keys, n), now, r);
    EachRowByItsCopies(rows, t, conn, Items(t, conn, ds, n), now, r);
    BatchCopies(t, conn, ds, keys, n, r);
    var arrivals := CopiesOf(Items(t, conn, ds, n), r);
    if r.Keyed? && arrivals != [] {
      ConcordantCopiesCollapse(t, conn, Lookup(rows, r), arrivals, now);
    }
  }

  /**
   * Main result: where memory and SQL judge the copies alike, one `ingest` call
   * leaves, row for row, what one call per row would have left, and the same rows queued.
   */
  lemma BatchIsRowByRow(rows: Table, t: Template, conn: string, ds: seq<Data>, keys: seq<string>, n: nat, now: nat)
    requires AllKeyable(t, ds) && IsKeyOrder(t, ds, keys) && ConcordantBatch(rows, t, conn, ds, n)
    ensures UpsertEach(rows, t, conn, BatchItems(t, conn, ds, keys, n), now) == UpsertEach(rows, t, conn, Items(t, conn, ds, n), now)
    ensures Affected(rows, t, conn, BatchItems(t, conn, ds, keys, n), now) == Affected(rows, t, conn, Items(t, conn, ds, n), now)
    ensures MarkQueued(UpsertEach(rows, t, conn, BatchItems(t, conn, ds, keys, n), now), t,
                       Affected(rows, t, conn, BatchItems(t, conn, ds, keys, n), now), QUEUED)
            == RowByRow(rows, t, conn, Items(t, conn, ds, n), now)
  {
    var batch, each := BatchItems(t, conn, ds, keys, n), Items(t, conn, ds, n);
    forall r
      ensures Lookup(UpsertEach(rows, t, conn, batch, now), r) == Lookup(UpsertEach(rows, t, conn, each, now), r)
      ensures r in Affected(rows, t, conn, batch, now) <==> r in Affected(rows, t, conn, each, now)
    {
      BatchOnRow(rows, t, conn, ds, keys, n, now, r);
    }
    TablesAgree(UpsertEach(rows, t, conn, batch, now), UpsertEach(rows, t, conn, each, now));
    QueueOnceAtTheEnd(rows, t, conn, each, now);
  }

  /** On clean rows over a clean table memory and SQL agree everywhere. */
  lemma CleanIsConcordant(rows: Table, t: Template, conn: string, ds: seq<Data>, n: nat)
    requires AllClean(t, ds) && StoredClean(t, rows, n)
    ensures ConcordantBatch(rows, t, conn, ds, n)
  {
    forall r
      ensures AllConcord(t, Lookup(rows, r), CopiesOf(Items(t, conn, ds, n), r))
    {
      ArrivalsAreRows(t, conn, ds, n, r);
      PlainIsConcord(t, Lookup(rows, r), CopiesOf(Items(t, conn, ds, n), r));
    }
  }

  lemma TablesAgree(a: Table, b: Table)
    requires forall r :: Lookup(a, r) == Lookup(b, r)
    ensures a == b
  {
    forall r
      ensures r in a <==> r in b
      ensures r in a && r in b ==> a[r] == b[r]
    {
      assert Lookup(a, r) == Lookup(b, r);
    }
  }

  // -------------------------------------------------------------- newest wins

  /** What a row holds after all the arrivals: the newest copy, unless it was accepted. */
  lemma NewestCopyIsStored(rows: Table, t: Template, conn: string, ds: seq<Data>, n: nat, now: nat, r: RowRef)
    requires AllClean(t, ds) && StoredClean(t, rows, n)
    requires r in RowByRow(rows, t, conn, Items(t, conn, ds, n), now)
    ensures var copies := CopiesOf(Items(t, conn, ds, n), r);
            var after := RowByRow(rows, t, conn, Items(t, conn, ds, n), now)[r];
            if r in rows && (IsCorrecto(rows[r].status) || copies == []) then after == rows[r]
            else
              && (after.data in copies || (r in rows && after.data == rows[r].data))
              && (forall d :: d in copies ==> MemRecency(t, d) <= MemRecency(t, after.data))
              && (r in rows ==> MemRecency(t, rows[r].data) <= MemRecency(t, after.data))
  {
    var items := Items(t, conn, ds, n);
    var copies := CopiesOf(items, r);
    QueueOnceAtTheEnd(rows, t, conn, items, now);
    EachRowByItsCopies(rows, t, conn, items, now, r);
    ArrivalsAreRows(t, conn, ds, n, r);
    if copies != [] {
      CopiesCollapse(t, conn, Lookup(rows, r), copies, now);
      var w := LastGreatest(t, copies);
      LastGreatestIsACopy(t, copies);
      var one := [w];
      assert one[..0] == [];
      if r in rows {
        GuardComparesRecency(t, rows[r], w);
      }
    }
  }

  /** The stored recency does not depend on the order, or the grouping into calls, of the arrivals. */
  lemma StoredRecencyIgnoresOrder(rows: Table, t: Template, conn: string, ds: seq<Data>, es: seq<Data>, n: nat, now: nat, r: RowRef)
    requires AllClean(t, ds) && AllClean(t, es) && StoredClean(t, rows, n)
    requires forall d :: d in CopiesOf(Items(t, conn, ds, n), r) <==> d in CopiesOf(Items(t, conn, es, n), r)
    requires r in RowByRow(rows, t, conn, Items(t, conn, ds, n), now)
    requires r in RowByRow(rows, t, conn, Items(t, conn, es, n), now)
    ensures MemRecency(t, RowByRow(rows, t, conn, Items(t, conn, ds, n), now)[r].data)
         == MemRecency(t, RowByRow(rows, t, conn, Items(t, conn, es, n), now)[r].data)
  {
    NewestCopyIsStored(rows, t, conn, ds, n, now, r);
    NewestCopyIsStored(rows, t, conn, es, n, now, r);
  }
}
