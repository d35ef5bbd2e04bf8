/**
 * The guarded upsert `INSERT ... ON CONFLICT ... DO UPDATE ... WHERE` of `ingest`,
 * one row at a time, and the proof that a deduplicated batch has the same effect.
 */
module Upserts {
  import opened Text
  import opened Rows

  /** Joins the id columns of a row into the key of the in-memory dedup. */
  const KEY_SEPARATOR: char := 1 as char

  datatype Item = Item(ref: RowRef, data: Data)

  // ---------------------------------------------------------------- recency

  function ParseDigits(s: string): Option<nat> {
    if s == "" then Some(0)
    else
      var c := s[|s| - 1];
      match ParseDigits(s[..|s| - 1])
      case Some(n) => if '0' <= c <= '9' then Some(10 * n + (c as int - '0' as int)) else None
      case None => None
  }

  function ParseInteger(s: string): Option<int> {
    if s == "" || s == "-" then None
    else if s[0] == '-' then
      match ParseDigits(s[1..])
      case Some(n) =>
        Some(0 - (n as int))
      case None => None
    else
      match ParseDigits(s)
      case Some(n) => Some(n)
      case None => None
  }

  /** `COALESCE((data ->> f)::numeric, -1)`; None when the cast raises. */
  function SqlRecency(f: string, d: Data): Option<int> {
    if f !in d then Some(-1)
    else match d[f]
         case Null => Some(-1)
         case Number(n) => Some(n)
         case Text(s) => ParseInteger(s)
         case Flag(_) => None
  }

  /** `Number(data[f])`, or -1 when that is not finite. */
  function MemRecency(t: Template, d: Data): int {
    if t.recencyField.None? then 0
    else if t.recencyField.value !in d then -1
    else match d[t.recencyField.value]
         case Null => 0
         case Number(n) => n
         case Text(s) => if s == "" then 0 else ParseInteger(s).GetOr(-1)
         case Flag(b) => if b then 1 else 0
  }

  /** A recency that is absent or an integer, where memory and SQL agree. */
  predicate PlainRecency(t: Template, d: Data) {
    t.recencyField.Some? && t.recencyField.value in d ==>
      match d[t.recencyField.value]
      case Number(_) => true
      case Text(s) => ParseInteger(s).Some?
      case _ => false
  }

  // ------------------------------------------------------------ one upsert

  datatype Verdict = Take | Skip | CastError

  /** The DO UPDATE guard: accepted rows are frozen, older copies lose. */
  function Guard(t: Template, old_: Row, d: Data): Verdict {
    if IsCorrecto(old_.status) then Skip
    else if t.recencyField.None? then Take
    else match (SqlRecency(t.recencyField.value, old_.data), SqlRecency(t.recencyField.value, d))
         case (Some(a), Some(b)) => if a <= b then Take else Skip
         case _ => CastError
  }

  /** The effect on one stored row (None: no such row) of one incoming copy. */
  function UpsertRow(t: Template, conn: string, was: Option<Row>, d: Data, now: nat): Row {
    if was.None? then NewRow(conn, d, now)
    else if Guard(t, was.value, d).Take? then was.value.(data := d)
    else was.value
  }

  predicate TakenBy(t: Template, was: Option<Row>, d: Data) {
    was.None? || Guard(t, was.value, d).Take?
  }

  function Lookup(rows: Table, r: RowRef): Option<Row> {
    if r in rows then Some(rows[r]) else None
  }

  function Upsert(rows: Table, t: Template, conn: string, it: Item, now: nat): Table {
    rows[it.ref := UpsertRow(t, conn, Lookup(rows, it.ref), it.data, now)]
  }

  /**
   * The statement raises: a recency that does not cast, or a plain INSERT of a row
   * whose (partly empty) id tuple the unique index already holds.
   */
  predicate Raises(rows: Table, t: Template, it: Item) {
    it.ref in rows && (HasUsableId(t, it.data) ==> Guard(t, rows[it.ref], it.data).CastError?)
  }

  // ------------------------------------------------------- many upserts

  function UpsertEach(rows: Table, t: Template, conn: string, items: seq<Item>, now: nat): Table {
    if items == [] then rows
    else Upsert(UpsertEach(rows, t, conn, items[..|items| - 1], now), t, conn, items[|items| - 1], now)
  }

  /** The rows RETURNING names: inserted, or updated past the guard, at least once. */
  function Affected(rows: Table, t: Template, conn: string, items: seq<Item>, now: nat): set<RowRef> {
    if items == [] then {}
    else
      var before := items[..|items| - 1];
      var it := items[|items| - 1];
      Affected(rows, t, conn, before, now) +
      (if TakenBy(t, Lookup(UpsertEach(rows, t, conn, before, now), it.ref), it.data) then {it.ref} else {})
  }

  predicate AnyRaises(rows: Table, t: Template, conn: string, items: seq<Item>, now: nat) {
    items != [] &&
    (AnyRaises(rows, t, conn, items[..|items| - 1], now) ||
     Raises(UpsertEach(rows, t, conn, items[..|items| - 1], now), t, items[|items| - 1]))
  }

  // ----------------------------------------- one stored row under many copies

  function CopiesOf(items: seq<Item>, r: RowRef): seq<Data> {
    if items == [] then []
    else CopiesOf(items[..|items| - 1], r) +
         (if items[|items| - 1].ref == r then [items[|items| - 1].data] else [])
  }

  function UpsertCopies(t: Template, conn: string, was: Option<Row>, ds: seq<Data>, now: nat): Option<Row> {
    if ds == [] then was
    else Some(UpsertRow(t, conn, UpsertCopies(t, conn, was, ds[..|ds| - 1], now), ds[|ds| - 1], now))
  }

  predicate AnyTaken(t: Template, conn: string, was: Option<Row>, ds: seq<Data>, now: nat) {
    ds != [] &&
    (AnyTaken(t, conn, was, ds[..|ds| - 1], now) ||
     TakenBy(t, UpsertCopies(t, conn, was, ds[..|ds| - 1], now), ds[|ds| - 1]))
  }

  /** A table upsert acts on each row through the copies of that row only. */
  lemma {:induction false} EachRowByItsCopies(rows: Table, t: Template, conn: string, items: seq<Item>, now: nat, r: RowRef)
    ensures Lookup(UpsertEach(rows, t, conn, items, now), r) == UpsertCopies(t, conn, Lookup(rows, r), CopiesOf(items, r), now)
    ensures r in Affected(rows, t, conn, items, now) <==> AnyTaken(t, conn, Lookup(rows, r), CopiesOf(items, r), now)
  {
    if items != [] {
      var before, it := items[..|items| - 1], items[|items| - 1];
      EachRowByItsCopies(rows, t, conn, before, now, r);
      if it.ref == r {
        var ds := CopiesOf(before, r);
        assert (ds + [it.data])[..|ds|] == ds;
      } else {
        assert CopiesOf(items, r) == CopiesOf(before, r);
      }
    }
  }

  /** The dedup's choice among copies: the last one of greatest recency. */
  function LastGreatest(t: Template, ds: seq<Data>): Data
    requires ds != []
  {
    if |ds| == 1 then ds[0]
    else
      var prev := LastGreatest(t, ds[..|ds| - 1]);
      if MemRecency(t, ds[|ds| - 1]) >= MemRecency(t, prev) then ds[|ds| - 1] else prev
  }

  lemma {:induction false} LastGreatestIsACopy(t: Template, ds: seq<Data>)
    requires ds != []
    ensures LastGreatest(t, ds) in ds
    ensures forall d :: d in ds ==> MemRecency(t, d) <= MemRecency(t, LastGreatest(t, ds))
  {
    if |ds| > 1 {
      LastGreatestIsACopy(t, ds[..|ds| - 1]);
      assert ds == ds[..|ds| - 1] + [ds[|ds| - 1]];
    }
  }

  /** On plain recencies the SQL guard compares what the dedup compares. */
  lemma GuardComparesRecency(t: Template, r: Row, d: Data)
    requires PlainRecency(t, r.data) && PlainRecency(t, d)
    ensures Guard(t, r, d) == if IsCorrecto(r.status) then Skip else if MemRecency(t, r.data) <= MemRecency(t, d) then Take else Skip
  {
  }

  // ------------------------------------------------- where the two orders agree

  /** The guard lets `b` over a stored `a` that is not accepted. */
  predicate Takes(t: Template, a: Data, b: Data) {
    t.recencyField.None? ||
    match (SqlRecency(t.recencyField.value, a), SqlRecency(t.recencyField.value, b))
    case (Some(x), Some(y)) => x <= y
    case _ => false
  }

  lemma GuardTakes(t: Template, r: Row, d: Data)
    ensures Guard(t, r, d).Take? <==> !IsCorrecto(r.status) && Takes(t, r.data, d)
  {
  }

  /** Memory and SQL judge `b` after `a` alike. */
  predicate Concord(t: Template, a: Data, b: Data) {
    MemRecency(t, a) <= MemRecency(t, b) <==> Takes(t, a, b)
  }

  /** A copy of the row: the stored one or one that came in. */
  predicate Among(was: Option<Row>, ds: seq<Data>, a: Data) {
    a in ds || (was.Some? && was.value.data == a)
  }

  ghost predicate AllConcord(t: Template, was: Option<Row>, ds: seq<Data>) {
    forall a, b :: Among(was, ds, a) && Among(was, ds, b) ==> Concord(t, a, b)
  }

  lemma ConcordShrinks(t: Template, was: Option<Row>, ds: seq<Data>)
    requires ds != [] && AllConcord(t, was, ds)
    ensures AllConcord(t, was, ds[..|ds| - 1])
    ensures forall a :: Among(was, ds[..|ds| - 1], a) ==> Among(was, ds, a)
  {
  }

  lemma OneCopy(t: Template, conn: string, was: Option<Row>, d: Data, now: nat)
    ensures UpsertCopies(t, conn, was, [d], now) == Some(UpsertRow(t, conn, was, d, now))
    ensures AnyTaken(t, conn, was, [d], now) <==> TakenBy(t, was, d)
  {
    assert [d][..0] == [];
  }

  /** One more copy after the dedup's choice among those before it. */
  lemma ConcordantStep(t: Template, conn: string, was: Option<Row>, v: Data, d: Data, now: nat)
    requires AllConcord(t, was, [v, d])
    ensures var w := if MemRecency(t, d) >= MemRecency(t, v) then d else v;
            var mid := Some(UpsertRow(t, conn, was, v, now));
            && UpsertRow(t, conn, mid, d, now) == UpsertRow(t, conn, was, w, now)
            && (TakenBy(t, was, v) || TakenBy(t, mid, d) <==> TakenBy(t, was, w))
  {
    var mid := UpsertRow(t, conn, was, v, now);
    var w := if MemRecency(t, d) >= MemRecency(t, v) then d else v;
    assert Among(was, [v, d], v) && Among(was, [v, d], d) && Among(was, [v, d], mid.data);
    assert Concord(t, v, d) && Concord(t, mid.data, d);
    GuardTakes(t, mid, d);
    if was.Some? {
      assert Among(was, [v, d], was.value.data);
      assert Concord(t, was.value.data, v) && Concord(t, was.value.data, d);
      GuardTakes(t, was.value, v);
      GuardTakes(t, was.value, d);
    }
  }

  /** Where the orders agree, upserting every copy in turn is upserting the dedup's choice alone. */
  lemma {:induction false} ConcordantCopiesCollapse(t: Template, conn: string, was: Option<Row>, ds: seq<Data>, now: nat)
    requires ds != [] && AllConcord(t, was, ds)
    ensures UpsertCopies(t, conn, was, ds, now) == UpsertCopies(t, conn, was, [LastGreatest(t, ds)], now)
    ensures AnyTaken(t, conn, was, ds, now) == AnyTaken(t, conn, was, [LastGreatest(t, ds)], now)
  {
    OneCopy(t, conn, was, LastGreatest(t, ds), now);
    if |ds| == 1 {
      assert ds == [ds[0]];
    } else {
      var before, d := ds[..|ds| - 1], ds[|ds| - 1];
      var v := LastGreatest(t, before);
      ConcordShrinks(t, was, ds);
      ConcordantCopiesCollapse(t, conn, was, before, now);
      LastGreatestIsACopy(t, before);
      OneCopy(t, conn, was, v, now);
      assert forall a :: Among(was, [v, d], a) ==> Among(was, ds, a);
      ConcordantStep(t, conn, was, v, d, now);
    }
  }

  /** Recencies that are absent or integers compare alike. */
  lemma PlainIsConcord(t: Template, was: Option<Row>, ds: seq<Data>)
    requires was.Some? ==> PlainRecency(t, was.value.data)
    requires forall d :: d in ds ==> PlainRecency(t, d)
    ensures AllConcord(t, was, ds)
  {
  }

  /** On plain recencies, upserting every copy in turn is upserting the dedup's choice alone. */
  lemma CopiesCollapse(t: Template, conn: string, was: Option<Row>, ds: seq<Data>, now: nat)
    requires ds != []
    requires was.Some? ==> PlainRecency(t, was.value.data)
    requires forall d :: d in ds ==> PlainRecency(t, d)
    ensures UpsertCopies(t, conn, was, ds, now) == UpsertCopies(t, conn, was, [LastGreatest(t, ds)], now)
    ensures AnyTaken(t, conn, was, ds, now) == AnyTaken(t, conn, was, [LastGreatest(t, ds)], now)
  {
    PlainIsConcord(t, was, ds);
    ConcordantCopiesCollapse(t, conn, was, ds, now);
  }
}
