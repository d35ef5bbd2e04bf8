/**
 * The outbox spool and its drain: every five seconds the fifty oldest pending
 * events are published, counted as failed, or moved to the dead letters.
 */
module OutboxDrain {
  import opened Rows

  const MAX_ATTEMPTS: nat := 5
  const WINDOW: nat := 50

  /** A row of `domain_event_outbox`; its id is its place in spool order. */
  datatype Record = Record(event: Event, attempts: nat, drained: bool, dead: bool)

  predicate Pending(r: Record) {
    !r.drained && !r.dead
  }

  /**
   * What happens to one item of a drain: publishing or the update after it may
   * raise, and so may counting that failure, which ends the whole drain.
   */
  datatype Fate = Delivered | PublishFailed | MarkFailed | Aborted(published: bool, counted: bool)

  type Fates = nat -> Fate

  // --------------------------------------------------- what a drain should do

  function PendingBefore(s: seq<Record>, i: nat): (n: nat)
    requires i <= |s|
    ensures n <= i
  {
    if i == 0 then 0 else PendingBefore(s, i - 1) + if Pending(s[i - 1]) then 1 else 0
  }

  /** Among the oldest pending events that one drain looks at. */
  predicate InWindow(s: seq<Record>, i: nat) {
    i < |s| && Pending(s[i]) && PendingBefore(s, i) < WINDOW
  }

  /** In the window, and no earlier item ended the drain. */
  ghost predicate Reached(s: seq<Record>, f: Fates, i: nat) {
    InWindow(s, i) && forall j: nat :: j < i && InWindow(s, j) ==> !f(j).Aborted?
  }

  function Treat(r: Record, f: Fate): Record {
    if r.attempts >= MAX_ATTEMPTS then
      if f.Aborted? then r else r.(drained := true, dead := true)
    else
      match f
      case Delivered => r.(drained := true)
      case PublishFailed => r.(attempts := r.attempts + 1)
      case MarkFailed => r.(attempts := r.attempts + 1)
      case Aborted(_, counted) => if counted then r.(attempts := r.attempts + 1) else r
  }

  /** The item's envelope was added to the hub's queue. */
  predicate Publishes(r: Record, f: Fate) {
    r.attempts < MAX_ATTEMPTS && (f.Delivered? || f.MarkFailed? || (f.Aborted? && f.published))
  }

  predicate Counts(r: Record, f: Fate) {
    r.attempts < MAX_ATTEMPTS && (f.PublishFailed? || f.MarkFailed? || (f.Aborted? && f.counted))
  }

  /** Spooled events, how often each was published, and how many failures were recorded for each. */
  datatype Spool = Spool(records: seq<Record>, hub: multiset<nat>, failed: multiset<nat>)

  /** `b` is `a` after the drain has dealt with the window's items before place `n`. */
  ghost predicate DrainedUpTo(a: Spool, f: Fates, n: nat, b: Spool) {
    && |b.records| == |a.records|
    && (forall i: nat :: i < |a.records| ==>
          b.records[i] == if i < n && Reached(a.records, f, i) then Treat(a.records[i], f(i)) else a.records[i])
    && (forall i: nat :: b.hub[i] == a.hub[i]
          + if i < n && Reached(a.records, f, i) && Publishes(a.records[i], f(i)) then 1 else 0)
    && (forall i: nat :: b.failed[i] == a.failed[i]
          + if i < n && Reached(a.records, f, i) && Counts(a.records[i], f(i)) then 1 else 0)
  }

  ghost predicate DrainedTo(a: Spool, f: Fates, b: Spool) {
    DrainedUpTo(a, f, |a.records|, b)
  }

  /** No store update of this drain raised where the loop cannot go on. */
  ghost predicate RunsToTheEnd(s: seq<Record>, f: Fates) {
    forall i: nat :: InWindow(s, i) ==> !f(i).Aborted?
  }

  // ---------------------------------------------------------------- the loop

  lemma NothingBetween(a: Spool, f: Fates, n: nat, m: nat, b: Spool)
    requires n <= m && DrainedUpTo(a, f, n, b)
    requires forall i: nat :: n <= i < m ==> !InWindow(a.records, i)
    ensures DrainedUpTo(a, f, m, b)
  {
  }

  /** The item at place `n` is dealt with. */
  lemma OneMore(a: Spool, f: Fates, n: nat, b: Spool, c: Spool)
    requires DrainedUpTo(a, f, n, b) && Reached(a.records, f, n)
    requires c.records == b.records[n := Treat(a.records[n], f(n))]
    requires c.hub == b.hub + if Publishes(a.records[n], f(n)) then multiset{n} else multiset{}
    requires c.failed == b.failed + if Counts(a.records[n], f(n)) then multiset{n} else multiset{}
    ensures DrainedUpTo(a, f, n + 1, c)
  {
  }

  /** The places of the window, oldest first. */
  ghost predicate IsWindow(ids: seq<nat>, s: seq<Record>) {
    && (forall k, l :: 0 <= k < l < |ids| ==> ids[k] < ids[l])
    && (forall i: nat :: i in ids <==> InWindow(s, i))
  }

  /** The loop has dealt with the first `k` items, none of which ended the drain. */
  ghost predicate ItemsDone(a: Spool, f: Fates, ids: seq<nat>, k: nat, b: Spool) {
    && k <= |ids|
    && DrainedUpTo(a, f, if k < |ids| then ids[k] else |a.records|, b)
    && (forall l :: 0 <= l < k ==> !f(ids[l]).Aborted?)
  }

  lemma NoneDoneYet(a: Spool, f: Fates, ids: seq<nat>)
    requires IsWindow(ids, a.records)
    ensures ItemsDone(a, f, ids, 0, a)
  {
    var n: nat := if ids != [] then ids[0] else |a.records|;
    assert DrainedUpTo(a, f, 0, a);
    assert forall i: nat :: i < n ==> i !in ids;
    NothingBetween(a, f, 0, n, a);
  }

  lemma NextIsReached(a: Spool, f: Fates, ids: seq<nat>, k: nat)
    requires IsWindow(ids, a.records) && k < |ids| && forall l :: 0 <= l < k ==> !f(ids[l]).Aborted?
    ensures Reached(a.records, f, ids[k])
  {
    assert ids[k] in ids;
    forall j: nat | j < ids[k] && InWindow(a.records, j)
      ensures !f(j).Aborted?
    {
      assert j in ids;
      var l :| 0 <= l < |ids| && ids[l] == j;
      assert l < k;
    }
  }

  lemma NoPlaceBetween(ids: seq<nat>, k: nat, i: nat)
    requires forall l, m :: 0 <= l < m < |ids| ==> ids[l] < ids[m]
    requires k < |ids| && ids[k] < i && (k + 1 < |ids| ==> i < ids[k + 1])
    ensures i !in ids
  {
    forall l | 0 <= l < |ids|
      ensures ids[l] != i
    {
      assert l <= k || l == k + 1 || ids[k + 1] < ids[l];
    }
  }

  /** From one item's place to the next, or to the end. */
  lemma ToTheNext(a: Spool, f: Fates, ids: seq<nat>, k: nat, b: Spool)
    requires IsWindow(ids, a.records) && k < |ids| && DrainedUpTo(a, f, ids[k] + 1, b)
    ensures DrainedUpTo(a, f, if k + 1 < |ids| then ids[k + 1] else |a.records|, b)
  {
    var m := if k + 1 < |ids| then ids[k + 1] else |a.records|;
    assert ids[k] in ids;
    forall i: nat | ids[k] + 1 <= i < m
      ensures !InWindow(a.records, i)
    {
      NoPlaceBetween(ids, k, i);
    }
    NothingBetween(a, f, ids[k] + 1, m, b);
  }

  /** Nothing after the item that ended the drain is reached. */
  lemma EndedHere(a: Spool, f: Fates, n: nat, b: Spool)
    requires Reached(a.records, f, n) && f(n).Aborted? && DrainedUpTo(a, f, n + 1, b)
    ensures DrainedTo(a, f, b) && !RunsToTheEnd(a.records, f)
  {
    assert forall i: nat :: i > n ==> !Reached(a.records, f, i);
  }

  lemma AllDone(a: Spool, f: Fates, ids: seq<nat>, b: Spool)
    requires IsWindow(ids, a.records) && ItemsDone(a, f, ids, |ids|, b)
    ensures DrainedTo(a, f, b) && RunsToTheEnd(a.records, f)
  {
  }

  class Outbox {
    var records: seq<Record>
    var hub: multiset<nat>
    var failed: multiset<nat>

    constructor ()
      ensures View() == Spool([], multiset{}, multiset{})
    {
      records, hub, failed := [], multiset{}, multiset{};
    }

    function View(): Spool
      reads this
    {
      Spool(records, hub, failed)
    }

    /** Written in the transaction of the domain change. */
    method Save(event: Event)
      modifies this
      ensures View() == old(View()).(records := old(records) + [Record(event, 0, false, false)])
    {
      records := records + [Record(event, 0, false, false)];
    }

    /** The places of the first `limit` pending events, oldest first. */
    method GetPending(limit: nat) returns (ids: seq<nat>)
      ensures forall k, l :: 0 <= k < l < |ids| ==> ids[k] < ids[l]
      ensures forall i: nat :: i in ids <==> i < |records| && Pending(records[i]) && PendingBefore(records, i) < limit
    {
      ids := [];
      var i := 0;
      while i < |records|
        invariant i <= |records| && |ids| == if PendingBefore(records, i) < limit then PendingBefore(records, i) else limit
        invariant forall k :: 0 <= k < |ids| ==> ids[k] < i
        invariant forall k, l :: 0 <= k < l < |ids| ==> ids[k] < ids[l]
        invariant forall j: nat :: j in ids <==> j < i && Pending(records[j]) && PendingBefore(records, j) < limit
      {
        if Pending(records[i]) && |ids| < limit {
          ids := ids + [i];
        }
        i := i + 1;
      }
    }

    method MarkDrained(id: nat)
      requires id < |records|
      modifies `records
      ensures records == old(records)[id := old(records)[id].(drained := true)]
    {
      records := records[id := records[id].(drained := true)];
    }

    method RecordAttempt(id: nat)
      requires id < |records|
      modifies `records, `failed
      ensures records == old(records)[id := old(records)[id].(attempts := old(records)[id].attempts + 1)]
      ensures failed == old(failed) + multiset{id}
    {
      records := records[id := records[id].(attempts := records[id].attempts + 1)];
      failed := failed + multiset{id};
    }

    method MarkDeadLetter(id: nat)
      requires id < |records|
      modifies `records
      ensures records == old(records)[id := old(records)[id].(drained := true, dead := true)]
    {
      records := records[id := records[id].(drained := true, dead := true)];
    }

    /** One item of the loop; false when it raises. */
    method DrainItem(id: nat, fate: Fate) returns (ok: bool)
      requires id < |records|
      modifies this
      ensures ok == !fate.Aborted?
      ensures records == old(records)[id := Treat(old(records)[id], fate)]
      ensures hub == old(hub) + if Publishes(old(records)[id], fate) then multiset{id} else multiset{}
      ensures failed == old(failed) + if Counts(old(records)[id], fate) then multiset{id} else multiset{}
    {
      ok := !fate.Aborted?;
      if records[id].attempts >= MAX_ATTEMPTS {
        if ok {
          MarkDeadLetter(id);
        }
        return;
      }
      match fate {
        case Delivered =>
          hub := hub + multiset{id};
          MarkDrained(id);
        case PublishFailed =>
          RecordAttempt(id);
        case MarkFailed =>
          hub := hub + multiset{id};
          RecordAttempt(id);
        case Aborted(published, counted) =>
          if published {
            hub := hub + multiset{id};
          }
          if counted {
            RecordAttempt(id);
          }
      }
    }

    /** One pass of the cron; false when a store update ended it. */
    method Drain(fates: Fates) returns (ok: bool)
      modifies this
      ensures DrainedTo(old(View()), fates, View())
      ensures ok <==> RunsToTheEnd(old(records), fates)
    {
      ghost var a := View();
      var pending := GetPending(WINDOW);
      NoneDoneYet(a, fates, pending);
      for k := 0 to |pending|
        invariant ItemsDone(a, fates, pending, k, View())
      {
        var id := pending[k];
        NextIsReached(a, fates, pending, k);
        ghost var b := View();
        ok := DrainItem(id, fates(id));
        OneMore(a, fates, id, b, View());
        if !ok {
          EndedHere(a, fates, id, View());
          return;
        }
        ToTheNext(a, fates, pending, k, View());
      }
      AllDone(a, fates, pending, View());
      ok := true;
    }
  }

  // --------------------------------------------------------- safety over runs

  /** Events spooled since the last drain, and what happened in this one. */
  datatype Round = Round(arrivals: seq<Event>, fates: Fates)

  function Fresh(events: seq<Event>): (s: seq<Record>)
    ensures |s| == |events|
    ensures forall i :: 0 <= i < |s| ==> s[i] == Record(events[i], 0, false, false)
  {
    seq(|events|, i requires 0 <= i < |events| => Record(events[i], 0, false, false))
  }

  function Arrive(a: Spool, events: seq<Event>): Spool {
    a.(records := a.records + Fresh(events))
  }

  const EMPTY := Spool([], multiset{}, multiset{})

  /** Drains do not overlap; events arrive between them, in spool order. */
  ghost predicate IsRun(trace: seq<Spool>, rounds: seq<Round>) {
    && |trace| == |rounds| + 1
    && forall k :: 0 <= k < |rounds| ==> DrainedTo(Arrive(trace[k], rounds[k].arrivals), rounds[k].fates, trace[k + 1])
  }

  predicate RecordSound(r: Record, published: nat, failures: nat) {
    && r.attempts == failures <= 5
    && (r.drained && !r.dead ==> published >= 1)
    && (r.dead ==> r.drained && failures == 5)
  }

  ghost predicate Sound(a: Spool) {
    forall i: nat :: if i < |a.records| then RecordSound(a.records[i], a.hub[i], a.failed[i])
                     else a.hub[i] == 0 && a.failed[i] == 0
  }

  lemma DrainKeepsSound(a: Spool, f: Fates, b: Spool)
    requires Sound(a) && DrainedTo(a, f, b)
    ensures Sound(b)
  {
    forall i: nat | i < |a.records|
      ensures RecordSound(b.records[i], b.hub[i], b.failed[i])
    {
      assert RecordSound(a.records[i], a.hub[i], a.failed[i]);
    }
  }

  lemma ArriveKeepsSound(a: Spool, events: seq<Event>)
    requires Sound(a)
    ensures Sound(Arrive(a, events))
  {
    var b := Arrive(a, events);
    forall i: nat | i < |b.records|
      ensures RecordSound(b.records[i], b.hub[i], b.failed[i])
    {
      if i < |a.records| {
        assert RecordSound(a.records[i], a.hub[i], a.failed[i]);
      }
    }
  }

  lemma RoundKeepsSound(a: Spool, r: Round, b: Spool)
    requires Sound(a) && DrainedTo(Arrive(a, r.arrivals), r.fates, b)
    ensures Sound(b)
  {
    ArriveKeepsSound(a, r.arrivals);
    DrainKeepsSound(Arrive(a, r.arrivals), r.fates, b);
  }

  lemma SoundStep(trace: seq<Spool>, rounds: seq<Round>, j: nat)
    requires IsRun(trace, rounds) && j < |rounds| && Sound(trace[j])
    ensures Sound(trace[j + 1])
  {
    RoundKeepsSound(trace[j], rounds[j], trace[j + 1]);
  }

  /**
   * Main result: whatever raises in whatever drain, an event never has more than
   * five attempts, one drained without a dead letter was published, and one in the
   * dead letters has exactly five recorded failures.
   */
  lemma {:induction false} NoEventIsLost(trace: seq<Spool>, rounds: seq<Round>)
    requires IsRun(trace, rounds) && trace[0] == EMPTY
    ensures Sound(trace[|rounds|])
    decreases |rounds|
  {
    if rounds != [] {
      var k := |rounds| - 1;
      NoEventIsLost(trace[..|trace| - 1], rounds[..k]);
      SoundStep(trace, rounds, k);
    }
  }

  ghost predicate NeverAborts(f: Fates) {
    forall i: nat :: !f(i).Aborted?
  }

  /** No more publications than failures, plus the one that was acknowledged. */
  predicate RecordBound(r: Record, published: nat) {
    && published <= r.attempts + (if r.drained && !r.dead then 1 else 0)
    && (if r.drained && !r.dead then r.attempts < MAX_ATTEMPTS else r.attempts <= MAX_ATTEMPTS)
  }

  ghost predicate PublishedBound(a: Spool) {
    forall i: nat :: if i < |a.records| then RecordBound(a.records[i], a.hub[i]) else a.hub[i] == 0
  }

  lemma DrainKeepsPublishedBound(a: Spool, f: Fates, b: Spool)
    requires PublishedBound(a) && NeverAborts(f) && DrainedTo(a, f, b)
    ensures PublishedBound(b)
  {
    forall i: nat | i < |a.records|
      ensures RecordBound(b.records[i], b.hub[i])
    {
      assert RecordBound(a.records[i], a.hub[i]);
    }
  }

  /** When only publishing and marking can raise, the hub receives an event at most five times. */
  lemma {:induction false} AtMostFivePublications(trace: seq<Spool>, rounds: seq<Round>)
    requires IsRun(trace, rounds) && trace[0] == EMPTY
    requires forall k :: 0 <= k < |rounds| ==> NeverAborts(rounds[k].fates)
    ensures PublishedBound(trace[|rounds|])
    ensures forall i: nat :: trace[|rounds|].hub[i] <= 5
    decreases |rounds|
  {
    if rounds != [] {
      var k := |rounds| - 1;
      AtMostFivePublications(trace[..|trace| - 1], rounds[..k]);
      DrainKeepsPublishedBound(Arrive(trace[k], rounds[k].arrivals), rounds[k].fates, trace[k + 1]);
    }
    forall i: nat
      ensures trace[|rounds|].hub[i] <= MAX_ATTEMPTS
    {
      assert i < |trace[|rounds|].records| ==> RecordBound(trace[|rounds|].records[i], trace[|rounds|].hub[i]);
    }
  }

  // ------------------------------------------------------------------ progress

  /** Drains left before every pending event among the first `n` is gone, taken one by one. */
  function Work(s: seq<Record>, n: nat): (w: nat)
    requires n <= |s| && forall i :: 0 <= i < |s| ==> s[i].attempts <= MAX_ATTEMPTS
  {
    if n == 0 then 0
    else Work(s, n - 1) + if Pending(s[n - 1]) then MAX_ATTEMPTS + 1 - s[n - 1].attempts else 0
  }

  predicate Tried(s: seq<Record>) {
    forall i :: 0 <= i < |s| ==> s[i].attempts <= MAX_ATTEMPTS
  }

  lemma WorkStep(a: Spool, f: Fates, b: Spool, i: nat)
    requires i < |a.records| && DrainedTo(a, f, b) && NeverAborts(f)
    ensures b.records[i] == a.records[i] || b.records[i] == Treat(a.records[i], f(i))
    ensures Pending(a.records[i]) && PendingBefore(a.records, i) == 0 ==> b.records[i] == Treat(a.records[i], f(i))
  {
    assert Pending(a.records[i]) && PendingBefore(a.records, i) == 0 ==> Reached(a.records, f, i);
  }

  lemma {:induction false} WorkShrinks(a: Spool, f: Fates, b: Spool, n: nat)
    requires n <= |a.records| && DrainedTo(a, f, b) && Tried(a.records) && Tried(b.records) && NeverAborts(f)
    ensures Work(b.records, n) <= Work(a.records, n)
    ensures PendingBefore(a.records, n) > 0 ==> Work(b.records, n) < Work(a.records, n)
  {
    if n > 0 {
      WorkShrinks(a, f, b, n - 1);
      WorkStep(a, f, b, n - 1);
    }
  }

  /** A drain in which no store update raises, and that finds work, strictly lessens it. */
  lemma EveryDrainCounts(a: Spool, f: Fates, b: Spool)
    requires Sound(a) && DrainedTo(a, f, b) && NeverAborts(f)
    requires exists i: nat :: i < |a.records| && Pending(a.records[i])
    ensures Tried(a.records) && Tried(b.records)
    ensures Work(b.records, |b.records|) < Work(a.records, |a.records|)
  {
    DrainKeepsSound(a, f, b);
    SoundIsTried(a);
    SoundIsTried(b);
    var i: nat :| i < |a.records| && Pending(a.records[i]);
    PendingGrows(a.records, i + 1, |a.records|);
    WorkShrinks(a, f, b, |a.records|);
  }

  lemma SoundIsTried(a: Spool)
    requires Sound(a)
    ensures Tried(a.records)
  {
    forall i: nat | i < |a.records|
      ensures a.records[i].attempts <= MAX_ATTEMPTS
    {
      assert RecordSound(a.records[i], a.hub[i], a.failed[i]);
    }
  }

  lemma {:induction false} PendingGrows(s: seq<Record>, m: nat, n: nat)
    requires m <= n <= |s|
    ensures PendingBefore(s, m) <= PendingBefore(s, n)
  {
    if m < n {
      PendingGrows(s, m, n - 1);
    }
  }

  /** Later on, fewer of the same events are pending. */
  lemma {:induction false} PendingShrinks(s: seq<Record>, t: seq<Record>, n: nat)
    requires n <= |s| <= |t| && forall i :: 0 <= i < n && Pending(t[i]) ==> Pending(s[i])
    ensures PendingBefore(t, n) <= PendingBefore(s, n)
  {
    if n > 0 {
      PendingShrinks(s, t, n - 1);
    }
  }

  lemma {:induction false} ArrivalsAfter(s: seq<Record>, more: seq<Record>, n: nat)
    requires n <= |s|
    ensures PendingBefore(s + more, n) == PendingBefore(s, n)
  {
    if n > 0 {
      ArrivalsAfter(s, more, n - 1);
    }
  }

  /** One round, seen from an event that was spooled before it. */
  lemma RoundFor(a: Spool, r: Round, b: Spool, i: nat)
    requires i < |a.records| && DrainedTo(Arrive(a, r.arrivals), r.fates, b) && NeverAborts(r.fates)
    ensures |a.records| <= |b.records|
    ensures Pending(b.records[i]) ==> Pending(a.records[i])
    ensures PendingBefore(a.records, i) < WINDOW && Pending(b.records[i]) ==> b.records[i].attempts == a.records[i].attempts + 1
  {
    var s := Arrive(a, r.arrivals).records;
    ArrivalsAfter(a.records, Fresh(r.arrivals), i);
    assert s[i] == a.records[i];
    if Pending(a.records[i]) && PendingBefore(a.records, i) < WINDOW {
      assert Reached(s, r.fates, i);
    }
  }

  /** No store update raises in any of these drains. */
  ghost predicate SmoothRun(trace: seq<Spool>, rounds: seq<Round>) {
    IsRun(trace, rounds) && forall k :: 0 <= k < |rounds| ==> NeverAborts(rounds[k].fates)
  }

  lemma RoundAt(trace: seq<Spool>, rounds: seq<Round>, i: nat, j: nat)
    requires SmoothRun(trace, rounds) && j < |rounds| && i < |trace[j].records|
    ensures |trace[j].records| <= |trace[j + 1].records|
    ensures Pending(trace[j + 1].records[i]) ==> Pending(trace[j].records[i])
    ensures PendingBefore(trace[j].records, i) < WINDOW && Pending(trace[j + 1].records[i])
            ==> trace[j + 1].records[i].attempts == trace[j].records[i].attempts + 1
  {
    RoundFor(trace[j], rounds[j], trace[j + 1], i);
  }

  lemma {:induction false} OncePendingOnly(trace: seq<Spool>, rounds: seq<Round>, i: nat, j: nat)
    requires SmoothRun(trace, rounds) && i < |trace[0].records| && j <= |rounds|
    ensures |trace[0].records| <= |trace[j].records|
    ensures Pending(trace[j].records[i]) ==> Pending(trace[0].records[i])
  {
    if j > 0 {
      OncePendingOnly(trace, rounds, i, j - 1);
      RoundAt(trace, rounds, i, j - 1);
    }
  }

  lemma StillInWindow(trace: seq<Spool>, rounds: seq<Round>, i: nat, j: nat)
    requires SmoothRun(trace, rounds) && i < |trace[0].records| && j <= |rounds|
    ensures |trace[0].records| <= |trace[j].records|
    ensures PendingBefore(trace[j].records, i) <= PendingBefore(trace[0].records, i)
  {
    forall h: nat | h <= i
      ensures |trace[0].records| <= |trace[j].records|
      ensures Pending(trace[j].records[h]) ==> Pending(trace[0].records[h])
    {
      OncePendingOnly(trace, rounds, h, j);
    }
    OncePendingOnly(trace, rounds, i, j);
    PendingShrinks(trace[0].records, trace[j].records, i);
  }

  /** An event of the window has been tried once by every drain it was pending after. */
  lemma {:induction false} TriedEveryTime(trace: seq<Spool>, rounds: seq<Round>, i: nat, j: nat)
    requires SmoothRun(trace, rounds) && InWindow(trace[0].records, i) && j <= |rounds|
    ensures |trace[0].records| <= |trace[j].records|
    ensures Pending(trace[j].records[i]) ==> trace[j].records[i].attempts >= j
  {
    if j > 0 {
      TriedEveryTime(trace, rounds, i, j - 1);
      StillInWindow(trace, rounds, i, j - 1);
      RoundAt(trace, rounds, i, j - 1);
    }
  }

  lemma {:induction false} SoundThroughout(trace: seq<Spool>, rounds: seq<Round>, j: nat)
    requires IsRun(trace, rounds) && Sound(trace[0]) && j <= |rounds|
    ensures Sound(trace[j])
  {
    if j > 0 {
      SoundThroughout(trace, rounds, j - 1);
      SoundStep(trace, rounds, j - 1);
    }
  }

  lemma WindowIsEmptied(trace: seq<Spool>, rounds: seq<Round>, i: nat)
    requires SmoothRun(trace, rounds) && Sound(trace[0]) && |rounds| >= MAX_ATTEMPTS + 1
    requires InWindow(trace[0].records, i)
    ensures |trace[0].records| <= |trace[6].records| && !Pending(trace[6].records[i])
  {
    TriedEveryTime(trace, rounds, i, 6);
    SoundThroughout(trace, rounds, 6);
    SoundIsTried(trace[6]);
  }

  lemma {:induction false} WindowLeaves(s: seq<Record>, t: seq<Record>, n: nat)
    requires n <= |s| <= |t|
    requires forall i: nat :: i < n && Pending(t[i]) ==> Pending(s[i]) && PendingBefore(s, i) >= WINDOW
    ensures PendingBefore(t, n) == 0 || PendingBefore(t, n) + WINDOW <= PendingBefore(s, n)
  {
    if n > 0 {
      WindowLeaves(s, t, n - 1);
      PendingGrows(s, n - 1, n);
    }
  }

  lemma SixRounds(trace: seq<Spool>, rounds: seq<Round>, n: nat)
    requires SmoothRun(trace, rounds) && Sound(trace[0]) && |rounds| >= 6 && 0 < n <= |trace[0].records|
    ensures n <= |trace[6].records| && Sound(trace[6])
    ensures PendingBefore(trace[6].records, n) == 0
            || PendingBefore(trace[6].records, n) + WINDOW <= PendingBefore(trace[0].records, n)
  {
    SoundThroughout(trace, rounds, 6);
    OncePendingOnly(trace, rounds, 0, 6);
    var s, t := trace[0].records, trace[6].records;
    forall i: nat | i < n && Pending(t[i])
      ensures Pending(s[i]) && PendingBefore(s, i) >= WINDOW
    {
      OncePendingOnly(trace, rounds, i, 6);
      if PendingBefore(s, i) < WINDOW {
        WindowIsEmptied(trace, rounds, i);
      }
    }
    WindowLeaves(s, t, n);
  }

  lemma DropRounds(trace: seq<Spool>, rounds: seq<Round>, m: nat)
    requires SmoothRun(trace, rounds) && m <= |rounds|
    ensures SmoothRun(trace[m..], rounds[m..])
  {
    forall k | 0 <= k < |rounds| - m
      ensures DrainedTo(Arrive(trace[m..][k], rounds[m..][k].arrivals), rounds[m..][k].fates, trace[m..][k + 1])
      ensures NeverAborts(rounds[m..][k].fates)
    {
      assert DrainedTo(Arrive(trace[m + k], rounds[m + k].arrivals), rounds[m + k].fates, trace[m + k + 1]);
    }
  }

  /**
   * Main result: with at most `50 * k` pending events up to and including it, an
   * event is published or in the dead letters after `6 * k` drains, however many
   * events arrive behind it and whatever publishing does.
   */
  lemma {:induction false} EveryEventLeaves(trace: seq<Spool>, rounds: seq<Round>, i: nat, k: nat)
    requires SmoothRun(trace, rounds) && Sound(trace[0]) && i < |trace[0].records|
    requires PendingBefore(trace[0].records, i + 1) <= 50 * k && |rounds| >= 6 * k
    ensures i < |trace[6 * k].records| && !Pending(trace[6 * k].records[i])
    decreases k
  {
    if k > 0 {
      SixRounds(trace, rounds, i + 1);
      DropRounds(trace, rounds, 6);
      EveryEventLeaves(trace[6..], rounds[6..], i, k - 1);
    }
  }
}
