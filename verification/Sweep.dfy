/**
 * The scheduled sweep: which queued rows one pass takes. Groups are taken whole,
 * oldest first, up to a cap that only the first group may exceed.
 */
module Sweep {
  import opened Rows
  import opened Sets
  import opened Statements
  import opened Text

  /** A row of the `candidate` table: `coalesce(group_id, id::text)` and its age. */
  datatype Candidate = Candidate(grp: string, created: nat)

  type Candidates = map<RowRef, Candidate>

  /** Queued or re-edited rows, of one connection when one is given; `id` renders a row's id. */
  function CandidatesOf(rows: Table, id: RowRef -> string, conn: string): Candidates {
    map r | r in rows && Sweepable(rows[r].status) && (conn == "" || rows[r].conn == conn)
      :: Candidate(rows[r].groupId.GetOr(id(r)), rows[r].created)
  }

  function Members(c: Candidates, g: string): set<RowRef> {
    set r | r in c && c[r].grp == g
  }

  function Groups(c: Candidates): set<string> {
    set r | r in c :: c[r].grp
  }

  // ----------------------------------------------------------- order of groups

  ghost predicate IsOldest(c: Candidates, g: string, r: RowRef) {
    r in Members(c, g) && forall x :: x in Members(c, g) ==> c[r].created <= c[x].created
  }

  lemma {:induction false} OldestExists(c: Candidates, g: string, s: set<RowRef>) returns (r: RowRef)
    requires s != {} && s <= Members(c, g)
    ensures r in s && forall x :: x in s ==> c[r].created <= c[x].created
  {
    r :| r in s;
    if s != {r} {
      var q := OldestExists(c, g, s - {r});
      if c[q].created < c[r].created {
        r := q;
      }
    }
  }

  lemma HasOldest(c: Candidates, g: string)
    requires g in Groups(c)
    ensures exists r :: IsOldest(c, g, r)
  {
    var x :| x in c && c[x].grp == g;
    assert x in Members(c, g);
    var r := OldestExists(c, g, Members(c, g));
    assert IsOldest(c, g, r);
  }

  /** `min(created_at)` of a group. */
  ghost function GrpMin(c: Candidates, g: string): nat
    requires g in Groups(c)
  {
    HasOldest(c, g);
    var r :| IsOldest(c, g, r);
    c[r].created
  }

  /** `ORDER BY grp_min, grp`, strictly. */
  ghost predicate Before(c: Candidates, g: string, h: string)
    requires g in Groups(c) && h in Groups(c)
  {
    GrpMin(c, g) < GrpMin(c, h) || (GrpMin(c, g) == GrpMin(c, h) && Less(g, h))
  }

  /** The candidates of a group and of those before it. */
  ghost function UpTo(c: Candidates, g: string): set<RowRef>
    requires g in Groups(c)
  {
    set r | r in c && !Before(c, g, c[r].grp)
  }

  /** `row_number() = 1`. */
  ghost predicate IsFirst(c: Candidates, g: string)
    requires g in Groups(c)
  {
    forall h :: h in Groups(c) ==> !Before(c, h, g)
  }

  /** `cum <= limit OR rn = 1`, `cum` being the running total of the group sizes. */
  ghost predicate IsChosen(c: Candidates, limit: int, g: string)
    requires g in Groups(c)
  {
    |UpTo(c, g)| <= limit || IsFirst(c, g)
  }

  /** The rows one pass takes. */
  ghost function Chosen(c: Candidates, limit: int): set<RowRef> {
    set r | r in c && IsChosen(c, limit, c[r].grp)
  }

  // --------------------------------------------------- the same, one by one

  lemma BeforeIsTotal(c: Candidates, g: string, h: string)
    requires g in Groups(c) && h in Groups(c)
    ensures Before(c, g, h) || g == h || Before(c, h, g)
    ensures !(Before(c, g, h) && Before(c, h, g)) && (Before(c, g, h) ==> g != h)
  {
    LessIsTotal(g, h);
  }

  lemma BeforeIsTransitive(c: Candidates, g: string, h: string, k: string)
    requires g in Groups(c) && h in Groups(c) && k in Groups(c) && Before(c, g, h) && Before(c, h, k)
    ensures Before(c, g, k)
  {
    if Less(g, h) && Less(h, k) {
      LessIsTransitive(g, h, k);
    }
  }

  lemma {:induction false} LeastOf(c: Candidates, gs: set<string>) returns (g: string)
    requires gs != {} && gs <= Groups(c)
    ensures g in gs && forall h :: h in gs ==> !Before(c, h, g)
  {
    var x :| x in gs;
    g := x;
    if gs != {x} {
      var k := LeastOf(c, gs - {x});
      g := if Before(c, k, x) then k else x;
      forall h | h in gs
        ensures !Before(c, h, g)
      {
        NotBeforeEither(c, h, x, k);
      }
    } else {
      BeforeIsTotal(c, x, x);
    }
  }

  lemma NotBeforeEither(c: Candidates, h: string, x: string, k: string)
    requires h in Groups(c) && x in Groups(c) && k in Groups(c)
    requires h == x || !Before(c, h, k)
    ensures !Before(c, h, if Before(c, k, x) then k else x)
  {
    BeforeIsTotal(c, h, x);
    BeforeIsTotal(c, x, k);
    if Before(c, h, x) && Before(c, x, k) {
      BeforeIsTransitive(c, h, x, k);
    }
  }

  lemma HasFirst(c: Candidates)
    requires c.Keys != {}
    ensures exists g :: g in Groups(c) && IsFirst(c, g)
  {
    var r :| r in c;
    assert c[r].grp in Groups(c);
    var g := LeastOf(c, Groups(c));
  }

  lemma FirstIsUnique(c: Candidates, g: string, h: string)
    requires g in Groups(c) && h in Groups(c) && IsFirst(c, g) && IsFirst(c, h)
    ensures g == h
  {
    BeforeIsTotal(c, g, h);
  }

  /** The group served first. */
  ghost function First(c: Candidates): (g: string)
    requires c.Keys != {}
    ensures g in Groups(c) && IsFirst(c, g)
  {
    HasFirst(c);
    var g :| g in Groups(c) && IsFirst(c, g);
    g
  }

  function Without(c: Candidates, g: string): Candidates {
    map r | r in c && c[r].grp != g :: c[r]
  }

  /** Whole groups, first come first served, while they fit; the first one fits anyway. */
  ghost function Greedy(c: Candidates, room: int, served: bool): set<RowRef>
    decreases |c.Keys|
  {
    if c.Keys == {} then {}
    else
      var g := First(c);
      WithoutIsSmaller(c, g);
      if |Members(c, g)| <= room || !served then Members(c, g) + Greedy(Without(c, g), room - |Members(c, g)|, true) else {}
  }

  lemma WithoutIsSmaller(c: Candidates, g: string)
    requires g in Groups(c)
    ensures |Without(c, g).Keys| < |c.Keys|
    ensures c.Keys == Without(c, g).Keys + Members(c, g) && Without(c, g).Keys !! Members(c, g)
  {
    var r :| r in c && c[r].grp == g;
    SubsetIsSmaller(Without(c, g).Keys, c.Keys, r);
  }

  lemma SubsetIsSmaller(a: set<RowRef>, b: set<RowRef>, r: RowRef)
    requires a <= b && r in b && r !in a
    ensures |a| < |b|
  {
    SubsetSize(a, b - {r});
  }

  // ------------------------------------------------------- they are the same

  lemma RemainingGroup(c: Candidates, g: string, h: string)
    requires g in Groups(c) && h in Groups(c) && h != g
    ensures h in Groups(Without(c, g)) && Members(Without(c, g), h) == Members(c, h)
    ensures GrpMin(Without(c, g), h) == GrpMin(c, h)
  {
    var w := Without(c, g);
    var r :| r in c && c[r].grp == h;
    assert r in w;
    HasOldest(c, h);
    HasOldest(w, h);
    var a :| IsOldest(c, h, a) && GrpMin(c, h) == c[a].created;
    var b :| IsOldest(w, h, b) && GrpMin(w, h) == w[b].created;
    assert a in Members(w, h) && b in Members(c, h);
  }

  /** Once the first group is served, running totals drop by its size. */
  lemma UpToWithout(c: Candidates, g: string, h: string)
    requires g in Groups(c) && IsFirst(c, g) && h in Groups(c) && h != g
    ensures h in Groups(Without(c, g)) && |UpTo(c, h)| == |Members(c, g)| + |UpTo(Without(c, g), h)|
  {
    var w := Without(c, g);
    RemainingGroup(c, g, h);
    forall r | r in c
      ensures r in UpTo(c, h) <==> r in Members(c, g) || r in UpTo(w, h)
    {
      BeforeIsTotal(c, g, h);
      if c[r].grp != g {
        RemainingGroup(c, g, c[r].grp);
      }
    }
    assert UpTo(c, h) == Members(c, g) + UpTo(w, h);
  }

  lemma UpToFirst(c: Candidates, g: string)
    requires g in Groups(c) && IsFirst(c, g)
    ensures UpTo(c, g) == Members(c, g)
  {
    forall r | r in c
      ensures r in UpTo(c, g) <==> c[r].grp == g
    {
      assert c[r].grp in Groups(c);
      BeforeIsTotal(c, g, c[r].grp);
    }
  }

  /** What one pass takes when `served` says whether a group was taken before. */
  ghost predicate IsTaken(c: Candidates, room: int, served: bool, g: string)
    requires g in Groups(c)
  {
    |UpTo(c, g)| <= room || (!served && IsFirst(c, g))
  }

  lemma {:induction false} GreedyTakes(c: Candidates, room: int, served: bool)
    ensures Greedy(c, room, served) == set r | r in c && IsTaken(c, room, served, c[r].grp)
    decreases |c.Keys|
  {
    if c.Keys != {} {
      var g := First(c);
      var w := Without(c, g);
      WithoutIsSmaller(c, g);
      UpToFirst(c, g);
      GreedyTakes(w, room - |Members(c, g)|, true);
      forall r | r in c
        ensures r in Greedy(c, room, served) <==> IsTaken(c, room, served, c[r].grp)
      {
        TakenOne(c, room, served, g, r);
      }
    }
  }

  lemma TakenOne(c: Candidates, room: int, served: bool, g: string, r: RowRef)
    requires g in Groups(c) && IsFirst(c, g) && r in c && UpTo(c, g) == Members(c, g)
    ensures IsTaken(c, room, served, c[r].grp)
            <==> (IsTaken(c, room, served, g)
                  && (c[r].grp == g || (r in Without(c, g) && IsTaken(Without(c, g), room - |Members(c, g)|, true, c[r].grp))))
  {
    var h := c[r].grp;
    if h != g {
      UpToWithout(c, g, h);
      if IsFirst(c, h) {
        FirstIsUnique(c, g, h);
      }
    }
  }

  /** Main result: the windowed query takes what the greedy loop over groups takes. */
  lemma ChosenIsGreedy(c: Candidates, limit: int)
    ensures Chosen(c, limit) == Greedy(c, limit, false)
  {
    GreedyTakes(c, limit, false);
    forall r | r in c
      ensures IsChosen(c, limit, c[r].grp) <==> IsTaken(c, limit, false, c[r].grp)
    {
    }
  }

  // -------------------------------------------------------- what it promises

  /** Main result: groups are taken whole, and a group is taken only after every group before it. */
  lemma WholeGroupsInOrder(c: Candidates, limit: int, r: RowRef, q: RowRef)
    requires r in Chosen(c, limit) && q in c
    requires c[q].grp == c[r].grp || Before(c, c[q].grp, c[r].grp)
    ensures q in Chosen(c, limit)
  {
    var g, h := c[r].grp, c[q].grp;
    if h != g {
      assert !IsFirst(c, g);
      forall x | x in UpTo(c, h)
        ensures x in UpTo(c, g)
      {
        if Before(c, g, c[x].grp) {
          BeforeIsTransitive(c, h, g, c[x].grp);
        }
      }
      SubsetSize(UpTo(c, h), UpTo(c, g));
    }
  }

  lemma GrpMinIs(c: Candidates, g: string, x: RowRef)
    requires x in c && c[x].grp == g && forall y :: y in c && c[y].grp == g ==> c[x].created <= c[y].created
    ensures g in Groups(c) && GrpMin(c, g) == c[x].created
  {
    HasOldest(c, g);
    var r :| IsOldest(c, g, r) && GrpMin(c, g) == c[r].created;
    assert x in Members(c, g);
  }

  /**
   * Main result: the oldest row `a` of a group that is taken is older than the oldest
   * row `b` of one that is left, or as old, and then the groups go by their names.
   */
  lemma OldestGroupsGoFirst(c: Candidates, limit: int, r: RowRef, q: RowRef, a: RowRef, b: RowRef)
    requires r in Chosen(c, limit) && q in c && q !in Chosen(c, limit)
    requires a in c && c[a].grp == c[r].grp && forall x :: x in c && c[x].grp == c[r].grp ==> c[a].created <= c[x].created
    requires b in c && c[b].grp == c[q].grp && forall x :: x in c && c[x].grp == c[q].grp ==> c[b].created <= c[x].created
    ensures c[a].created < c[b].created || (c[a].created == c[b].created && Less(c[r].grp, c[q].grp))
  {
    GrpMinIs(c, c[r].grp, a);
    GrpMinIs(c, c[q].grp, b);
    BeforeIsTotal(c, c[r].grp, c[q].grp);
    if c[q].grp == c[r].grp || Before(c, c[q].grp, c[r].grp) {
      WholeGroupsInOrder(c, limit, r, q);
    }
  }

  /** Two rows are sent together: they share a group id, or they are one row. */
  predicate Together(rows: Table, x: RowRef, y: RowRef)
    requires x in rows && y in rows
  {
    x == y || (rows[x].groupId.Some? && rows[x].groupId == rows[y].groupId)
  }

  /** Waiting to be swept, new or edited, on the connection when one is given. */
  predicate InQueue(rows: Table, conn: string, r: RowRef) {
    r in rows && (rows[r].status == Some("queued") || rows[r].status == Some("revisado")) && (conn == "" || rows[r].conn == conn)
  }

  /** Ids are unique and no group id is a row id: a digest is never a UUID. */
  ghost predicate IdsApart(rows: Table, id: RowRef -> string) {
    (forall x, y :: x in rows && y in rows && id(x) == id(y) ==> x == y) &&
    (forall x, y :: x in rows && y in rows && rows[x].groupId.Some? ==> rows[x].groupId.value != id(y))
  }

  /**
   * Main result: a scheduled sweep takes rows of the queue only, and a row of the queue
   * that it leaves is no older than some queued row that goes together with each row it takes.
   */
  lemma SweepTakesTheOldest(rows: Table, id: RowRef -> string, limit: int, conn: string, r: RowRef, q: RowRef)
    requires IdsApart(rows, id) && r in Chosen(CandidatesOf(rows, id, conn), limit)
    ensures InQueue(rows, conn, r)
    ensures InQueue(rows, conn, q) && q !in Chosen(CandidatesOf(rows, id, conn), limit) ==>
              exists x :: InQueue(rows, conn, x) && Together(rows, x, r) && rows[x].created <= rows[q].created
    ensures InQueue(rows, conn, q) && Together(rows, q, r) ==> q in Chosen(CandidatesOf(rows, id, conn), limit)
  {
    var c := CandidatesOf(rows, id, conn);
    if InQueue(rows, conn, q) {
      assert q in c;
      if q !in Chosen(c, limit) {
        HasOldest(c, c[r].grp);
        HasOldest(c, c[q].grp);
        var a :| IsOldest(c, c[r].grp, a);
        var b :| IsOldest(c, c[q].grp, b);
        assert q in Members(c, c[q].grp);
        assert forall x :: x in c && c[x].grp == c[r].grp ==> x in Members(c, c[r].grp);
        assert forall x :: x in c && c[x].grp == c[q].grp ==> x in Members(c, c[q].grp);
        OldestGroupsGoFirst(c, limit, r, q, a, b);
        assert InQueue(rows, conn, a) && Together(rows, a, r);
      }
      if Together(rows, q, r) {
        WholeGroupsInOrder(c, limit, r, q);
      }
    }
  }

  lemma {:induction false} GreedyFits(c: Candidates, room: int, served: bool)
    ensures |Greedy(c, room, served)| <= room
            || (if served then Greedy(c, room, served) == {}
                else c.Keys == {} || Greedy(c, room, served) == Members(c, First(c)))
    decreases |c.Keys|
  {
    if c.Keys != {} {
      var g := First(c);
      WithoutIsSmaller(c, g);
      GreedyFits(Without(c, g), room - |Members(c, g)|, true);
    }
  }

  /** Main result: one pass stays within the limit, or takes exactly the first group; and never nothing. */
  lemma FitsOrTakesTheFirst(c: Candidates, limit: int)
    requires c.Keys != {}
    ensures |Chosen(c, limit)| <= limit || Chosen(c, limit) == Members(c, First(c))
    ensures Members(c, First(c)) <= Chosen(c, limit) && Members(c, First(c)) != {}
  {
    ChosenIsGreedy(c, limit);
    GreedyFits(c, limit, false);
    var r :| r in c && c[r].grp == First(c);
    assert r in Members(c, First(c));
  }

  /** The next group in line would not have fitted. */
  lemma TakesAsManyAsFit(c: Candidates, limit: int, g: string)
    requires g in Groups(c) && Members(c, g) !! Chosen(c, limit)
    requires forall h :: h in Groups(c) && Before(c, h, g) ==> Members(c, h) <= Chosen(c, limit)
    ensures |Chosen(c, limit) + Members(c, g)| > limit
  {
    var x :| x in c && c[x].grp == g;
    assert x in Members(c, g);
    forall r | r in UpTo(c, g)
      ensures r in Chosen(c, limit) + Members(c, g)
    {
      BeforeIsTotal(c, g, c[r].grp);
      assert r in Members(c, c[r].grp);
    }
    SubsetSize(UpTo(c, g), Chosen(c, limit) + Members(c, g));
  }

  /** What one pass leaves queued, when every send is acknowledged. */
  ghost function Left(c: Candidates, limit: int): Candidates {
    map r | r in c && r !in Chosen(c, limit) :: c[r]
  }

  lemma PassServesAGroup(c: Candidates, limit: int)
    requires c.Keys != {}
    ensures |Groups(Left(c, limit))| < |Groups(c)|
  {
    FitsOrTakesTheFirst(c, limit);
    var g := First(c);
    forall r | r in Left(c, limit)
      ensures c[r].grp != g
    {
      assert r in Members(c, c[r].grp);
    }
    SubsetSize(Groups(Left(c, limit)), Groups(c) - {g});
  }

  // ------------------------------------------------------------- force-submit

  /** `fetchRowsByIds`. */
  function Selected(rows: Table, ids: set<RowRef>, conn: string): set<RowRef> {
    set r | r in rows && r in ids && Sendable(rows[r].status) && (conn == "" || rows[r].conn == conn)
  }

  /** `fetchRowsByGroupIds` for the non-empty group ids of a selection. */
  function Siblings(rows: Table, selected: set<RowRef>, conn: string): set<RowRef> {
    set r | r in rows && Sendable(rows[r].status) && (conn == "" || rows[r].conn == conn)
            && exists x :: x in selected && x in rows && rows[x].groupId.GetOr("") != "" && rows[r].groupId == rows[x].groupId
  }

  /** The selection of a force-submit, grown to whole groups. */
  function Expanded(rows: Table, ids: set<RowRef>, conn: string): set<RowRef> {
    Selected(rows, ids, conn) + Siblings(rows, Selected(rows, ids, conn), conn)
  }

  /** May go out: it has a state, which is neither the internal "staged" nor an acceptance. */
  predicate MayGoOut(rows: Table, conn: string, r: RowRef) {
    && r in rows && rows[r].status.Some? && rows[r].status.value != "staged" && Lower(rows[r].status.value) != "correcto"
    && (conn == "" || rows[r].conn == conn)
  }

  /** A force-submit takes the rows asked for and those of their groups, where they may go out, and no other. */
  lemma ForceSubmitTakes(rows: Table, ids: set<RowRef>, conn: string, r: RowRef)
    ensures r in Expanded(rows, ids, conn)
            <==> MayGoOut(rows, conn, r) &&
                 (r in ids || exists x :: x in ids && MayGoOut(rows, conn, x) && rows[x].groupId.GetOr("") != ""
                                       && rows[x].groupId == rows[r].groupId)
  {
    if MayGoOut(rows, conn, r) {
      if x :| x in ids && MayGoOut(rows, conn, x) && rows[x].groupId.GetOr("") != "" && rows[x].groupId == rows[r].groupId {
        assert x in Selected(rows, ids, conn);
      }
    }
    if r in Siblings(rows, Selected(rows, ids, conn), conn) {
      var x :| x in Selected(rows, ids, conn) && rows[x].groupId.GetOr("") != "" && rows[r].groupId == rows[x].groupId;
      assert MayGoOut(rows, conn, x);
    }
  }

  /** A force-submit takes only sendable rows, and every sendable row of a group it touches. */
  lemma ForceSubmitTakesWholeGroups(rows: Table, ids: set<RowRef>, conn: string, r: RowRef, q: RowRef)
    requires r in Expanded(rows, ids, conn) && q in rows
    requires rows[r].groupId.GetOr("") != "" && rows[q].groupId == rows[r].groupId
    ensures Sendable(rows[r].status) && rows[r].status != Some(STAGED) && !IsCorrecto(rows[r].status)
    ensures q in Expanded(rows, ids, conn) <==> Sendable(rows[q].status) && (conn == "" || rows[q].conn == conn)
  {
    var x :| x in Selected(rows, ids, conn) && rows[x].groupId == rows[r].groupId;
  }
}
