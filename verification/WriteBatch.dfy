/**
 * `partitionAndSubmit`: swept rows are put into buckets by connection, phase and
 * group, and every bucket is sent in one combined call or in chunks.
 */
module WriteBatch {
  import opened Rows
  import opened Chunks
  import opened JsonText
  import opened JsonReading

  const HARD_MAX_BATCH_SIZE: nat := 1000

  datatype Phase = Create | Update

  /** A fetched row; `values` are the grouping columns as text. */
  datatype Fetched = Fetched(ref: RowRef, conn: string, group: Option<string>, status: Option<string>, values: seq<string>)

  function PhaseOf(x: Fetched): Phase {
    if x.status == Some(REVISADO) then Update else Create
  }

  function PhaseText(p: Phase): string {
    match p case Create => "create" case Update => "update"
  }

  type Columns = seq<string>

  /** The materialized digest, or, for a row without one, the JSON text of its grouping columns. */
  function GroupKey(columns: Columns, x: Fetched): string {
    x.group.GetOr(ObjectText(columns, x.values))
  }

  const COLONS := "::"

  /** The bucket a row goes into. */
  function PartKey(columns: Columns, x: Fetched): string {
    x.conn + COLONS + PhaseText(PhaseOf(x)) + COLONS + GroupKey(columns, x)
  }

  /** `md5(...)` as the database renders it. */
  predicate IsDigest(g: string) {
    |g| == 32 && forall c :: c in g ==> '0' <= c <= '9' || 'a' <= c <= 'f'
  }

  /** As stored: a digest or none, and a value for each grouping column. */
  predicate IsStored(columns: Columns, x: Fetched) {
    (x.group.Some? ==> IsDigest(x.group.value)) && |x.values| == |columns|
  }

  predicate AreColumns(columns: Columns) {
    forall c :: c in columns ==> IsColumnKey(c)
  }

  lemma Ending(a: string, g: string, b: string, h: string)
    requires a + g == b + h && |g| <= |h|
    ensures h == h[..|h| - |g|] + g
  {
    var n := |h| - |g|;
    assert (a + g)[|a|..] == g;
    assert (b + h)[|b| + n..] == h[n..];
    assert |a| == |b| + n;
  }

  lemma DigestIsNoObjectText(columns: Columns, x: Fetched)
    requires IsStored(columns, x)
    ensures var g := GroupKey(columns, x); g != "" && (x.group.None? <==> g[|g| - 1] == '}')
  {
    ObjectTextEnds(columns, x.values);
    var g := GroupKey(columns, x);
    assert x.group.Some? ==> g[|g| - 1] in g;
  }

  /** Of two group keys that end one text, neither is longer. */
  lemma NoGroupKeyEndsAnother(columns: Columns, a: string, x: Fetched, b: string, y: Fetched)
    requires AreColumns(columns) && IsStored(columns, x) && IsStored(columns, y)
    requires a + GroupKey(columns, x) == b + GroupKey(columns, y) && |GroupKey(columns, x)| <= |GroupKey(columns, y)|
    ensures |GroupKey(columns, x)| == |GroupKey(columns, y)|
    ensures x.group.Some? <==> y.group.Some?
  {
    var g, h := GroupKey(columns, x), GroupKey(columns, y);
    DigestIsNoObjectText(columns, x);
    DigestIsNoObjectText(columns, y);
    assert g[|g| - 1] == (a + g)[|a + g| - 1] == (b + h)[|b + h| - 1] == h[|h| - 1];
    if x.group.None? {
      Ending(a, g, b, h);
      ObjectTextIsNoSuffix(columns, x.values, y.values, h[..|h| - |g|]);
    }
  }

  lemma SameLengthEnding(a: string, g: string, b: string, h: string)
    requires a + g == b + h && |g| == |h|
    ensures a == b && g == h
  {
    assert a == (a + g)[..|a|] && b == (b + h)[..|b|];
    assert g == (a + g)[|a|..] && h == (b + h)[|b|..];
  }

  /** Main result: rows in one bucket share connection, phase and group, and without one the grouping values. */
  lemma KeySeparates(columns: Columns, x: Fetched, y: Fetched)
    requires AreColumns(columns) && IsStored(columns, x) && IsStored(columns, y)
    requires PartKey(columns, x) == PartKey(columns, y)
    ensures x.conn == y.conn && PhaseOf(x) == PhaseOf(y) && GroupKey(columns, x) == GroupKey(columns, y) && x.group == y.group
    ensures x.group.None? ==> x.values == y.values
  {
    var px, py := PhaseText(PhaseOf(x)), PhaseText(PhaseOf(y));
    var a, b := x.conn + COLONS + px + COLONS, y.conn + COLONS + py + COLONS;
    if |GroupKey(columns, x)| <= |GroupKey(columns, y)| {
      NoGroupKeyEndsAnother(columns, a, x, b, y);
    } else {
      NoGroupKeyEndsAnother(columns, b, y, a, x);
    }
    SameLengthEnding(a, GroupKey(columns, x), b, GroupKey(columns, y));
    SameLengthEnding(x.conn + COLONS + px, COLONS, y.conn + COLONS + py, COLONS);
    SameLengthEnding(x.conn + COLONS, px, y.conn + COLONS, py);
    SameLengthEnding(x.conn, COLONS, y.conn, COLONS);
    assert px[0] == if PhaseOf(x).Create? then 'c' else 'u';
    assert py[0] == if PhaseOf(y).Create? then 'c' else 'u';
    if x.group.None? && y.group.None? {
      ObjectTextTellsValues(columns, x.values, y.values);
    }
  }

  // ------------------------------------------------------------------ buckets

  /** The rows of one bucket, in input order. */
  function RowsWith(columns: Columns, rows: seq<Fetched>, key: string): seq<RowRef> {
    if rows == [] then []
    else
      var x := rows[|rows| - 1];
      RowsWith(columns, rows[..|rows| - 1], key) + if PartKey(columns, x) == key then [x.ref] else []
  }

  /** The row a bucket was opened for. */
  function FirstWith(columns: Columns, rows: seq<Fetched>, key: string): Option<Fetched> {
    if rows == [] then None
    else
      var before, x := FirstWith(columns, rows[..|rows| - 1], key), rows[|rows| - 1];
      if before.Some? then before else if PartKey(columns, x) == key then Some(x) else None
  }

  /** The keys in the order they were first met, as a JavaScript map iterates. */
  function Keys(columns: Columns, rows: seq<Fetched>): seq<string> {
    if rows == [] then []
    else
      var before, key := Keys(columns, rows[..|rows| - 1]), PartKey(columns, rows[|rows| - 1]);
      if key in before then before else before + [key]
  }

  function Flat(columns: Columns, rows: seq<Fetched>, keys: seq<string>): seq<RowRef> {
    if keys == [] then [] else Flat(columns, rows, keys[..|keys| - 1]) + RowsWith(columns, rows, keys[|keys| - 1])
  }

  function Refs(rows: seq<Fetched>): seq<RowRef> {
    if rows == [] then [] else Refs(rows[..|rows| - 1]) + [rows[|rows| - 1].ref]
  }

  datatype Bucket = Bucket(conn: string, values: seq<string>, group: Option<string>, phase: Phase, rows: seq<RowRef>)

  function BucketFor(x: Fetched, rows: seq<RowRef>): Bucket {
    Bucket(x.conn, x.values, x.group, PhaseOf(x), rows)
  }

  ghost predicate Filled(columns: Columns, rows: seq<Fetched>, keys: seq<string>, buckets: map<string, Bucket>) {
    && keys == Keys(columns, rows)
    && (forall k :: k in keys <==> k in buckets)
    && (forall k :: BucketIs(columns, rows, buckets, k))
  }

  ghost predicate BucketIs(columns: Columns, rows: seq<Fetched>, buckets: map<string, Bucket>, k: string) {
    (k in buckets <==> FirstWith(columns, rows, k).Some?)
    && (k in buckets ==> buckets[k] == BucketFor(FirstWith(columns, rows, k).value, RowsWith(columns, rows, k)))
  }

  lemma OneRowMore(columns: Columns, rows: seq<Fetched>, x: Fetched, k: string)
    ensures FirstWith(columns, rows + [x], k)
         == if FirstWith(columns, rows, k).Some? then FirstWith(columns, rows, k) else if k == PartKey(columns, x) then Some(x) else None
    ensures RowsWith(columns, rows + [x], k) == RowsWith(columns, rows, k) + if k == PartKey(columns, x) then [x.ref] else []
    ensures Keys(columns, rows + [x])
         == if PartKey(columns, x) in Keys(columns, rows) then Keys(columns, rows) else Keys(columns, rows) + [PartKey(columns, x)]
  {
    assert (rows + [x])[..|rows|] == rows;
  }

  function PutRow(buckets: map<string, Bucket>, key: string, x: Fetched): map<string, Bucket> {
    var bucket := if key in buckets then buckets[key] else BucketFor(x, []);
    buckets[key := bucket.(rows := bucket.rows + [x.ref])]
  }

  lemma FillOne(columns: Columns, rows: seq<Fetched>, x: Fetched, keys: seq<string>, buckets: map<string, Bucket>)
    requires Filled(columns, rows, keys, buckets)
    ensures var key := PartKey(columns, x);
            Filled(columns, rows + [x], if key in buckets then keys else keys + [key], PutRow(buckets, key, x))
  {
    var key := PartKey(columns, x);
    OneRowMore(columns, rows, x, key);
    forall k
      ensures BucketIs(columns, rows + [x], PutRow(buckets, key, x), k)
    {
      assert BucketIs(columns, rows, buckets, k);
      OneRowMore(columns, rows, x, k);
      NothingWithoutFirst(columns, rows, k);
    }
  }

  lemma {:induction false} NothingWithoutFirst(columns: Columns, rows: seq<Fetched>, key: string)
    ensures FirstWith(columns, rows, key).None? <==> RowsWith(columns, rows, key) == []
    ensures FirstWith(columns, rows, key).Some? ==>
              PartKey(columns, FirstWith(columns, rows, key).value) == key && FirstWith(columns, rows, key).value in rows
  {
    if rows != [] {
      NothingWithoutFirst(columns, rows[..|rows| - 1], key);
    }
  }

  lemma BucketFacts(columns: Columns, rows: seq<Fetched>, keys: seq<string>, buckets: map<string, Bucket>, j: nat)
    requires Filled(columns, rows, keys, buckets) && j < |keys|
    ensures keys[j] in buckets && IsBucket(columns, rows, keys[j], buckets[keys[j]])
  {
    assert keys[j] in keys;
    assert BucketIs(columns, rows, buckets, keys[j]);
    NothingWithoutFirst(columns, rows, keys[j]);
  }

  method FillBuckets(columns: Columns, rows: seq<Fetched>) returns (keys: seq<string>, buckets: map<string, Bucket>)
    ensures Filled(columns, rows, keys, buckets)
  {
    keys, buckets := [], map[];
    for i := 0 to |rows|
      invariant Filled(columns, rows[..i], keys, buckets)
    {
      var x := rows[i];
      var key := PartKey(columns, x);
      FillOne(columns, rows[..i], x, keys, buckets);
      assert rows[..i + 1] == rows[..i] + [x];
      keys, buckets := if key in buckets then keys else keys + [key], PutRow(buckets, key, x);
    }
    assert rows[..|rows|] == rows;
  }

  // -------------------------------------------------------------- submissions

  /** One `submitGroup` call: what it ships and which rows it marks. */
  datatype Submission = Submission(conn: string, phase: Phase, values: Option<seq<string>>, payload: seq<RowRef>, marked: seq<RowRef>)

  datatype Batching = Batching(groupBy: seq<string>, collapse: bool, maxBatchSize: Option<int>)

  function Cap(b: Batching): int {
    var size := b.maxBatchSize.GetOr(HARD_MAX_BATCH_SIZE);
    if size < HARD_MAX_BATCH_SIZE then size else HARD_MAX_BATCH_SIZE
  }

  /** `fetchGroupMembers`: every row of a group, whatever its status. */
  type MembersOf = (string, string) -> seq<RowRef>

  predicate Collapses(b: Batching, first: Fetched) {
    b.collapse && first.group.GetOr("") != ""
  }

  /** A call made for the bucket opened for `first` and holding `bucket`. */
  predicate SentFor(b: Batching, members: MembersOf, first: Fetched, bucket: seq<RowRef>, sub: Submission) {
    && sub.conn == first.conn && sub.phase == PhaseOf(first) && sub.marked != []
    && sub.values == (if Collapses(b, first) || b.groupBy != [] then Some(first.values) else None)
    && (forall m :: m in sub.marked ==> m in bucket)
    && (if Collapses(b, first)
        then sub.marked == bucket
             && sub.payload == (if members(first.conn, first.group.value) == [] then bucket else members(first.conn, first.group.value))
        else sub.payload == sub.marked && Fits(b, sub.marked))
  }

  /** At most a thousand rows, and no more than the table allows. */
  predicate Fits(b: Batching, rows: seq<RowRef>) {
    |rows| <= 1000 && (b.maxBatchSize.Some? ==> |rows| <= b.maxBatchSize.value)
  }

  /** One row more would not fit. */
  predicate IsFull(b: Batching, rows: seq<RowRef>) {
    Fits(b, rows) && (|rows| == 1000 || b.maxBatchSize == Some(|rows|))
  }

  /** One combined call, or calls of which all but the last are full. */
  predicate AreCut(b: Batching, combined: bool, subs: seq<Submission>) {
    if combined then |subs| == 1
    else forall i :: 0 <= i < |subs| ==> Fits(b, subs[i].marked) && (i < |subs| - 1 ==> IsFull(b, subs[i].marked))
  }

  function Marks(subs: seq<Submission>): seq<RowRef> {
    if subs == [] then [] else Marks(subs[..|subs| - 1]) + subs[|subs| - 1].marked
  }

  lemma {:induction false} MarksConcat(a: seq<Submission>, b: seq<Submission>)
    ensures Marks(a + b) == Marks(a) + Marks(b)
  {
    if b == [] {
      assert a + b == a;
    } else {
      var before, last := b[..|b| - 1], b[|b| - 1];
      MarksConcat(a, before);
      Assoc(a, before, [last]);
      assert b == before + [last];
      MarksSnoc(a + before, last);
      Assoc(Marks(a), Marks(before), last.marked);
    }
  }

  lemma MarksSnoc(subs: seq<Submission>, sub: Submission)
    ensures Marks(subs + [sub]) == Marks(subs) + sub.marked
  {
    assert (subs + [sub])[..|subs|] == subs;
  }

  ghost predicate IsOfBucket(columns: Columns, b: Batching, members: MembersOf, rows: seq<Fetched>, k: string, sub: Submission) {
    var first := FirstWith(columns, rows, k);
    first.Some? && SentFor(b, members, first.value, RowsWith(columns, rows, k), sub)
  }

  /** The bucket opened for the first row with that key. */
  ghost predicate IsBucket(columns: Columns, rows: seq<Fetched>, k: string, bucket: Bucket) {
    FirstWith(columns, rows, k).Some? && bucket.rows != []
    && bucket == BucketFor(FirstWith(columns, rows, k).value, RowsWith(columns, rows, k))
  }

  /** One combined call for the bucket. */
  method SendCombined(columns: Columns, b: Batching, members: MembersOf, ghost rows: seq<Fetched>, ghost k: string, bucket: Bucket)
      returns (sub: Submission)
    requires b.collapse && bucket.group.GetOr("") != "" && IsBucket(columns, rows, k, bucket)
    ensures sub.marked == bucket.rows && IsOfBucket(columns, b, members, rows, k, sub)
  {
    var fetched := members(bucket.conn, bucket.group.value);
    var payload := if fetched != [] then fetched else bucket.rows;
    sub := Submission(bucket.conn, bucket.phase, Some(bucket.values), payload, bucket.rows);
  }

  /** One call for a chunk of the bucket. */
  method SendChunk(columns: Columns, b: Batching, members: MembersOf, ghost rows: seq<Fetched>, ghost k: string, bucket: Bucket,
                   chunk: seq<RowRef>)
      returns (sub: Submission)
    requires !(b.collapse && bucket.group.GetOr("") != "") && IsBucket(columns, rows, k, bucket)
    requires chunk != [] && Fits(b, chunk) && forall m :: m in chunk ==> m in bucket.rows
    ensures sub.marked == chunk && IsOfBucket(columns, b, members, rows, k, sub)
  {
    sub := Submission(bucket.conn, bucket.phase, if b.groupBy != [] then Some(bucket.values) else None, chunk, chunk);
  }

  /** The calls of one bucket. */
  method SubmitBucket(columns: Columns, b: Batching, members: MembersOf, ghost rows: seq<Fetched>, ghost k: string, bucket: Bucket)
      returns (subs: seq<Submission>)
    requires b.maxBatchSize.Some? ==> b.maxBatchSize.value >= 1
    requires IsBucket(columns, rows, k, bucket)
    ensures Marks(subs) == bucket.rows
    ensures AreCut(b, b.collapse && bucket.group.GetOr("") != "", subs)
    ensures forall sub :: sub in subs ==> IsOfBucket(columns, b, members, rows, k, sub)
  {
    if b.collapse && bucket.group.GetOr("") != "" {
      var sub := SendCombined(columns, b, members, rows, k, bucket);
      MarksSnoc([], sub);
      return [sub];
    }
    subs := SubmitChunks(columns, b, members, rows, k, bucket);
  }

  /** The calls of a bucket that is not combined. */
  method SubmitChunks(columns: Columns, b: Batching, members: MembersOf, ghost rows: seq<Fetched>, ghost k: string, bucket: Bucket)
      returns (subs: seq<Submission>)
    requires b.maxBatchSize.Some? ==> b.maxBatchSize.value >= 1
    requires !(b.collapse && bucket.group.GetOr("") != "") && IsBucket(columns, rows, k, bucket)
    ensures Marks(subs) == bucket.rows && AreCut(b, false, subs)
    ensures forall sub :: sub in subs ==> IsOfBucket(columns, b, members, rows, k, sub)
  {
    subs := [];
    var chunks := ChunkRows(bucket.rows, Cap(b));
    for i := 0 to |chunks|
      invariant SentSoFar(columns, b, members, rows, k, chunks, i, subs)
    {
      PieceIsInside(chunks, i);
      CapFits(b, chunks[i]);
      var sub := SendChunk(columns, b, members, rows, k, bucket, chunks[i]);
      SentMore(columns, b, members, rows, k, chunks, i, subs, sub);
      subs := subs + [sub];
    }
    assert chunks[..|chunks|] == chunks;
    PiecesAreCut(b, chunks, subs);
  }

  /** One call for each of the first `i` pieces. */
  ghost predicate SentSoFar(columns: Columns, b: Batching, members: MembersOf, rows: seq<Fetched>, k: string,
                            pieces: seq<seq<RowRef>>, i: nat, subs: seq<Submission>)
    requires i <= |pieces|
  {
    && Marks(subs) == Concat(pieces[..i]) && |subs| == i
    && (forall j :: 0 <= j < i ==> subs[j].marked == pieces[j])
    && (forall sub :: sub in subs ==> IsOfBucket(columns, b, members, rows, k, sub))
  }

  lemma SentMore(columns: Columns, b: Batching, members: MembersOf, rows: seq<Fetched>, k: string,
                 pieces: seq<seq<RowRef>>, i: nat, subs: seq<Submission>, sub: Submission)
    requires i < |pieces| && SentSoFar(columns, b, members, rows, k, pieces, i, subs)
    requires sub.marked == pieces[i] && IsOfBucket(columns, b, members, rows, k, sub)
    ensures SentSoFar(columns, b, members, rows, k, pieces, i + 1, subs + [sub])
  {
    ConcatNext(pieces, i);
    MarksSnoc(subs, sub);
  }

  lemma CapFits(b: Batching, piece: seq<RowRef>)
    ensures |piece| <= Cap(b) ==> Fits(b, piece)
    ensures |piece| == Cap(b) ==> IsFull(b, piece)
  {
  }

  lemma PiecesAreCut(b: Batching, pieces: seq<seq<RowRef>>, subs: seq<Submission>)
    requires |subs| == |pieces| && forall j :: 0 <= j < |subs| ==> subs[j].marked == pieces[j]
    requires forall p :: p in pieces ==> |p| <= Cap(b)
    requires forall i :: 0 <= i < |pieces| - 1 ==> |pieces[i]| == Cap(b)
    ensures AreCut(b, false, subs)
  {
    forall i | 0 <= i < |subs|
      ensures Fits(b, subs[i].marked) && (i < |subs| - 1 ==> IsFull(b, subs[i].marked))
    {
      assert pieces[i] in pieces;
      CapFits(b, pieces[i]);
    }
  }

  lemma PieceIsInside<T>(pieces: seq<seq<T>>, i: nat)
    requires i < |pieces|
    ensures pieces[i] in pieces
    ensures forall m :: m in pieces[i] ==> m in Concat(pieces)
  {
    ConcatNext(pieces, i);
    ConcatPrefix(pieces, i + 1);
    InPrefix(Concat(pieces[..i]), pieces[i], Concat(pieces));
  }

  lemma InPrefix<T>(a: seq<T>, b: seq<T>, whole: seq<T>)
    requires a + b <= whole
    ensures forall m :: m in b ==> m in whole
  {
    forall m | m in b
      ensures m in whole
    {
      var j :| 0 <= j < |b| && b[j] == m;
      assert (a + b)[|a| + j] == m;
    }
  }

  /** All calls of one bucket. */
  ghost predicate AreCallsOf(columns: Columns, b: Batching, members: MembersOf, rows: seq<Fetched>, k: string, subs: seq<Submission>) {
    && Marks(subs) == RowsWith(columns, rows, k)
    && (var first := FirstWith(columns, rows, k);
        first.Some? && AreCut(b, Collapses(b, first.value), subs))
    && forall sub :: sub in subs ==> IsOfBucket(columns, b, members, rows, k, sub)
  }

  /** The calls of the buckets, one bucket after the other. */
  ghost predicate InTurn(columns: Columns, b: Batching, members: MembersOf, rows: seq<Fetched>, keys: seq<string>,
                         calls: seq<seq<Submission>>) {
    |calls| == |keys| && forall j :: 0 <= j < |keys| ==> AreCallsOf(columns, b, members, rows, keys[j], calls[j])
  }

  /** Every call belongs to one bucket, and together, in order, they mark the buckets. */
  ghost predicate Submitted(columns: Columns, b: Batching, members: MembersOf, rows: seq<Fetched>, keys: seq<string>,
                            subs: seq<Submission>) {
    && Marks(subs) == Flat(columns, rows, keys)
    && forall sub :: sub in subs ==> exists k :: k in keys && IsOfBucket(columns, b, members, rows, k, sub)
  }

  lemma SubmittedMore(columns: Columns, b: Batching, members: MembersOf, rows: seq<Fetched>, keys: seq<string>,
                      subs: seq<Submission>, k: string, more: seq<Submission>)
    requires Submitted(columns, b, members, rows, keys, subs)
    requires AreCallsOf(columns, b, members, rows, k, more)
    ensures Submitted(columns, b, members, rows, keys + [k], subs + more)
  {
    MarksConcat(subs, more);
    assert (keys + [k])[..|keys|] == keys && k in keys + [k];
    forall sub | sub in subs + more
      ensures exists l :: l in keys + [k] && IsOfBucket(columns, b, members, rows, l, sub)
    {
      if sub in subs {
        var l :| l in keys && IsOfBucket(columns, b, members, rows, l, sub);
        assert l in keys + [k];
      }
    }
  }

  lemma InTurnNext(columns: Columns, b: Batching, members: MembersOf, rows: seq<Fetched>, keys: seq<string>, j: nat,
                   calls: seq<seq<Submission>>, more: seq<Submission>)
    requires j < |keys| && InTurn(columns, b, members, rows, keys[..j], calls)
    requires AreCallsOf(columns, b, members, rows, keys[j], more)
    ensures InTurn(columns, b, members, rows, keys[..j + 1], calls + [more])
  {
    var all, next := calls + [more], keys[..j + 1];
    forall i | 0 <= i < |next|
      ensures AreCallsOf(columns, b, members, rows, next[i], all[i])
    {
      if i < j {
        assert next[i] == keys[..j][i] && all[i] == calls[i];
      }
    }
  }

  lemma SubmittedNext(columns: Columns, b: Batching, members: MembersOf, rows: seq<Fetched>, keys: seq<string>, j: nat,
                      subs: seq<Submission>, more: seq<Submission>)
    requires j < |keys| && Submitted(columns, b, members, rows, keys[..j], subs)
    requires AreCallsOf(columns, b, members, rows, keys[j], more)
    ensures Submitted(columns, b, members, rows, keys[..j + 1], subs + more)
  {
    SubmittedMore(columns, b, members, rows, keys[..j], subs, keys[j], more);
    TakeNext(keys, j);
  }

  /** The calls of the first `j` buckets. */
  ghost predicate SubmittedUpTo(columns: Columns, b: Batching, members: MembersOf, rows: seq<Fetched>, keys: seq<string>, j: nat,
                                subs: seq<Submission>, calls: seq<seq<Submission>>)
    requires j <= |keys|
  {
    && Submitted(columns, b, members, rows, keys[..j], subs)
    && subs == Concat(calls) && InTurn(columns, b, members, rows, keys[..j], calls)
  }

  lemma SubmittedUpToNext(columns: Columns, b: Batching, members: MembersOf, rows: seq<Fetched>, keys: seq<string>, j: nat,
                          subs: seq<Submission>, calls: seq<seq<Submission>>, more: seq<Submission>)
    requires j < |keys| && SubmittedUpTo(columns, b, members, rows, keys, j, subs, calls)
    requires AreCallsOf(columns, b, members, rows, keys[j], more)
    ensures SubmittedUpTo(columns, b, members, rows, keys, j + 1, subs + more, calls + [more])
  {
    SubmittedNext(columns, b, members, rows, keys, j, subs, more);
    InTurnNext(columns, b, members, rows, keys, j, calls, more);
    ConcatSnoc(calls, more);
  }

  /** The calls of a whole pass, in the order they start, none of them rejecting. */
  method PartitionAndSubmit(columns: Columns, b: Batching, members: MembersOf, rows: seq<Fetched>)
      returns (subs: seq<Submission>, ghost calls: seq<seq<Submission>>)
    requires b.maxBatchSize.Some? ==> b.maxBatchSize.value >= 1
    ensures Submitted(columns, b, members, rows, Keys(columns, rows), subs)
    ensures subs == Concat(calls) && InTurn(columns, b, members, rows, Keys(columns, rows), calls)
  {
    var keys, buckets := FillBuckets(columns, rows);
    subs, calls := SubmitBuckets(columns, b, members, rows, keys, buckets);
  }

  method SubmitBuckets(columns: Columns, b: Batching, members: MembersOf, ghost rows: seq<Fetched>, keys: seq<string>,
                       buckets: map<string, Bucket>)
      returns (subs: seq<Submission>, ghost calls: seq<seq<Submission>>)
    requires b.maxBatchSize.Some? ==> b.maxBatchSize.value >= 1
    requires Filled(columns, rows, keys, buckets)
    ensures Submitted(columns, b, members, rows, keys, subs)
    ensures subs == Concat(calls) && InTurn(columns, b, members, rows, keys, calls)
  {
    subs, calls := [], [];
    for j := 0 to |keys|
      invariant SubmittedUpTo(columns, b, members, rows, keys, j, subs, calls)
    {
      var key := keys[j];
      BucketFacts(columns, rows, keys, buckets, j);
      var more := SubmitBucket(columns, b, members, rows, key, buckets[key]);
      BucketCalls(columns, b, members, rows, key, buckets[key], more);
      SubmittedUpToNext(columns, b, members, rows, keys, j, subs, calls, more);
      subs, calls := subs + more, calls + [more];
    }
    assert keys[..|keys|] == keys;
  }

  lemma BucketCalls(columns: Columns, b: Batching, members: MembersOf, rows: seq<Fetched>, k: string, bucket: Bucket, subs: seq<Submission>)
    requires IsBucket(columns, rows, k, bucket) && Marks(subs) == bucket.rows
    requires AreCut(b, b.collapse && bucket.group.GetOr("") != "", subs)
    requires forall sub :: sub in subs ==> IsOfBucket(columns, b, members, rows, k, sub)
    ensures AreCallsOf(columns, b, members, rows, k, subs)
  {
  }

  // ------------------------------------------------------------- conservation

  predicate Distinct(keys: seq<string>) {
    forall i, j :: 0 <= i < j < |keys| ==> keys[i] != keys[j]
  }

  lemma DistinctSnoc(keys: seq<string>, k: string)
    requires Distinct(keys) && k !in keys
    ensures Distinct(keys + [k])
  {
  }

  /** How often a row stands in a list. */
  function Times(s: seq<RowRef>, r: RowRef): nat {
    multiset(s)[r]
  }

  lemma TimesConcat(a: seq<RowRef>, b: seq<RowRef>, r: RowRef)
    ensures Times(a + b, r) == Times(a, r) + Times(b, r)
  {
  }

  lemma {:induction false} FlatOneMore(columns: Columns, rows: seq<Fetched>, x: Fetched, keys: seq<string>, r: RowRef)
    requires Distinct(keys)
    ensures Times(Flat(columns, rows + [x], keys), r)
         == Times(Flat(columns, rows, keys), r) + if PartKey(columns, x) in keys then Times([x.ref], r) else 0
  {
    if keys != [] {
      var before, last := keys[..|keys| - 1], keys[|keys| - 1];
      FlatOneMore(columns, rows, x, before, r);
      OneRowMore(columns, rows, x, last);
      TimesConcat(Flat(columns, rows, before), RowsWith(columns, rows, last), r);
      TimesConcat(Flat(columns, rows + [x], before), RowsWith(columns, rows + [x], last), r);
      TimesConcat(RowsWith(columns, rows, last), [x.ref], r);
      LastOfKeys(keys, PartKey(columns, x));
    }
  }

  lemma LastOfKeys(keys: seq<string>, k: string)
    requires Distinct(keys) && keys != []
    ensures k in keys <==> k in keys[..|keys| - 1] || k == keys[|keys| - 1]
    ensures !(k in keys[..|keys| - 1] && k == keys[|keys| - 1])
  {
    assert keys == keys[..|keys| - 1] + [keys[|keys| - 1]];
  }

  lemma {:induction false} KeysAreDistinct(columns: Columns, rows: seq<Fetched>)
    ensures Distinct(Keys(columns, rows))
  {
    if rows != [] {
      var before, k := Keys(columns, rows[..|rows| - 1]), PartKey(columns, rows[|rows| - 1]);
      KeysAreDistinct(columns, rows[..|rows| - 1]);
      if k !in before {
        DistinctSnoc(before, k);
      }
    }
  }

  lemma {:induction false} FlatIsAll(columns: Columns, rows: seq<Fetched>, r: RowRef)
    ensures Times(Flat(columns, rows, Keys(columns, rows)), r) == Times(Refs(rows), r)
  {
    if rows != [] {
      FlatIsAll(columns, rows[..|rows| - 1], r);
      FlatLast(columns, rows, r);
      TimesConcat(Refs(rows[..|rows| - 1]), [rows[|rows| - 1].ref], r);
    }
  }

  lemma FlatLast(columns: Columns, rows: seq<Fetched>, r: RowRef)
    requires rows != []
    ensures var before, x := rows[..|rows| - 1], rows[|rows| - 1];
            Times(Flat(columns, rows, Keys(columns, rows)), r) == Times(Flat(columns, before, Keys(columns, before)), r) + Times([x.ref], r)
  {
    assert rows == rows[..|rows| - 1] + [rows[|rows| - 1]];
    FlatStep(columns, rows[..|rows| - 1], rows[|rows| - 1], r);
  }

  lemma FlatStep(columns: Columns, rows: seq<Fetched>, x: Fetched, r: RowRef)
    ensures Times(Flat(columns, rows + [x], Keys(columns, rows + [x])), r)
         == Times(Flat(columns, rows, Keys(columns, rows)), r) + Times([x.ref], r)
  {
    var keys, k := Keys(columns, rows), PartKey(columns, x);
    KeysAreDistinct(columns, rows);
    FlatOneMore(columns, rows, x, keys, r);
    OneRowMore(columns, rows, x, k);
    if k !in keys {
      NewBucket(columns, rows, x);
      TimesConcat(Flat(columns, rows + [x], keys), [x.ref], r);
    }
  }

  lemma FlatSnoc(columns: Columns, rows: seq<Fetched>, keys: seq<string>, k: string)
    ensures Flat(columns, rows, keys + [k]) == Flat(columns, rows, keys) + RowsWith(columns, rows, k)
  {
    assert (keys + [k])[..|keys|] == keys;
  }

  lemma NewBucket(columns: Columns, rows: seq<Fetched>, x: Fetched)
    requires PartKey(columns, x) !in Keys(columns, rows)
    ensures Flat(columns, rows + [x], Keys(columns, rows + [x])) == Flat(columns, rows + [x], Keys(columns, rows)) + [x.ref]
  {
    var k, more := PartKey(columns, x), rows + [x];
    OneRowMore(columns, rows, x, k);
    NoRowWithout(columns, rows, k);
    assert RowsWith(columns, more, k) == [x.ref];
    FlatSnoc(columns, more, Keys(columns, rows), k);
  }

  lemma {:induction false} NoRowWithout(columns: Columns, rows: seq<Fetched>, k: string)
    requires k !in Keys(columns, rows)
    ensures RowsWith(columns, rows, k) == []
  {
    if rows != [] {
      NoRowWithout(columns, rows[..|rows| - 1], k);
    }
  }

  /** Main result: every fetched row is marked by the calls exactly as often as it was fetched. */
  lemma EveryRowIsMarkedOnce(columns: Columns, b: Batching, members: MembersOf, rows: seq<Fetched>, subs: seq<Submission>)
    requires Submitted(columns, b, members, rows, Keys(columns, rows), subs)
    ensures forall r :: Times(Marks(subs), r) == Times(Refs(rows), r)
  {
    forall r
      ensures Times(Marks(subs), r) == Times(Refs(rows), r)
    {
      FlatIsAll(columns, rows, r);
    }
  }

  lemma {:induction false} MarkedBy(subs: seq<Submission>, i: nat, r: RowRef)
    requires i < |subs| && r in subs[i].marked
    ensures Times(Marks(subs), r) >= 1
  {
    TimesConcat(Marks(subs[..|subs| - 1]), subs[|subs| - 1].marked, r);
    if i < |subs| - 1 {
      MarkedBy(subs[..|subs| - 1], i, r);
    }
  }

  /** No two calls of a pass mark the same row. */
  lemma {:induction false} CallsMarkApart(subs: seq<Submission>, i: nat, j: nat, r: RowRef)
    requires i < j < |subs| && Times(Marks(subs), r) <= 1
    ensures !(r in subs[i].marked && r in subs[j].marked)
  {
    var before, last := subs[..|subs| - 1], subs[|subs| - 1];
    TimesConcat(Marks(before), last.marked, r);
    if j < |subs| - 1 {
      CallsMarkApart(before, i, j, r);
    } else if r in subs[i].marked {
      MarkedBy(before, i, r);
    }
  }

  /** Rows as stored, of a table with these grouping columns. */
  predicate WellKeyed(columns: Columns, rows: seq<Fetched>) {
    AreColumns(columns) && forall x :: x in rows ==> IsStored(columns, x)
  }

  lemma {:induction false} RowOf(columns: Columns, rows: seq<Fetched>, k: string, r: RowRef) returns (x: Fetched)
    requires r in RowsWith(columns, rows, k)
    ensures x in rows && x.ref == r && PartKey(columns, x) == k
  {
    var last := rows[|rows| - 1];
    if r in RowsWith(columns, rows[..|rows| - 1], k) {
      x := RowOf(columns, rows[..|rows| - 1], k, r);
    } else {
      x := last;
    }
  }

  /** The bucket a call was made for, and the row it was opened for. */
  lemma BucketOf(columns: Columns, b: Batching, members: MembersOf, rows: seq<Fetched>, subs: seq<Submission>, sub: Submission)
    returns (k: string, first: Fetched)
    requires Submitted(columns, b, members, rows, Keys(columns, rows), subs) && sub in subs
    ensures FirstWith(columns, rows, k) == Some(first) && first in rows && PartKey(columns, first) == k
    ensures SentFor(b, members, first, RowsWith(columns, rows, k), sub)
  {
    k :| k in Keys(columns, rows) && IsOfBucket(columns, b, members, rows, k, sub);
    NothingWithoutFirst(columns, rows, k);
    first := FirstWith(columns, rows, k).value;
  }

  predicate SameBucket(columns: Columns, x: Fetched, y: Fetched) {
    x.conn == y.conn && PhaseOf(x) == PhaseOf(y) && GroupKey(columns, x) == GroupKey(columns, y)
  }

  /** The call marks rows like `first` only; unless combined, it ships just those, few enough. */
  ghost predicate IsCallFor(columns: Columns, b: Batching, rows: seq<Fetched>, first: Fetched, sub: Submission) {
    && sub.conn == first.conn && sub.phase == PhaseOf(first)
    && (forall r :: r in sub.marked ==> exists x :: x in rows && x.ref == r && SameBucket(columns, x, first))
    && (forall x :: x in rows && SameBucket(columns, x, first) ==> (sub.phase.Update? <==> x.status == Some(REVISADO)))
    && (!Collapses(b, first) ==> sub.payload == sub.marked && Fits(b, sub.marked))
  }

  /**
   * Main result: a call marks rows of one connection, one phase and one group; it
   * ships exactly them, at most a thousand, or, combined, every one of them.
   */
  lemma CallsAreHomogeneous(columns: Columns, b: Batching, members: MembersOf, rows: seq<Fetched>, subs: seq<Submission>, sub: Submission)
    requires Submitted(columns, b, members, rows, Keys(columns, rows), subs) && sub in subs && WellKeyed(columns, rows)
    requires forall x :: x in rows && x.group.GetOr("") != "" ==> x.ref in members(x.conn, x.group.value)
    ensures exists first :: first in rows && IsCallFor(columns, b, rows, first, sub)
    ensures forall r :: r in sub.marked ==> r in sub.payload
  {
    var k :| k in Keys(columns, rows) && IsOfBucket(columns, b, members, rows, k, sub);
    NothingWithoutFirst(columns, rows, k);
    var first := FirstWith(columns, rows, k).value;
    forall r | r in sub.marked
      ensures exists x :: x in rows && x.ref == r && SameBucket(columns, x, first)
      ensures r in sub.payload
    {
      var x := RowOf(columns, rows, k, r);
      KeySeparates(columns, x, first);
      assert SameBucket(columns, x, first);
    }
  }

  lemma {:induction false} RowsWithHolds(columns: Columns, rows: seq<Fetched>, x: Fetched)
    requires x in rows
    ensures x.ref in RowsWith(columns, rows, PartKey(columns, x))
  {
    if x != rows[|rows| - 1] {
      RowsWithHolds(columns, rows[..|rows| - 1], x);
    }
  }

  /** A combined call that marks one row of a group marks every fetched row of its bucket. */
  lemma CombinedCallTakesTheBucket(columns: Columns, b: Batching, members: MembersOf, rows: seq<Fetched>,
                                   subs: seq<Submission>, sub: Submission, x: Fetched, y: Fetched)
    requires Submitted(columns, b, members, rows, Keys(columns, rows), subs) && sub in subs && WellKeyed(columns, rows)
    requires x in rows && y in rows && x.ref in sub.marked && forall z :: z in rows && z.ref == x.ref ==> z == x
    requires b.collapse && x.group.GetOr("") != "" && SameBucket(columns, x, y)
    ensures y.ref in sub.marked
  {
    var k :| k in Keys(columns, rows) && IsOfBucket(columns, b, members, rows, k, sub);
    var z := RowOf(columns, rows, k, x.ref);
    NothingWithoutFirst(columns, rows, k);
    var first := FirstWith(columns, rows, k).value;
    KeySeparates(columns, first, x);
    RowsWithHolds(columns, rows, y);
  }
}
