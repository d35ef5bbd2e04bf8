/**
 * The backup container: a sequence of tables, each a length-prefixed name
 * followed by length-prefixed chunks and an empty one, written by `dumpTables`
 * and read back by `restoreTables` from buffers cut anywhere.
 */
module Backup {
  import opened Chunks
  import opened Rows

  type Byte = x: int | 0 <= x < 256
  type Bytes = seq<Byte>

  const LIMIT: int := 0x1_0000_0000

  /** A table and the chunks its COPY stream delivered. */
  datatype Dump = Dump(name: Bytes, chunks: seq<Bytes>)

  // ------------------------------------------------------------ the format

  /** Little endian; the lengths that fit are those below `LIMIT`. */
  function U32(n: nat): (b: Bytes)
    ensures |b| == 4
  {
    [n % 256, n / 256 % 256, n / 65536 % 256, n / 16777216 % 256]
  }

  function ReadU32(b: Bytes): (n: int)
    requires |b| == 4
    ensures 0 <= n < LIMIT
  {
    (b[0] as int) + 256 * (b[1] as int) + 65536 * (b[2] as int) + 16777216 * (b[3] as int)
  }

  lemma U32RoundTrip(n: nat)
    requires n < LIMIT
    ensures ReadU32(U32(n)) == n
  {
    assert n / 65536 == n / 256 / 256;
    assert n / 16777216 == n / 65536 / 256;
  }

  /** The low byte first: what a length holds above it follows as a smaller length would. */
  lemma LowByteFirst(n: nat, c: Byte)
    requires n < 0x1_00_0000
    ensures U32(256 * n + c) == [c] + U32(n)[..3]
    ensures U32(0) == [0, 0, 0, 0]
  {
    assert (256 * n + c) % 256 == c && (256 * n + c) / 256 == n;
    assert (256 * n + c) / 65536 == n / 256;
    assert (256 * n + c) / 16777216 == n / 65536;
  }

  predicate Fits(d: Dump) {
    |d.name| < LIMIT && forall c :: c in d.chunks ==> |c| < LIMIT
  }

  /** The COPY stream delivered no empty buffer: an empty chunk means end of table. */
  predicate NoEmptyChunk(d: Dump) {
    forall c :: c in d.chunks ==> c != []
  }

  function EncodeChunk(c: Bytes): Bytes
  {
    U32(|c|) + c
  }

  function EncodeSome(chunks: seq<Bytes>): Bytes
  {
    if chunks == [] then [] else EncodeSome(chunks[..|chunks| - 1]) + EncodeChunk(chunks[|chunks| - 1])
  }

  /** The chunks of a table and its end mark. */
  function EncodeChunks(chunks: seq<Bytes>): Bytes
  {
    EncodeSome(chunks) + U32(0)
  }

  function EncodeTable(d: Dump): Bytes
  {
    EncodeChunk(d.name) + EncodeChunks(d.chunks)
  }

  function Encode(ds: seq<Dump>): Bytes
  {
    if ds == [] then [] else Encode(ds[..|ds| - 1]) + EncodeTable(ds[|ds| - 1])
  }

  // ---------------------------------------------- reading an unbuffered artefact

  /** The chunks up to the empty one, and what follows it; None when cut short. */
  function ParseChunks(b: Bytes): Option<(seq<Bytes>, Bytes)>
    decreases |b|
  {
    if |b| < 4 then None
    else
      var n := ReadU32(b[..4]);
      if n == 0 then Some(([], b[4..]))
      else if |b| - 4 < n then None
      else
        match ParseChunks(b[4 + n..])
        case Some((cs, rest)) => Some(([b[4..4 + n]] + cs, rest))
        case None => None
  }

  lemma {:induction false} ParseChunksShrinks(b: Bytes)
    ensures ParseChunks(b).Some? ==> |ParseChunks(b).value.1| < |b|
    decreases |b|
  {
    if |b| >= 4 {
      var n := ReadU32(b[..4]);
      if n != 0 && |b| - 4 >= n {
        ParseChunksShrinks(b[4 + n..]);
      }
    }
  }

  datatype Parsed = Parsed(tables: seq<Dump>, ok: bool)

  /** The complete tables at the head of an artefact; not ok when the next one is cut short. */
  function Parse(b: Bytes): Parsed
    decreases |b|
  {
    if |b| < 4 then Parsed([], true)
    else
      var n := ReadU32(b[..4]);
      if |b| - 4 < n then Parsed([], false)
      else
        ParseChunksShrinks(b[4 + n..]);
        match ParseChunks(b[4 + n..])
        case None => Parsed([], false)
        case Some((cs, rest)) =>
          var more := Parse(rest);
          Parsed([Dump(b[4..4 + n], cs)] + more.tables, more.ok)
  }

  /** The table whose name is there and whose end mark is not: the artefact ends inside its data. */
  function OpenTable(b: Bytes): Option<Bytes>
    decreases |b|
  {
    if |b| < 4 then None
    else
      var n := ReadU32(b[..4]);
      if |b| - 4 < n then None
      else
        ParseChunksShrinks(b[4 + n..]);
        match ParseChunks(b[4 + n..])
        case None => Some(b[4..4 + n])
        case Some((_, rest)) => OpenTable(rest)
  }

  // ---------------------------------------------------- bytes put together

  /** Where a prefix of two joined pieces ends. */
  lemma PrefixSplit(q: Bytes, a: Bytes, b: Bytes)
    requires q <= a + b
    ensures |q| < |a| ==> q < a
    ensures |q| >= |a| ==> q == a + q[|a|..] && q[|a|..] <= b && (q != a + b ==> q[|a|..] != b)
  {
    assert q == (a + b)[..|q|];
  }

  lemma ConsLast<T>(x: T, s: seq<T>)
    requires s != []
    ensures ([x] + s)[..|s|] == [x] + s[..|s| - 1] && ([x] + s)[|s|] == s[|s| - 1]
  {
  }

  lemma {:induction false} EncodeSomeCons(c: Bytes, chunks: seq<Bytes>)
    ensures EncodeSome([c] + chunks) == EncodeChunk(c) + EncodeSome(chunks)
  {
    if chunks == [] {
      assert [c] + chunks == [c] && [c][..0] == [];
    } else {
      var before, last := chunks[..|chunks| - 1], chunks[|chunks| - 1];
      EncodeSomeCons(c, before);
      ConsLast(c, chunks);
      Assoc(EncodeChunk(c), EncodeSome(before), EncodeChunk(last));
    }
  }

  /** The encoding of a table's chunks, first chunk first. */
  lemma EncodeChunksCons(chunks: seq<Bytes>, rest: Bytes)
    requires chunks != []
    ensures EncodeChunks(chunks) + rest == EncodeChunk(chunks[0]) + (EncodeChunks(chunks[1..]) + rest)
    ensures EncodeChunks(chunks) == EncodeChunk(chunks[0]) + EncodeChunks(chunks[1..])
  {
    assert chunks == [chunks[0]] + chunks[1..];
    EncodeSomeCons(chunks[0], chunks[1..]);
    Assoc(EncodeChunk(chunks[0]), EncodeSome(chunks[1..]), U32(0));
    Assoc(EncodeChunk(chunks[0]), EncodeChunks(chunks[1..]), rest);
  }

  lemma EncodeSnoc(ds: seq<Dump>, d: Dump)
    ensures Encode(ds + [d]) == Encode(ds) + EncodeTable(d)
  {
    assert (ds + [d])[..|ds|] == ds;
  }

  lemma EncodeSomeSnoc(chunks: seq<Bytes>, c: Bytes)
    ensures EncodeSome(chunks + [c]) == EncodeSome(chunks) + EncodeChunk(c)
  {
    assert (chunks + [c])[..|chunks|] == chunks;
  }

  lemma EncodeSomeNext(chunks: seq<Bytes>, i: nat)
    requires i < |chunks|
    ensures EncodeSome(chunks[..i + 1]) == EncodeSome(chunks[..i]) + EncodeChunk(chunks[i])
  {
    assert chunks[..i + 1][..i] == chunks[..i];
  }

  lemma {:induction false} EncodeCons(d: Dump, ds: seq<Dump>)
    ensures Encode([d] + ds) == EncodeTable(d) + Encode(ds)
  {
    if ds == [] {
      assert [d] + ds == [d] && [d][..0] == [];
    } else {
      var before, last := ds[..|ds| - 1], ds[|ds| - 1];
      EncodeCons(d, before);
      ConsLast(d, ds);
      Assoc(EncodeTable(d), Encode(before), EncodeTable(last));
    }
  }

  lemma EncodeHead(ds: seq<Dump>)
    requires ds != []
    ensures Encode(ds) == EncodeTable(ds[0]) + Encode(ds[1..])
  {
    assert ds == [ds[0]] + ds[1..];
    EncodeCons(ds[0], ds[1..]);
  }

  // ------------------------------------------------- parsing what was written

  /** A length-prefixed piece read off the front of the bytes it was written to. */
  lemma HeaderSplit(body: Bytes, rest: Bytes)
    requires |body| < LIMIT
    ensures var n, b := |body|, EncodeChunk(body) + rest;
            |b| == 4 + n + |rest| && b[..4] == U32(n) && ReadU32(b[..4]) == n && b[4..4 + n] == body && b[4 + n..] == rest
  {
    U32RoundTrip(|body|);
    assert (EncodeChunk(body) + rest)[..4] == U32(|body|);
  }

  lemma ParseOneChunk(c: Bytes, rest: Bytes)
    requires c != [] && |c| < LIMIT
    ensures ParseChunks(EncodeChunk(c) + rest) ==
            match ParseChunks(rest) case Some((cs, r)) => Some(([c] + cs, r)) case None => None
  {
    HeaderSplit(c, rest);
  }

  lemma ParseEndOfTable(rest: Bytes)
    ensures ParseChunks(U32(0) + rest) == Some(([], rest))
  {
    HeaderSplit([], rest);
    assert EncodeChunk([]) == U32(0);
  }

  lemma {:induction false} ParseChunksOfEncoded(chunks: seq<Bytes>, rest: Bytes)
    requires forall c :: c in chunks ==> c != [] && |c| < LIMIT
    ensures ParseChunks(EncodeChunks(chunks) + rest) == Some((chunks, rest))
  {
    if chunks == [] {
      ParseEndOfTable(rest);
      assert EncodeChunks([]) == U32(0);
    } else {
      var c, cs := chunks[0], chunks[1..];
      assert chunks == [c] + cs && c in chunks;
      ParseChunksOfEncoded(cs, rest);
      EncodeChunksCons(chunks, rest);
      ParseOneChunk(c, EncodeChunks(cs) + rest);
    }
  }

  /** Reading a table whose name comes first. */
  lemma ParseNamed(name: Bytes, body: Bytes)
    requires |name| < LIMIT
    ensures Parse(EncodeChunk(name) + body) ==
            match ParseChunks(body)
            case None => Parsed([], false)
            case Some((cs, rest)) => Parsed([Dump(name, cs)] + Parse(rest).tables, Parse(rest).ok)
  {
    HeaderSplit(name, body);
  }

  lemma ParseOneTable(d: Dump, rest: Bytes)
    requires Fits(d) && NoEmptyChunk(d)
    ensures Parse(EncodeTable(d) + rest) == Parsed([d] + Parse(rest).tables, Parse(rest).ok)
  {
    ParseChunksOfEncoded(d.chunks, rest);
    Assoc(EncodeChunk(d.name), EncodeChunks(d.chunks), rest);
    ParseNamed(d.name, EncodeChunks(d.chunks) + rest);
  }

  /** A prefix of a length-prefixed piece and more: the length is there, and maybe the piece. */
  lemma CutHeader(body: Bytes, tail: Bytes, q: Bytes)
    requires |body| < LIMIT && q < EncodeChunk(body) + tail && |q| >= 4
    ensures ReadU32(q[..4]) == |body|
    ensures |q| - 4 >= |body| ==> q[4 + |body|..] < tail
  {
    HeaderSplit(body, tail);
    PrefixSplit(q, EncodeChunk(body), tail);
    assert q[..4] == (EncodeChunk(body) + tail)[..4];
  }

  /** A cut inside the chunks of a table is noticed. */
  lemma {:induction false} CutChunksFail(chunks: seq<Bytes>, q: Bytes)
    requires forall c :: c in chunks ==> c != [] && |c| < LIMIT
    requires q < EncodeChunks(chunks)
    ensures ParseChunks(q) == None
  {
    if |q| >= 4 && chunks != [] {
      EncodeChunksCons(chunks, []);
      CutHeader(chunks[0], EncodeChunks(chunks[1..]), q);
      if |q| - 4 >= |chunks[0]| {
        CutChunksFail(chunks[1..], q[4 + |chunks[0]|..]);
      }
    }
  }

  lemma CutInside(name: Bytes, chunks: seq<Bytes>, q: Bytes)
    requires |name| < LIMIT && forall c :: c in chunks ==> c != [] && |c| < LIMIT
    requires q < EncodeChunk(name) + EncodeChunks(chunks) && |q| >= 4
    ensures ReadU32(q[..4]) == |name|
    ensures |q| - 4 >= |name| ==> ParseChunks(q[4 + |name|..]) == None
  {
    CutHeader(name, EncodeChunks(chunks), q);
    if |q| - 4 >= |name| {
      CutChunksFail(chunks, q[4 + |name|..]);
    }
  }

  /** An artefact that ends inside its first table. */
  lemma ParseCut(q: Bytes, n: nat)
    requires |q| >= 4 ==> ReadU32(q[..4]) == n && (|q| - 4 >= n ==> ParseChunks(q[4 + n..]) == None)
    ensures Parse(q) == Parsed([], |q| < 4)
  {
  }

  /** A cut inside a table is noticed, unless it leaves less than a length prefix. */
  lemma CutTable(d: Dump, q: Bytes)
    requires Fits(d) && NoEmptyChunk(d) && q < EncodeTable(d)
    ensures Parse(q) == Parsed([], |q| < 4)
  {
    if |q| < 4 {
      ParseCut(q, 0);
    } else {
      CutInside(d.name, d.chunks, q);
      ParseCut(q, |d.name|);
    }
  }

  /** How many whole tables the first `n` bytes of an artefact hold, and the bytes after them. */
  function WholeTables(ds: seq<Dump>, n: nat): (nat, nat)
  {
    if ds == [] || n < |EncodeTable(ds[0])| then (0, n)
    else
      var (k, rest) := WholeTables(ds[1..], n - |EncodeTable(ds[0])|);
      (k + 1, rest)
  }

  lemma TakeCons(ds: seq<Dump>, k: nat)
    requires ds != [] && k <= |ds| - 1
    ensures [ds[0]] + ds[1..][..k] == ds[..k + 1]
  {
  }

  /** One more whole table in front of a prefix. */
  lemma PrefixOneMore(ds: seq<Dump>, p: Bytes, q: Bytes)
    requires ds != [] && Fits(ds[0]) && NoEmptyChunk(ds[0]) && p == EncodeTable(ds[0]) + q
    requires var (k, rest) := WholeTables(ds[1..], |q|);
             k <= |ds| - 1 && Parse(q) == Parsed(ds[1..][..k], rest < 4)
    ensures var (k, rest) := WholeTables(ds, |p|);
            k <= |ds| && Parse(p) == Parsed(ds[..k], rest < 4)
  {
    ParseOneTable(ds[0], q);
    var k := WholeTables(ds[1..], |q|).0;
    TakeCons(ds, k);
    assert WholeTables(ds, |p|).0 == k + 1;
  }

  /** Parsing any prefix of an artefact yields its whole tables, and complains exactly past a length prefix. */
  lemma {:induction false} ParsePrefix(ds: seq<Dump>, p: Bytes)
    requires forall d :: d in ds ==> Fits(d) && NoEmptyChunk(d)
    requires p <= Encode(ds)
    ensures var (k, rest) := WholeTables(ds, |p|);
            k <= |ds| && Parse(p) == Parsed(ds[..k], rest < 4)
  {
    if ds != [] {
      var one, tail := EncodeTable(ds[0]), Encode(ds[1..]);
      EncodeHead(ds);
      PrefixSplit(p, one, tail);
      if |p| < |one| {
        CutTable(ds[0], p);
      } else {
        ParsePrefix(ds[1..], p[|one|..]);
        PrefixOneMore(ds, p, p[|one|..]);
      }
    }
  }

  lemma OpenAfterTable(d: Dump, rest: Bytes)
    requires Fits(d) && NoEmptyChunk(d)
    ensures OpenTable(EncodeTable(d) + rest) == OpenTable(rest)
  {
    ParseChunksOfEncoded(d.chunks, rest);
    Assoc(EncodeChunk(d.name), EncodeChunks(d.chunks), rest);
    HeaderSplit(d.name, EncodeChunks(d.chunks) + rest);
  }

  lemma NameOfCut(d: Dump, q: Bytes)
    requires |d.name| < LIMIT && q < EncodeTable(d) && |q| >= 4 + |d.name|
    ensures q[4..4 + |d.name|] == d.name
  {
    HeaderSplit(d.name, EncodeChunks(d.chunks));
    assert q[4..4 + |d.name|] == EncodeTable(d)[4..4 + |d.name|];
  }

  lemma OpenInside(d: Dump, q: Bytes)
    requires Fits(d) && NoEmptyChunk(d) && q < EncodeTable(d)
    ensures OpenTable(q) == if |q| >= 4 + |d.name| then Some(d.name) else None
  {
    if |q| >= 4 {
      CutInside(d.name, d.chunks, q);
      if |q| >= 4 + |d.name| {
        NameOfCut(d, q);
      }
    }
  }

  /** A cut artefact ends inside the data of a table exactly when the whole name of the next one is left. */
  lemma {:induction false} OpenTableOfCut(ds: seq<Dump>, p: Bytes)
    requires forall d :: d in ds ==> Fits(d) && NoEmptyChunk(d)
    requires p <= Encode(ds)
    ensures var (k, rest) := WholeTables(ds, |p|);
            OpenTable(p) == if k < |ds| && rest >= 4 + |ds[k].name| then Some(ds[k].name) else None
  {
    if ds != [] {
      var one, tail := EncodeTable(ds[0]), Encode(ds[1..]);
      EncodeHead(ds);
      PrefixSplit(p, one, tail);
      if |p| < |one| {
        OpenInside(ds[0], p);
      } else {
        var q := p[|one|..];
        OpenTableOfCut(ds[1..], q);
        OpenAfterTable(ds[0], q);
        assert OpenTable(p) == OpenTable(q);
      }
    }
  }

  lemma {:induction false} WholeArtefact(ds: seq<Dump>)
    ensures WholeTables(ds, |Encode(ds)|) == (|ds|, 0)
  {
    if ds != [] {
      EncodeHead(ds);
      WholeArtefact(ds[1..]);
    }
  }

  // ------------------------------------------------------------ main results

  /** No list of tables means all of them. */
  predicate Wants(wanted: Option<set<Bytes>>, name: Bytes) {
    wanted.None? || name in wanted.value
  }

  function Filtered(ds: seq<Dump>, wanted: Option<set<Bytes>>): seq<Dump> {
    if ds == [] then []
    else Filtered(ds[..|ds| - 1], wanted)
         + (if Wants(wanted, ds[|ds| - 1].name) then [ds[|ds| - 1]] else [])
  }

  lemma FilteredSnoc(ds: seq<Dump>, d: Dump, wanted: Option<set<Bytes>>)
    ensures Filtered(ds + [d], wanted)
         == if Wants(wanted, d.name) then Filtered(ds, wanted) + [d] else Filtered(ds, wanted)
  {
    assert (ds + [d])[..|ds|] == ds;
  }

  /** The tables asked for. */
  lemma {:induction false} FilteredAreWanted(ds: seq<Dump>, wanted: Option<set<Bytes>>)
    ensures forall d :: d in Filtered(ds, wanted) <==> d in ds && (wanted.Some? ==> d.name in wanted.value)
  {
    if ds != [] {
      var before, last := ds[..|ds| - 1], ds[|ds| - 1];
      FilteredAreWanted(before, wanted);
      assert ds == before + [last];
    }
  }

  /** All of them in their order when none is named, or each. */
  lemma {:induction false} FilteredAreAll(ds: seq<Dump>, wanted: Option<set<Bytes>>)
    requires forall d :: d in ds && wanted.Some? ==> d.name in wanted.value
    ensures Filtered(ds, wanted) == ds
  {
    if ds != [] {
      FilteredAreAll(ds[..|ds| - 1], wanted);
      assert ds[|ds| - 1] in ds && ds == ds[..|ds| - 1] + [ds[|ds| - 1]];
    }
  }

  /**
   * Main result: of an artefact cut anywhere, exactly its whole tables are
   * restored; the cut is reported exactly when it leaves a length prefix or more.
   */
  lemma RestoreOfCutArtefact(ds: seq<Dump>, cut: nat)
    requires forall d :: d in ds ==> Fits(d) && NoEmptyChunk(d)
    requires cut <= |Encode(ds)|
    ensures var (k, rest) := WholeTables(ds, cut);
            k <= |ds| && Parse(Encode(ds)[..cut]) == Parsed(ds[..k], rest < 4)
    ensures Parse(Encode(ds)) == Parsed(ds, true)
  {
    ParsePrefix(ds, Encode(ds)[..cut]);
    ParsePrefix(ds, Encode(ds));
    WholeArtefact(ds);
    assert ds[..|ds|] == ds;
  }

  /** The bytes of a table, however its stream was cut into chunks. */
  function Join(chunks: seq<Bytes>): Bytes {
    if chunks == [] then [] else chunks[0] + Join(chunks[1..])
  }

  function Contents(ds: seq<Dump>): seq<(Bytes, Bytes)> {
    if ds == [] then [] else [(ds[0].name, Join(ds[0].chunks))] + Contents(ds[1..])
  }

  /** How many chunks come before the first empty one. */
  function BeforeEmpty(chunks: seq<Bytes>): (i: nat)
    requires [] in chunks
    ensures i < |chunks| && chunks[i] == [] && forall j :: 0 <= j < i ==> chunks[j] != []
  {
    if chunks[0] == [] then 0 else 1 + BeforeEmpty(chunks[1..])
  }

  lemma {:induction false} EncodeSomeConcat(a: seq<Bytes>, b: seq<Bytes>)
    ensures EncodeSome(a + b) == EncodeSome(a) + EncodeSome(b)
  {
    if b == [] {
      assert a + b == a;
    } else {
      var before, last := b[..|b| - 1], b[|b| - 1];
      EncodeSomeConcat(a, before);
      assert a + b == (a + before) + [last];
      EncodeSomeSnoc(a + before, last);
      Assoc(EncodeSome(a), EncodeSome(before), EncodeChunk(last));
    }
  }

  /** An empty chunk in the middle is written like an end mark. */
  lemma EncodeAround(before: seq<Bytes>, after: seq<Bytes>, rest: Bytes)
    ensures EncodeChunks(before + [[]] + after) + rest == EncodeChunks(before) + (EncodeChunks(after) + rest)
  {
    EncodeSomeConcat(before + [[]], after);
    EncodeSomeSnoc(before, []);
    assert EncodeChunk([]) == U32(0);
    Assoc(EncodeChunks(before), EncodeSome(after), U32(0));
    Assoc(EncodeChunks(before), EncodeChunks(after), rest);
  }

  /** An empty chunk ends the table for the reader. */
  lemma ParseStopsAtEmptyChunk(chunks: seq<Bytes>, rest: Bytes)
    requires [] in chunks && forall c :: c in chunks ==> |c| < LIMIT
    ensures var i := BeforeEmpty(chunks);
            ParseChunks(EncodeChunks(chunks) + rest) == Some((chunks[..i], EncodeChunks(chunks[i + 1..]) + rest))
  {
    var i := BeforeEmpty(chunks);
    var before, after := chunks[..i], chunks[i + 1..];
    assert chunks == before + [[]] + after;
    EncodeAround(before, after, rest);
    ParseChunksOfEncoded(before, EncodeChunks(after) + rest);
  }

  lemma {:induction false} JoinSplit(chunks: seq<Bytes>, i: nat)
    requires i <= |chunks|
    ensures Join(chunks) == Join(chunks[..i]) + Join(chunks[i..])
  {
    if i > 0 {
      JoinSplit(chunks[1..], i - 1);
      assert chunks[..i][1..] == chunks[1..][..i - 1] && chunks[1..][i - 1..] == chunks[i..];
    } else {
      assert chunks[i..] == chunks;
    }
  }

  lemma {:induction false} EmptyJoin(chunks: seq<Bytes>)
    requires Join(chunks) == []
    ensures forall c :: c in chunks ==> c == []
  {
    if chunks != [] {
      assert chunks == [chunks[0]] + chunks[1..];
      EmptyJoin(chunks[1..]);
    }
  }

  /** What the reader makes of zero bytes where it expects a table name. */
  lemma NamelessTable(chunks: seq<Bytes>, rest: Bytes)
    requires Join(chunks) == [] && forall c :: c in chunks ==> |c| < LIMIT
    ensures var p := Parse(EncodeChunks(chunks) + rest);
            !p.ok || (p.tables != [] && p.tables[0].name == [])
  {
    EmptyJoin(chunks);
    assert EncodeChunk([]) == U32(0);
    if chunks == [] {
      assert EncodeChunks(chunks) == U32(0);
      ParseNamed([], rest);
    } else {
      EncodeChunksCons(chunks, rest);
      ParseNamed([], EncodeChunks(chunks[1..]) + rest);
    }
  }

  /** A table with an empty chunk is read as its chunks before it; the rest becomes another table. */
  lemma MisreadParse(d: Dump, rest: Bytes)
    requires Fits(d) && !NoEmptyChunk(d)
    ensures var i := BeforeEmpty(d.chunks);
            var left := Parse(EncodeChunks(d.chunks[i + 1..]) + rest);
            Parse(EncodeTable(d) + rest) == Parsed([Dump(d.name, d.chunks[..i])] + left.tables, left.ok)
  {
    ParseStopsAtEmptyChunk(d.chunks, rest);
    Assoc(EncodeChunk(d.name), EncodeChunks(d.chunks), rest);
    ParseNamed(d.name, EncodeChunks(d.chunks) + rest);
  }

  lemma NothingAfter(chunks: seq<Bytes>, i: nat)
    requires i < |chunks| && chunks[i] == [] && Join(chunks[..i]) == Join(chunks)
    ensures Join(chunks[i + 1..]) == []
  {
    JoinSplit(chunks, i);
    assert chunks[i..][1..] == chunks[i + 1..];
  }

  /** What was read cannot be the table `d` and whatever followed it. */
  predicate Misread(p: Parsed, d: Dump) {
    p.ok ==> p.tables != [] && (p.tables[0].name != d.name || Join(p.tables[0].chunks) != Join(d.chunks)
                                || (|p.tables| > 1 && p.tables[1].name == []))
  }

  lemma MisreadShape(d: Dump, i: nat, left: Parsed)
    requires i <= |d.chunks|
    requires Join(d.chunks[..i]) == Join(d.chunks) ==> left.ok ==> left.tables != [] && left.tables[0].name == []
    ensures Misread(Parsed([Dump(d.name, d.chunks[..i])] + left.tables, left.ok), d)
  {
  }

  lemma MisreadTable(d: Dump, rest: Bytes)
    requires Fits(d) && !NoEmptyChunk(d)
    ensures Misread(Parse(EncodeTable(d) + rest), d)
  {
    var i := BeforeEmpty(d.chunks);
    MisreadParse(d, rest);
    if Join(d.chunks[..i]) == Join(d.chunks) {
      NothingAfter(d.chunks, i);
      NamelessTable(d.chunks[i + 1..], rest);
    }
    MisreadShape(d, i, Parse(EncodeChunks(d.chunks[i + 1..]) + rest));
  }

  /**
   * Main result: a dump of named tables is restored byte for byte exactly when no
   * COPY stream delivered an empty buffer.
   */
  lemma {:induction false} RoundTripIffNoEmptyChunk(ds: seq<Dump>)
    requires forall d :: d in ds ==> Fits(d) && d.name != []
    ensures Parse(Encode(ds)).ok && Contents(Parse(Encode(ds)).tables) == Contents(ds)
            <==> forall d :: d in ds ==> NoEmptyChunk(d)
  {
    if ds != [] {
      var d, tail := ds[0], Encode(ds[1..]);
      assert ds == [d] + ds[1..];
      EncodeHead(ds);
      RoundTripIffNoEmptyChunk(ds[1..]);
      var p := Parse(Encode(ds));
      if NoEmptyChunk(d) {
        ParseOneTable(d, tail);
        assert p.tables[1..] == Parse(tail).tables;
        assert Contents(p.tables)[1..] == Contents(Parse(tail).tables) && Contents(ds)[1..] == Contents(ds[1..]);
        assert Contents(p.tables)[0] == Contents(ds)[0];
      } else {
        MisreadTable(d, tail);
        assert d in ds;
        if p.ok && Contents(p.tables) == Contents(ds) {
          SameContents(p.tables, ds);
          assert false;
        }
      }
    }
  }

  lemma {:induction false} SameContents(as_: seq<Dump>, bs: seq<Dump>)
    requires Contents(as_) == Contents(bs)
    ensures |as_| == |bs|
    ensures forall i :: 0 <= i < |as_| ==> as_[i].name == bs[i].name && Join(as_[i].chunks) == Join(bs[i].chunks)
  {
    if as_ != [] {
      assert Contents(as_)[0] == Contents(bs)[0];
      assert Contents(as_)[1..] == Contents(as_[1..]) && Contents(bs)[1..] == Contents(bs[1..]);
      SameContents(as_[1..], bs[1..]);
    }
  }

  // ---------------------------------------------------------------- writing

  class OutFile {
    var bytes: Bytes

    constructor ()
      ensures bytes == []
    {
      bytes := [];
    }

    /** False when the length does not fit the prefix: the write rejects. */
    method WriteChunk(chunk: Bytes) returns (ok: bool)
      modifies this
      ensures ok <==> |chunk| < LIMIT
      ensures bytes == if ok then old(bytes) + EncodeChunk(chunk) else old(bytes)
    {
      if |chunk| >= LIMIT {
        return false;
      }
      bytes := bytes + U32(|chunk|);
      if chunk == [] {
        return true;
      }
      bytes := bytes + chunk;
      return true;
    }

    /** Name, chunks and end mark of every table, in order. */
    method DumpTables(ds: seq<Dump>) returns (ok: bool)
      modifies this
      ensures ok <==> forall d :: d in ds ==> Fits(d)
      ensures ok ==> bytes == old(bytes) + Encode(ds)
    {
      for i := 0 to |ds|
        invariant forall d :: d in ds[..i] ==> Fits(d)
        invariant bytes == old(bytes) + Encode(ds[..i])
      {
        assert ds[i] in ds;
        ok := DumpTable(ds[i]);
        if !ok {
          return false;
        }
        assert ds[..i + 1] == ds[..i] + [ds[i]];
        EncodeSnoc(ds[..i], ds[i]);
        Assoc(old(bytes), Encode(ds[..i]), EncodeTable(ds[i]));
      }
      assert ds[..|ds|] == ds;
      return true;
    }

    method DumpTable(d: Dump) returns (ok: bool)
      modifies this
      ensures ok <==> Fits(d)
      ensures ok ==> bytes == old(bytes) + EncodeTable(d)
    {
      ok := WriteChunk(d.name);
      if ok {
        ok := DumpChunks(d.chunks);
        if ok {
          Assoc(old(bytes), EncodeChunk(d.name), EncodeChunks(d.chunks));
        }
      }
    }

    method DumpChunks(chunks: seq<Bytes>) returns (ok: bool)
      modifies this
      ensures ok <==> forall c :: c in chunks ==> |c| < LIMIT
      ensures ok ==> bytes == old(bytes) + EncodeChunks(chunks)
    {
      for i := 0 to |chunks|
        invariant forall j :: 0 <= j < i ==> |chunks[j]| < LIMIT
        invariant bytes == old(bytes) + EncodeSome(chunks[..i])
      {
        ok := WriteChunk(chunks[i]);
        if !ok {
          return false;
        }
        EncodeSomeNext(chunks, i);
        Assoc(old(bytes), EncodeSome(chunks[..i]), EncodeChunk(chunks[i]));
      }
      assert chunks[..|chunks|] == chunks;
      ok := WriteChunk([]);
      assert EncodeChunk([]) == U32(0);
      Assoc(old(bytes), EncodeSome(chunks), U32(0));
    }
  }

  // ---------------------------------------------------------------- reading

  /** What was parsed of an artefact, and what there is still to parse. */
  ghost predicate SplitAt(whole: Parsed, done: seq<Dump>, left: Parsed) {
    whole.tables == done + left.tables && whole.ok == left.ok
  }

  lemma SplitStep(whole: Parsed, done: seq<Dump>, left: Parsed, d: Dump, left': Parsed)
    requires SplitAt(whole, done, left) && left == Parsed([d] + left'.tables, left'.ok)
    ensures SplitAt(whole, done + [d], left')
  {
  }

  /** What one turn of the restore loop read; `open` says that its COPY had not been ended. */
  datatype TableRead = EndOfFile | Truncated(open: Option<Bytes>) | Table(d: Dump)

  function WantedOpen(b: Bytes, wanted: Option<set<Bytes>>): Option<Bytes> {
    if OpenTable(b).Some? && Wants(wanted, OpenTable(b).value) then OpenTable(b) else None
  }

  /** The file stream's remaining buffers, and what was read from it too early. */
  class Reader {
    var buffers: seq<Bytes>
    var leftover: seq<Bytes>
    var leftoverLen: nat

    constructor (bufs: seq<Bytes>)
      ensures Valid() && Unread() == Join(bufs)
    {
      buffers, leftover, leftoverLen := bufs, [], 0;
    }

    ghost predicate Valid()
      reads this
    {
      leftoverLen == |Join(leftover)|
    }

    /** The bytes still to be delivered. */
    ghost function Unread(): Bytes
      reads this
    {
      Join(leftover) + Join(buffers)
    }

    /** The next `size` bytes, or None at the end of the stream with fewer left. */
    method ReadExact(size: nat) returns (r: Option<Bytes>)
      requires Valid()
      modifies this
      ensures Valid()
      ensures r.Some? <==> size <= |old(Unread())|
      ensures r.Some? ==> r.value == old(Unread())[..size] && Unread() == old(Unread())[size..]
      ensures r.None? ==> Unread() == old(Unread())
    {
      while leftoverLen < size
        invariant Valid() && Unread() == old(Unread())
        decreases |buffers|
      {
        if buffers == [] {
          return None;
        }
        var value := buffers[0];
        MoveBuffer(leftover, buffers);
        leftover := leftover + [value];
        leftoverLen := leftoverLen + |value|;
        buffers := buffers[1..];
      }
      var buf := if |leftover| == 1 then leftover[0] else Join(leftover);
      JoinOne(buf);
      assert buf == Join(leftover);
      CutFront(buf, size, Join(buffers));
      var result, rest := buf[..size], buf[size..];
      leftover := if rest != [] then [rest] else [];
      leftoverLen := |rest|;
      r := Some(result);
    }

    /**
     * Feeds every wanted table of the artefact; not ok when it ends inside one.
     * `open` is the table whose triggers are to be enabled while its COPY, cut
     * short, still runs on the connection.
     */
    method RestoreTables(wanted: Option<set<Bytes>>) returns (fed: seq<Dump>, ok: bool, open: Option<Bytes>)
      requires Valid()
      modifies this
      ensures fed == Filtered(Parse(old(Unread())).tables, wanted)
      ensures ok == Parse(old(Unread())).ok
      ensures open == WantedOpen(old(Unread()), wanted)
    {
      fed, open := [], None;
      ghost var whole, left := Parse(Unread()), Parse(Unread());
      ghost var done: seq<Dump> := [];
      while true
        invariant Valid() && left == Parse(Unread())
        invariant SplitAt(whole, done, left)
        invariant WantedOpen(Unread(), wanted) == WantedOpen(old(Unread()), wanted)
        invariant fed == Filtered(done, wanted)
        decreases |Unread()|
      {
        var read := RestoreTable(wanted);
        if !read.Table? {
          assert whole.tables == done;
          return fed, read.EndOfFile?, if read.Truncated? then read.open else None;
        }
        SplitStep(whole, done, left, read.d, Parse(Unread()));
        FilteredSnoc(done, read.d, wanted);
        done, left := done + [read.d], Parse(Unread());
        if Wants(wanted, read.d.name) {
          fed := fed + [read.d];
        }
      }
    }

    /** One table, or why there is none. */
    method RestoreTable(wanted: Option<set<Bytes>>) returns (read: TableRead)
      requires Valid()
      modifies this
      ensures Valid()
      ensures match read
              case EndOfFile => Parse(old(Unread())) == Parsed([], true) && OpenTable(old(Unread())) == None
              case Truncated(open) => Parse(old(Unread())) == Parsed([], false) && open == WantedOpen(old(Unread()), wanted)
              case Table(d) => && |Unread()| < |old(Unread())|
                               && Parse(old(Unread())) == Parsed([d] + Parse(Unread()).tables, Parse(Unread()).ok)
                               && OpenTable(old(Unread())) == OpenTable(Unread())
    {
      ghost var start := Unread();
      var lenBuf := ReadExact(4);
      if lenBuf.None? {
        return EndOfFile;
      }
      var nameLen := ReadU32(lenBuf.value);
      var name := ReadExact(nameLen);
      if name.None? {
        return Truncated(None);
      }
      TwoCuts(start, nameLen);
      ParseChunksShrinks(Unread());
      var copying := Wants(wanted, name.value);
      var chunks := ReadChunks();
      if chunks.None? {
        // The COPY stream is ended only after the end mark.
        return Truncated(if copying then Some(name.value) else None);
      }
      return Table(Dump(name.value, chunks.value));
    }

    /** The chunks of one table up to its end mark; None when the artefact ends first. */
    method ReadChunks() returns (r: Option<seq<Bytes>>)
      requires Valid()
      modifies this
      ensures Valid()
      ensures match ParseChunks(old(Unread()))
              case Some((cs, rest)) => r == Some(cs) && Unread() == rest
              case None => r == None
    {
      var chunks: seq<Bytes> := [];
      assert forall cs: seq<Bytes> :: [] + cs == cs;
      while true
        invariant Valid()
        invariant ParseChunks(old(Unread())) ==
                  match ParseChunks(Unread()) case Some((cs, rest)) => Some((chunks + cs, rest)) case None => None
        decreases |Unread()|
      {
        ghost var start := Unread();
        var lenBuf := ReadExact(4);
        if lenBuf.None? {
          return None;
        }
        var chunkLen := ReadU32(lenBuf.value);
        if chunkLen == 0 {
          assert chunks + [] == chunks;
          return Some(chunks);
        }
        var chunk := ReadExact(chunkLen);
        if chunk.None? {
          return None;
        }
        TwoCuts(start, chunkLen);
        assert forall cs: seq<Bytes> :: chunks + ([chunk.value] + cs) == chunks + [chunk.value] + cs;
        chunks := chunks + [chunk.value];
      }
    }
  }

  /** Taking a buffer from the stream into the leftovers leaves the unread bytes as they are. */
  lemma MoveBuffer(leftover: seq<Bytes>, buffers: seq<Bytes>)
    requires buffers != []
    ensures Join(leftover + [buffers[0]]) + Join(buffers[1..]) == Join(leftover) + Join(buffers)
    ensures |Join(leftover + [buffers[0]])| == |Join(leftover)| + |buffers[0]|
  {
    JoinSnoc(leftover, buffers[0]);
    Assoc(Join(leftover), buffers[0], Join(buffers[1..]));
  }

  /** Cutting `size` bytes off the front of the leftovers cuts them off the unread bytes. */
  lemma TwoCuts(b: Bytes, n: nat)
    requires 4 + n <= |b|
    ensures b[4..][..n] == b[4..4 + n] && b[4..][n..] == b[4 + n..]
  {
  }

  lemma CutFront(buf: Bytes, size: nat, more: Bytes)
    requires size <= |buf|
    ensures (buf + more)[..size] == buf[..size] && (buf + more)[size..] == buf[size..] + more
    ensures Join(if buf[size..] != [] then [buf[size..]] else []) == buf[size..]
  {
    JoinOne(buf[size..]);
  }

  lemma {:induction false} JoinSnoc(chunks: seq<Bytes>, c: Bytes)
    ensures Join(chunks + [c]) == Join(chunks) + c
  {
    JoinSplit(chunks + [c], |chunks|);
    assert (chunks + [c])[..|chunks|] == chunks && (chunks + [c])[|chunks|..] == [c];
    JoinOne(c);
  }

  lemma JoinOne(c: Bytes)
    ensures Join([c]) == c
  {
    assert [c][1..] == [];
    assert Join([c]) == c + [];
  }
}
