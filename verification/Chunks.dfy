/** Cutting a list into consecutive pieces, as `chunkRows` and `chunk1000` do. */
module Chunks {

  function Concat<T>(pieces: seq<seq<T>>): seq<T> {
    if pieces == [] then [] else Concat(pieces[..|pieces| - 1]) + pieces[|pieces| - 1]
  }

  lemma Assoc<T>(a: seq<T>, b: seq<T>, c: seq<T>)
    ensures (a + b) + c == a + (b + c)
  {
  }

  lemma TakeNext<T>(s: seq<T>, i: nat)
    requires i < |s|
    ensures s[..i + 1] == s[..i] + [s[i]]
  {
  }

  lemma ConcatSnoc<T>(pieces: seq<seq<T>>, p: seq<T>)
    ensures Concat(pieces + [p]) == Concat(pieces) + p
  {
    assert (pieces + [p])[..|pieces|] == pieces;
  }

  lemma ConcatNext<T>(pieces: seq<seq<T>>, i: nat)
    requires i < |pieces|
    ensures Concat(pieces[..i + 1]) == Concat(pieces[..i]) + pieces[i]
  {
    assert pieces[..i + 1][..i] == pieces[..i];
  }

  lemma {:induction false} ConcatPrefix<T>(pieces: seq<seq<T>>, i: nat)
    requires i <= |pieces|
    ensures Concat(pieces[..i]) <= Concat(pieces)
  {
    if i < |pieces| {
      ConcatPrefix(pieces[..|pieces| - 1], i);
      assert pieces[..|pieces| - 1][..i] == pieces[..i];
    } else {
      assert pieces[..i] == pieces;
    }
  }

  /** The pieces put together are the list; every piece but the last is full. */
  method ChunkRows<T>(items: seq<T>, size: int) returns (pieces: seq<seq<T>>)
    requires size > 0
    ensures Concat(pieces) == items
    ensures forall p :: p in pieces ==> 0 < |p| <= size
    ensures forall i :: 0 <= i < |pieces| - 1 ==> |pieces[i]| == size
  {
    pieces := [];
    var i := 0;
    while i < |items|
      invariant 0 <= i
      invariant Concat(pieces) == items[..if i < |items| then i else |items|]
      invariant forall p :: p in pieces ==> 0 < |p| <= size
      invariant forall j :: 0 <= j < |pieces| ==> |pieces[j]| == size || (j == |pieces| - 1 && i >= |items|)
    {
      var piece := items[i..if i + size < |items| then i + size else |items|];
      ConcatSnoc(pieces, piece);
      pieces := pieces + [piece];
      i := i + size;
    }
  }
}
