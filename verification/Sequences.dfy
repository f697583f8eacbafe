/** Sequences of sequences. */
module Sequences {

  function Flatten<S>(batches: seq<seq<S>>): seq<S>
  {
    if batches == [] then [] else Flatten(batches[..|batches| - 1]) + batches[|batches| - 1]
  }

  lemma FlattenSnoc<S>(batches: seq<seq<S>>, b: seq<S>)
    ensures Flatten(batches + [b]) == Flatten(batches) + b
  {
    assert (batches + [b])[..|batches|] == batches;
  }

  lemma {:induction false} FlattenAppend<S>(a: seq<seq<S>>, b: seq<seq<S>>)
    ensures Flatten(a + b) == Flatten(a) + Flatten(b)
  {
    if b == [] {
      assert a + b == a;
    } else {
      var rest, last := b[..|b| - 1], b[|b| - 1];
      assert a + b == (a + rest) + [last];
      FlattenAppend(a, rest);
      FlattenSnoc(a + rest, last);
    }
  }

  /** `n` blocks of one size. */
  function Total(n: nat, size: nat): nat
  {
    n * size
  }

  /** Element `j` of block `i`. */
  function Place(i: nat, size: nat, j: nat): nat
  {
    i * size + j
  }

  lemma PlaceFits(i: nat, n: nat, size: nat, j: nat)
    requires i < n && j < size
    ensures Place(i, size, j) < Total(n, size)
  {
    assert (i + 1) * size <= n * size;
    assert (i + 1) * size == i * size + size;
  }

  lemma OneMoreBlock(n: nat, size: nat)
    ensures Total(n + 1, size) == Total(n, size) + size && Total(0, size) == 0
    ensures forall j: nat :: Place(n, size, j) == Total(n, size) + j
  {
  }

  lemma {:induction false} FlattenLength<S>(blocks: seq<seq<S>>, size: nat)
    requires forall i :: 0 <= i < |blocks| ==> |blocks[i]| == size
    ensures |Flatten(blocks)| == Total(|blocks|, size)
  {
    hide Total, Place;
    OneMoreBlock(|blocks|, size);
    if blocks != [] {
      OneMoreBlock(|blocks| - 1, size);
      FlattenLength(blocks[..|blocks| - 1], size);
    }
  }

  /** Flattening blocks of one size puts element `j` of block `i` at its place. */
  lemma {:induction false} FlattenAt<S>(blocks: seq<seq<S>>, size: nat, i: nat, j: nat)
    requires forall i :: 0 <= i < |blocks| ==> |blocks[i]| == size
    requires i < |blocks| && j < size
    ensures Place(i, size, j) < |Flatten(blocks)| == Total(|blocks|, size)
    ensures Flatten(blocks)[Place(i, size, j)] == blocks[i][j]
  {
    hide Total, Place;
    var n := |blocks| - 1;
    FlattenLength(blocks[..n], size);
    FlattenLength(blocks, size);
    PlaceFits(i, |blocks|, size, j);
    OneMoreBlock(n, size);
    if i < n { FlattenAt(blocks[..n], size, i, j); }
  }

  /** The elements to keep, in their order. */
  function Filter<S>(keep: S -> bool, s: seq<S>): seq<S>
  {
    if s == [] then []
    else Filter(keep, s[..|s| - 1]) + if keep(s[|s| - 1]) then [s[|s| - 1]] else []
  }

  lemma {:induction false} FilterAppend<S>(keep: S -> bool, a: seq<S>, b: seq<S>)
    ensures Filter(keep, a + b) == Filter(keep, a) + Filter(keep, b)
  {
    if b == [] {
      assert a + b == a;
    } else {
      var rest := b[..|b| - 1];
      FilterAppend(keep, a, rest);
      assert (a + b)[..|a + b| - 1] == a + rest;
    }
  }

  lemma {:induction false} FilterAll<S>(keep: S -> bool, s: seq<S>, all: bool)
    requires forall x <- s :: keep(x) == all
    ensures Filter(keep, s) == if all then s else []
  {
    if s != [] {
      FilterAll(keep, s[..|s| - 1], all);
      assert s == s[..|s| - 1] + [s[|s| - 1]];
    }
  }
}
