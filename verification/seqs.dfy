/**
 Element-wise projection of a sequence, the shape of every `SELECT col, …`
 the journal issues, and the fact that projecting two permutations of one
 another gives two permutations of one another.
 */
module Seqs {

  function MapSeq<A, B>(f: A -> B, xs: seq<A>): (ys: seq<B>)
    ensures |ys| == |xs|
    ensures forall i :: 0 <= i < |xs| ==> ys[i] == f(xs[i])
  {
    seq(|xs|, i requires 0 <= i < |xs| => f(xs[i]))
  }

  lemma MapSeqAppend<A, B>(f: A -> B, xs: seq<A>, ys: seq<A>)
    ensures MapSeq(f, xs + ys) == MapSeq(f, xs) + MapSeq(f, ys)
  {
  }

  /** Projection commutes with reordering: it maps permutations to permutations. */
  lemma {:induction false} MapSeqPermutation<A, B>(f: A -> B, xs: seq<A>, ys: seq<A>)
    requires multiset(xs) == multiset(ys)
    ensures multiset(MapSeq(f, xs)) == multiset(MapSeq(f, ys))
    decreases |xs|
  {
    if xs == [] {
      assert |ys| == |multiset(ys)| == 0;
    } else {
      var x := xs[0];
      assert x in multiset(ys);
      var k :| 0 <= k < |ys| && ys[k] == x;
      var rest := ys[..k] + ys[k + 1..];
      assert ys == ys[..k] + [x] + ys[k + 1..];
      assert xs == [x] + xs[1..];
      calc {
        multiset(xs[1..]);
        multiset(xs) - multiset{x};
        multiset(ys) - multiset{x};
        { assert multiset(ys) == multiset(ys[..k]) + multiset{x} + multiset(ys[k + 1..]); }
        multiset(rest);
      }
      MapSeqPermutation(f, xs[1..], rest);
      MapSeqAppend(f, [x], xs[1..]);
      MapSeqAppend(f, ys[..k], ys[k + 1..]);
      MapSeqAppend(f, ys[..k] + [x], ys[k + 1..]);
      MapSeqAppend(f, ys[..k], [x]);
    }
  }
}
