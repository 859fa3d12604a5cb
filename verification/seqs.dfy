/** Sequence combinators shared by the link-list filter and the hash-file
    parser, both of which are `Iterator::filter_map` pipelines in the source. */
module Seqs {
  import opened Results

  /** The payload of `o` as a zero- or one-element sequence. */
  function Kept<B>(o: Option<B>): (r: seq<B>)
    ensures |r| <= 1
    ensures o.None? <==> r == []
    ensures o.Some? ==> r == [o.value]
  {
    match o
    case Some(y) => [y]
    case None => []
  }

  /** `xs.iter().filter_map(f).collect()`: apply `f` to every element in
      order and keep the payloads of the `Some` results. */
  function FilterMap<A, B>(xs: seq<A>, f: A -> Option<B>): (r: seq<B>)
    ensures |r| <= |xs|
    decreases |xs|
  {
    if xs == [] then []
    else FilterMap(xs[..|xs| - 1], f) + Kept(f(xs[|xs| - 1]))
  }

  /** The positions of `xs` whose element `f` keeps, in increasing order. */
  function KeptIndices<A, B>(xs: seq<A>, f: A -> Option<B>): seq<nat>
    decreases |xs|
  {
    if xs == [] then []
    else KeptIndices(xs[..|xs| - 1], f) + (if f(xs[|xs| - 1]).Some? then [|xs| - 1] else [])
  }

  /** The `k`-th output is the payload of the element at the `k`-th kept position. */
  lemma {:induction false} KeptIndicesPayloads<A, B>(xs: seq<A>, f: A -> Option<B>)
    ensures |KeptIndices(xs, f)| == |FilterMap(xs, f)|
    ensures forall k :: 0 <= k < |KeptIndices(xs, f)| ==>
              KeptIndices(xs, f)[k] < |xs| && f(xs[KeptIndices(xs, f)[k]]) == Some(FilterMap(xs, f)[k])
    decreases |xs|
  {
    if xs != [] {
      var n := |xs| - 1;
      var front := xs[..n];
      KeptIndicesPayloads(front, f);
      var idx0, r0 := KeptIndices(front, f), FilterMap(front, f);
      var idx, r := KeptIndices(xs, f), FilterMap(xs, f);
      forall k | 0 <= k < |idx0|
        ensures idx[k] == idx0[k] < n && r[k] == r0[k] && xs[idx0[k]] == front[idx0[k]]
      {
      }
    }
  }

  /** Kept positions are strictly increasing. */
  lemma {:induction false} KeptIndicesIncrease<A, B>(xs: seq<A>, f: A -> Option<B>)
    ensures forall k :: 0 <= k < |KeptIndices(xs, f)| ==> KeptIndices(xs, f)[k] < |xs|
    ensures forall k, l :: 0 <= k < l < |KeptIndices(xs, f)| ==> KeptIndices(xs, f)[k] < KeptIndices(xs, f)[l]
    decreases |xs|
  {
    if xs != [] {
      var n := |xs| - 1;
      KeptIndicesIncrease(xs[..n], f);
    }
  }

  /** A position is kept exactly when `f` maps its element to `Some`. */
  lemma {:induction false} KeptIndicesMembers<A, B>(xs: seq<A>, f: A -> Option<B>)
    ensures forall i :: 0 <= i < |xs| ==> (f(xs[i]).Some? <==> i in KeptIndices(xs, f))
    decreases |xs|
  {
    if xs != [] {
      var n := |xs| - 1;
      var front := xs[..n];
      KeptIndicesMembers(front, f);
      KeptIndicesIncrease(front, f);
      forall i | 0 <= i < n
        ensures f(xs[i]).Some? <==> i in KeptIndices(xs, f)
      {
        assert xs[i] == front[i];
      }
      assert n !in KeptIndices(front, f);
    }
  }

  /** `filter_map` keeps exactly the elements `f` maps to `Some`, each
      position at most once and in the original order: output `k` is the
      payload of the element at the `k`-th kept position. */
  lemma {:induction false} FilterMapSelects<A, B>(xs: seq<A>, f: A -> Option<B>)
    ensures |KeptIndices(xs, f)| == |FilterMap(xs, f)|
    ensures forall k :: 0 <= k < |KeptIndices(xs, f)| ==>
              KeptIndices(xs, f)[k] < |xs| && f(xs[KeptIndices(xs, f)[k]]) == Some(FilterMap(xs, f)[k])
    ensures forall k, l :: 0 <= k < l < |KeptIndices(xs, f)| ==> KeptIndices(xs, f)[k] < KeptIndices(xs, f)[l]
    ensures forall i :: 0 <= i < |xs| ==> (f(xs[i]).Some? <==> i in KeptIndices(xs, f))
  {
    KeptIndicesPayloads(xs, f);
    KeptIndicesIncrease(xs, f);
    KeptIndicesMembers(xs, f);
  }

  /** `filter_map` commutes with concatenation, so it never reorders. */
  lemma {:induction false} FilterMapAppend<A, B>(xs: seq<A>, ys: seq<A>, f: A -> Option<B>)
    ensures FilterMap(xs + ys, f) == FilterMap(xs, f) + FilterMap(ys, f)
    decreases |ys|
  {
    if ys != [] {
      var n := |ys| - 1;
      assert (xs + ys)[..|xs + ys| - 1] == xs + ys[..n];
      assert (xs + ys)[|xs + ys| - 1] == ys[n];
      FilterMapAppend(xs, ys[..n], f);
    } else {
      assert xs + ys == xs;
    }
  }

  /** When `f` keeps every element, `filter_map` is a plain map. */
  lemma {:induction false} FilterMapKeepsAll<A, B>(xs: seq<A>, f: A -> Option<B>, ys: seq<B>)
    requires |ys| == |xs|
    requires forall k :: 0 <= k < |xs| ==> f(xs[k]) == Some(ys[k])
    ensures FilterMap(xs, f) == ys
    decreases |xs|
  {
    if xs != [] {
      var n := |xs| - 1;
      FilterMapKeepsAll(xs[..n], f, ys[..n]);
      assert ys == ys[..n] + [ys[n]];
    }
  }

  /** `.map(Some)`: wrap every element. */
  function WrapAll<T>(xs: seq<T>): (r: seq<Option<T>>)
    ensures |r| == |xs|
    ensures forall k :: 0 <= k < |xs| ==> r[k] == Some(xs[k])
  {
    seq(|xs|, k requires 0 <= k < |xs| => Some(xs[k]))
  }
}
