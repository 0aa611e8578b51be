/** Sequence helpers. */
module Seqs {

  /** Applies `f` to every element of `xs`, keeping their order: the shape of a Go
      `for _, x := range xs { out = append(out, f(x)) }` loop. */
  function Map<A, B>(f: A --> B, xs: seq<A>): (ys: seq<B>)
    requires forall i :: 0 <= i < |xs| ==> f.requires(xs[i])
    ensures |ys| == |xs|
    ensures forall i :: 0 <= i < |xs| ==> ys[i] == f(xs[i])
  {
    if |xs| == 0 then [] else [f(xs[0])] + Map(f, xs[1..])
  }
}
