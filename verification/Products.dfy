/** Batched matrix products of tensors of reals. */
module Products {
  import opened Tensors
  import opened SoftmaxRows

  /** The entries of the last axis at leading index `p`. */
  function Row(t: Tensor<real>, p: seq<nat>): (r: seq<real>)
    requires t.shape != []
    ensures |r| == t.shape[|t.shape| - 1]
    ensures forall x :: 0 <= x < |r| ==> r[x] == t.at(p + [x])
  {
    seq(t.shape[|t.shape| - 1], x requires 0 <= x => t.at(p + [x]))
  }

  /** The entries of the next-to-last axis at leading index `p` and last index `j`. */
  function Column(t: Tensor<real>, p: seq<nat>, j: nat): (r: seq<real>)
    requires |t.shape| >= 2
    ensures |r| == t.shape[|t.shape| - 2]
    ensures forall x :: 0 <= x < |r| ==> r[x] == t.at(p + [x, j])
  {
    seq(t.shape[|t.shape| - 2], x requires 0 <= x => t.at(p + [x, j]))
  }

  /** Shapes `pre + [m, k]` and `suf + [k, n]`, where `suf` ends `pre`. */
  predicate Multipliable(a: Tensor<real>, c: Tensor<real>) {
    && 2 <= |c.shape| <= |a.shape|
    && c.shape[|c.shape| - 2] == a.shape[|a.shape| - 1]
    && a.shape[|a.shape| - |c.shape|..|a.shape| - 2] == c.shape[..|c.shape| - 2]
  }

  /** Matrix product over the last two axes; the leading axes of `c` are broadcast. */
  function MatMul(a: Tensor<real>, c: Tensor<real>): (r: Tensor<real>)
    requires Multipliable(a, c)
    ensures r.shape == a.shape[..|a.shape| - 1] + [c.shape[|c.shape| - 1]]
  {
    var n, d := |a.shape|, |a.shape| - |c.shape|;
    Tensor(a.shape[..n - 1] + [c.shape[|c.shape| - 1]], (idx: seq<nat>) =>
      if |idx| != n then 0.0
      else Dot(Row(a, idx[..n - 1]), Column(c, idx[d..n - 2], idx[n - 1])))
  }

  lemma MatMulAt(a: Tensor<real>, c: Tensor<real>, p: seq<nat>, i: nat, j: nat)
    requires Multipliable(a, c) && |p| == |a.shape| - 2
    ensures MatMul(a, c).at(p + [i, j])
         == Dot(Row(a, p + [i]), Column(c, p[|a.shape| - |c.shape|..], j))
  {
    var n, idx := |a.shape|, p + [i, j];
    assert idx[..n - 1] == p + [i];
    assert idx[|a.shape| - |c.shape|..n - 2] == p[|a.shape| - |c.shape|..];
  }

  function Add(a: Tensor<real>, c: Tensor<real>): (r: Tensor<real>)
    requires a.shape == c.shape
    ensures r.shape == a.shape
  {
    Tensor(a.shape, (idx: seq<nat>) => a.at(idx) + c.at(idx))
  }
}
