/** Dense row-major tensors. A tensor is a shape and its element at each multi-index; a
    reshape keeps every element at its row-major position, so each claim about a reshape
    is a claim about mixed-radix index arithmetic. Elements are only meaningful at
    indices inside the shape. */
module Tensors {
  import opened Arith

  datatype Tensor<T> = Tensor(shape: seq<nat>, at: seq<nat> -> T)

  function Prod(a: nat, b: nat): nat {
    a * b
  }

  /** Number of elements of a shape. */
  function Size(shape: seq<nat>): nat {
    if shape == [] then 1 else Prod(shape[0], Size(shape[1..]))
  }

  predicate InRange(shape: seq<nat>, idx: seq<nat>) {
    |idx| == |shape| && forall k :: 0 <= k < |shape| ==> idx[k] < shape[k]
  }

  lemma InRangeConcat(p: seq<nat>, q: seq<nat>, i: seq<nat>, j: seq<nat>)
    requires InRange(p, i) && InRange(q, j)
    ensures InRange(p + q, i + j)
  {
  }

  /** Row-major position of a multi-index. */
  function Flat(shape: seq<nat>, idx: seq<nat>): (n: nat)
    requires InRange(shape, idx)
    ensures n < Size(shape)
  {
    if shape == [] then 0
    else
      var rest := Flat(shape[1..], idx[1..]);
      RadixBound(shape[0], Size(shape[1..]), idx[0], rest);
      Prod(idx[0], Size(shape[1..])) + rest
  }

  /** The multi-index at a row-major position. */
  function Unflat(shape: seq<nat>, n: nat): (idx: seq<nat>)
    requires n < Size(shape)
    ensures InRange(shape, idx) && Flat(shape, idx) == n
  {
    if shape == [] then []
    else
      var s := Size(shape[1..]);
      RadixDigits(shape[0], s, n);
      var q: nat, r: nat := Digit(n, s), Rem(n, s);
      var rest := Unflat(shape[1..], r);
      assert ([q] + rest)[1..] == rest;
      [q] + rest
  }

  function Digit(n: nat, s: nat): nat {
    if s == 0 then 0 else n / s
  }

  function Rem(n: nat, s: nat): nat {
    if s == 0 then 0 else n % s
  }

  lemma RadixBound(a: nat, s: nat, x: nat, y: nat)
    requires x < a && y < s
    ensures Prod(x, s) + y < Prod(a, s) && x * s + y < a * s
  {
    MulMonotone(x + 1, a, s);
  }

  lemma RadixStep(x: nat, a: nat, s: nat)
    requires x < a
    ensures 0 <= x * s && x * s + s == (x + 1) * s <= a * s
  {
    MulMonotone(x + 1, a, s);
    MulNonnegative(x, s);
  }

  lemma RadixDigits(a: nat, s: nat, n: nat)
    requires n < Prod(a, s)
    ensures s > 0 && n / s < a && n % s < s && n == n / s * s + n % s
    ensures Digit(n, s) == n / s && Rem(n, s) == n % s && n == Prod(Digit(n, s), s) + Rem(n, s)
  {
    assert s == 0 ==> a * s == 0;
    var q := n / s;
    assert n == q * s + n % s;
    if a <= q { MulMonotone(a, q, s); }
  }

  /** A quotient and remainder in range are the only ones. */
  lemma RadixUnique(s: nat, x: nat, y: nat)
    requires y < s
    ensures (x * s + y) / s == x && (x * s + y) % s == y
    ensures Digit(Prod(x, s) + y, s) == x && Rem(Prod(x, s) + y, s) == y
  {
    MulNonnegative(x, s);
    DivisionUnique(x * s + y, s, x, y);
  }

  /** `Unflat` is also a left inverse of `Flat`, so multi-indices and positions
      correspond one to one. */
  lemma {:induction false} UnflatFlat(shape: seq<nat>, idx: seq<nat>)
    requires InRange(shape, idx)
    ensures Unflat(shape, Flat(shape, idx)) == idx
  {
    hide Prod, Digit, Rem;
    if shape != [] {
      UnflatFlat(shape[1..], idx[1..]);
      RadixUnique(Size(shape[1..]), idx[0], Flat(shape[1..], idx[1..]));
      assert idx == [idx[0]] + idx[1..];
    } else {
      assert idx == [];
    }
  }

  // ---------------------------------------------------------------- reshape

  /** The element at `idx` of the result is the one at the same row-major position. */
  function Reshape<T>(t: Tensor<T>, shape: seq<nat>): (r: Tensor<T>)
    requires Size(shape) == Size(t.shape)
    ensures r.shape == shape
  {
    Tensor(shape, (idx: seq<nat>) =>
      if InRange(shape, idx) then t.at(Unflat(t.shape, Flat(shape, idx))) else t.at(idx))
  }

  lemma ReshapeAt<T>(t: Tensor<T>, shape: seq<nat>, i: seq<nat>, j: seq<nat>)
    requires Size(shape) == Size(t.shape) && InRange(shape, i) && InRange(t.shape, j)
    requires Flat(shape, i) == Flat(t.shape, j)
    ensures Reshape(t, shape).at(i) == t.at(j)
  {
    UnflatFlat(t.shape, j);
  }

  /** Splitting an axis of length `a * k` into `[a, k]` moves no element: the position
      of `x * k + y` on the long axis is that of `(x, y)` on the two short ones. */
  lemma FlatSplit(pre: seq<nat>, a: nat, k: nat, post: seq<nat>,
                  i: seq<nat>, x: nat, y: nat, j: seq<nat>)
    requires InRange(pre, i) && x < a && y < k && InRange(post, j)
    ensures InRange(pre + [a * k] + post, i + [x * k + y] + j)
    ensures InRange(pre + [a, k] + post, i + [x, y] + j)
    ensures Flat(pre + [a * k] + post, i + [x * k + y] + j)
         == Flat(pre + [a, k] + post, i + [x, y] + j)
  {
    hide Flat, Size;
    MulNonnegative(x, k);
    FlatSplitNamed(pre, a * k, a, k, post, i, x * k + y, x, y, j);
  }

  /** The same, with the products named. */
  lemma {:induction false} FlatSplitNamed(pre: seq<nat>, n: nat, a: nat, k: nat, post: seq<nat>,
                                          i: seq<nat>, z: nat, x: nat, y: nat, j: seq<nat>)
    requires n == a * k && z == x * k + y
    requires InRange(pre, i) && x < a && y < k && InRange(post, j)
    ensures InRange(pre + [n] + post, i + [z] + j)
    ensures InRange(pre + [a, k] + post, i + [x, y] + j)
    ensures Flat(pre + [n] + post, i + [z] + j) == Flat(pre + [a, k] + post, i + [x, y] + j)
  {
    hide Prod, Flat, Size;
    RadixBound(a, k, x, y);
    var s1, s2 := pre + [n] + post, pre + [a, k] + post;
    var i1, i2 := i + [z] + j, i + [x, y] + j;
    if pre == [] {
      FlatSplitFirst(n, a, k, post, z, x, y, j);
      assert s1 == [n] + post && s2 == [a, k] + post;
      assert i1 == [z] + j && i2 == [x, y] + j;
    } else {
      assert s1[1..] == pre[1..] + [n] + post && i1[1..] == i[1..] + [z] + j;
      assert s2[1..] == pre[1..] + [a, k] + post && i2[1..] == i[1..] + [x, y] + j;
      FlatSplitNamed(pre[1..], n, a, k, post, i[1..], z, x, y, j);
      SizeSplitNamed(pre[1..], n, a, k, post);
      FlatStep(s1, i1);
      FlatStep(s2, i2);
    }
  }

  lemma FlatStep(shape: seq<nat>, idx: seq<nat>)
    requires shape != [] && idx != [] && idx[0] < shape[0] && InRange(shape[1..], idx[1..])
    ensures InRange(shape, idx)
    ensures Flat(shape, idx) == Prod(idx[0], Size(shape[1..])) + Flat(shape[1..], idx[1..])
  {
    assert forall k :: 0 < k < |idx| ==> idx[k] == idx[1..][k - 1];
    assert forall k :: 0 < k < |shape| ==> shape[k] == shape[1..][k - 1];
  }

  lemma FlatSplitFirst(n: nat, a: nat, k: nat, post: seq<nat>, z: nat, x: nat, y: nat, j: seq<nat>)
    requires n == a * k && z == x * k + y && z < n
    requires x < a && y < k && InRange(post, j)
    ensures InRange([n] + post, [z] + j) && InRange([a, k] + post, [x, y] + j)
    ensures Flat([n] + post, [z] + j) == Flat([a, k] + post, [x, y] + j)
  {
    hide Prod, Flat, Size;
    FlatCons(n, post, z, j);
    FlatCons(k, post, y, j);
    FlatCons(a, [k] + post, x, [y] + j);
    assert [a, k] + post == [a] + ([k] + post) && [x, y] + j == [x] + ([y] + j);
    SizeCons(k, post);
    Distribute(x, k, y, Size(post));
  }

  lemma SizeCons(a: nat, post: seq<nat>)
    ensures Size([a] + post) == Prod(a, Size(post))
  {
    assert ([a] + post)[1..] == post;
  }

  lemma FlatCons(a: nat, post: seq<nat>, x: nat, j: seq<nat>)
    requires x < a && InRange(post, j)
    ensures InRange([a] + post, [x] + j)
    ensures Flat([a] + post, [x] + j) == Prod(x, Size(post)) + Flat(post, j)
  {
    hide Prod;
    assert ([a] + post)[1..] == post && ([x] + j)[1..] == j;
  }

  lemma Distribute(x: nat, k: nat, y: nat, s: nat)
    ensures 0 <= x * k && Prod(x * k + y, s) == Prod(x, Prod(k, s)) + Prod(y, s)
  {
    MulNonnegative(x, k);
    assert (x * k) * s == x * (k * s);
  }

  lemma SizeSplit(pre: seq<nat>, a: nat, k: nat, post: seq<nat>)
    ensures Size(pre + [a * k] + post) == Size(pre + [a, k] + post)
  {
    hide Size;
    SizeSplitNamed(pre, a * k, a, k, post);
  }

  lemma {:induction false} SizeSplitNamed(pre: seq<nat>, n: nat, a: nat, k: nat, post: seq<nat>)
    requires n == a * k
    ensures Size(pre + [n] + post) == Size(pre + [a, k] + post)
  {
    hide Prod;
    var s1, s2 := pre + [n] + post, pre + [a, k] + post;
    if pre == [] {
      SizeCons(n, post);
      SizeCons(k, post);
      SizeCons(a, [k] + post);
      assert s1 == [n] + post && s2 == [a] + ([k] + post);
      Distribute(a, k, 0, Size(post));
      ProdZero(Size(post));
    } else {
      assert s1[1..] == pre[1..] + [n] + post && s2[1..] == pre[1..] + [a, k] + post;
      SizeSplitNamed(pre[1..], n, a, k, post);
    }
  }

  lemma ProdZero(s: nat)
    ensures Prod(0, s) == 0 && Prod(1, s) == s
  {
  }

  /** An axis of length one changes no position. */
  lemma {:induction false} FlatUnit(pre: seq<nat>, post: seq<nat>, i: seq<nat>, j: seq<nat>)
    requires InRange(pre, i) && InRange(post, j)
    ensures InRange(pre + post, i + j) && InRange(pre + [1] + post, i + [0] + j)
    ensures Size(pre + [1] + post) == Size(pre + post)
    ensures Flat(pre + [1] + post, i + [0] + j) == Flat(pre + post, i + j)
  {
    hide Prod;
    SizeUnit(pre, post);
    if pre == [] {
      FlatCons(1, post, 0, j);
      ProdZero(Size(post));
      assert pre + [1] + post == [1] + post && i + [0] + j == [0] + j;
      assert pre + post == post && i + j == j;
    } else {
      assert (pre + [1] + post)[1..] == pre[1..] + [1] + post;
      assert (i + [0] + j)[1..] == i[1..] + [0] + j;
      assert (pre + post)[1..] == pre[1..] + post && (i + j)[1..] == i[1..] + j;
      FlatUnit(pre[1..], post, i[1..], j);
    }
  }

  lemma {:induction false} SizeUnit(pre: seq<nat>, post: seq<nat>)
    ensures Size(pre + [1] + post) == Size(pre + post)
  {
    hide Prod;
    if pre == [] {
      SizeCons(1, post);
      ProdZero(Size(post));
      assert pre + [1] + post == [1] + post && pre + post == post;
    } else {
      assert (pre + [1] + post)[1..] == pre[1..] + [1] + post;
      assert (pre + post)[1..] == pre[1..] + post;
      SizeUnit(pre[1..], post);
    }
  }

  /** Reading a tensor after one of its axes, of length `n`, was split. */
  lemma SplitAt<T>(t: Tensor<T>, pre: seq<nat>, n: nat, a: nat, k: nat, post: seq<nat>,
                   i: seq<nat>, z: nat, x: nat, y: nat, j: seq<nat>)
    requires t.shape == pre + [n] + post && n == a * k
    requires InRange(pre, i) && z == x * k + y && x < a && y < k && InRange(post, j)
    ensures Size(pre + [a, k] + post) == Size(t.shape)
    ensures Reshape(t, pre + [a, k] + post).at(i + [x, y] + j) == t.at(i + [z] + j)
  {
    hide Flat, Size;
    FlatSplitNamed(pre, n, a, k, post, i, z, x, y, j);
    SizeSplitNamed(pre, n, a, k, post);
    ReshapeAt(t, pre + [a, k] + post, i + [x, y] + j, i + [z] + j);
  }

  /** Reading a tensor after two neighbouring axes were merged into one of length `n`. */
  lemma MergeAt<T>(t: Tensor<T>, pre: seq<nat>, n: nat, a: nat, k: nat, post: seq<nat>,
                   i: seq<nat>, z: nat, x: nat, y: nat, j: seq<nat>)
    requires t.shape == pre + [a, k] + post && n == a * k
    requires InRange(pre, i) && z == x * k + y && x < a && y < k && InRange(post, j)
    ensures Size(pre + [n] + post) == Size(t.shape)
    ensures Reshape(t, pre + [n] + post).at(i + [z] + j) == t.at(i + [x, y] + j)
  {
    hide Flat, Size;
    FlatSplitNamed(pre, n, a, k, post, i, z, x, y, j);
    SizeSplitNamed(pre, n, a, k, post);
    ReshapeAt(t, pre + [n] + post, i + [z] + j, i + [x, y] + j);
  }

  // ------------------------------------------------- pad, take, slice, transpose

  /** `v` at position `axis` of an index; the index itself when it has no such position. */
  function With(idx: seq<nat>, axis: nat, v: nat): seq<nat> {
    if axis < |idx| then idx[axis := v] else idx
  }

  function Coord(idx: seq<nat>, axis: nat): nat {
    if axis < |idx| then idx[axis] else 0
  }

  /** Pads one axis with `zero` on both sides. */
  function Pad<T>(t: Tensor<T>, axis: nat, left: nat, right: nat, zero: T): (r: Tensor<T>)
    requires axis < |t.shape|
    ensures r.shape == t.shape[axis := left + t.shape[axis] + right]
  {
    Tensor(t.shape[axis := left + t.shape[axis] + right], (idx: seq<nat>) =>
      if left <= Coord(idx, axis) < left + t.shape[axis]
      then t.at(With(idx, axis, Coord(idx, axis) - left)) else zero)
  }

  /** Gathers `indices` along one axis. */
  function Take<T>(t: Tensor<T>, indices: seq<nat>, axis: nat): (r: Tensor<T>)
    requires axis < |t.shape|
    requires forall k :: 0 <= k < |indices| ==> indices[k] < t.shape[axis]
    ensures r.shape == t.shape[axis := |indices|]
  {
    Tensor(t.shape[axis := |indices|], (idx: seq<nat>) =>
      if Coord(idx, axis) < |indices| then t.at(With(idx, axis, indices[Coord(idx, axis)]))
      else t.at(idx))
  }

  /** Keeps the first `stop` entries of one axis. */
  function Slice<T>(t: Tensor<T>, axis: nat, stop: nat): (r: Tensor<T>)
    requires axis < |t.shape| && stop <= t.shape[axis]
    ensures r.shape == t.shape[axis := stop]
  {
    Tensor(t.shape[axis := stop], t.at)
  }

  /** A permutation of the axes `0..n`, and its inverse. */
  predicate Permutation(axes: seq<nat>, inverse: seq<nat>, n: nat) {
    && |axes| == |inverse| == n
    && (forall k :: 0 <= k < n ==> axes[k] < n && inverse[axes[k]] == k)
    && (forall k :: 0 <= k < n ==> inverse[k] < n && axes[inverse[k]] == k)
  }

  function Permute(s: seq<nat>, axes: seq<nat>): (r: seq<nat>)
    ensures |r| == |axes| && forall k :: 0 <= k < |axes| ==> r[k] == Coord(s, axes[k])
  {
    seq(|axes|, k requires 0 <= k < |axes| => Coord(s, axes[k]))
  }

  /** Axis `k` of the result is axis `axes[k]` of the argument; `inverse` is the inverse
      permutation, which sends a result index back. */
  function Transpose<T>(t: Tensor<T>, axes: seq<nat>, inverse: seq<nat>): (r: Tensor<T>)
    requires Permutation(axes, inverse, |t.shape|)
    ensures r.shape == Permute(t.shape, axes)
  {
    Tensor(Permute(t.shape, axes), (idx: seq<nat>) => t.at(Permute(idx, inverse)))
  }
}
