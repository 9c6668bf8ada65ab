/** Block top-k selection from indexed scores, and its stability when the keys are
    quantized row by row. Floats are reals. */
module Selection {
  import opened SoftmaxRows
  import opened Rtn
  import opened Arith

  // --------------------------------------------------------------------- scores

  function Abs(x: real): real {
    if x < 0.0 then -x else x
  }

  /** Sum of absolute values. */
  function L1(q: seq<real>): (r: real)
    ensures r >= 0.0
  {
    if q == [] then 0.0 else Abs(q[0]) + L1(q[1..])
  }

  /** Scaled inner product of a query head with one window row. */
  function Score(q: seq<real>, row: seq<real>, scale: real): real
    requires |q| == |row|
  {
    Times(Dot(q, row), scale)
  }

  /** A window: `blocks * size` rows as wide as the query. */
  predicate IsWindow(win: seq<seq<real>>, dim: nat, blocks: nat, size: nat) {
    size >= 1 && |win| == blocks * size && forall t :: 0 <= t < |win| ==> |win[t]| == dim
  }

  lemma BlockFits(blocks: nat, size: nat, b: nat)
    requires b < blocks
    ensures 0 <= b * size && b * size + size <= blocks * size
  {
    MulNonnegative(b, size);
    MulMonotone(b + 1, blocks, size);
  }

  /** The scores of one block's rows. */
  function RowScores(q: seq<real>, rows: seq<seq<real>>, scale: real): (r: seq<real>)
    requires forall t :: 0 <= t < |rows| ==> |rows[t]| == |q|
    ensures |r| == |rows| && forall t :: 0 <= t < |rows| ==> r[t] == Score(q, rows[t], scale)
  {
    seq(|rows|, t requires 0 <= t < |rows| => Score(q, rows[t], scale))
  }

  /** The rows of block `b`. */
  function BlockRows(win: seq<seq<real>>, dim: nat, blocks: nat, size: nat, b: nat): (r: seq<seq<real>>)
    requires IsWindow(win, dim, blocks, size) && b < blocks
    ensures |r| == size >= 1 && forall t :: 0 <= t < |r| ==> |r[t]| == dim
  {
    BlockFits(blocks, size, b);
    win[b * size..b * size + size]
  }

  function BlockScore(q: seq<real>, win: seq<seq<real>>, scale: real, blocks: nat, size: nat, b: nat): real
    requires IsWindow(win, |q|, blocks, size) && b < blocks
  {
    Max(RowScores(q, BlockRows(win, |q|, blocks, size, b), scale))
  }

  /** The largest score of each block of `size` rows. */
  function BlockScores(q: seq<real>, win: seq<seq<real>>, scale: real, blocks: nat, size: nat): (r: seq<real>)
    requires IsWindow(win, |q|, blocks, size)
    ensures |r| == blocks && forall b :: 0 <= b < blocks ==> r[b] == BlockScore(q, win, scale, blocks, size, b)
  {
    seq(blocks, b requires 0 <= b < blocks => BlockScore(q, win, scale, blocks, size, b))
  }

  /** A block's score bounds the scaled inner product of the query with each of its rows... */
  lemma BlockScoreBounds(q: seq<real>, win: seq<seq<real>>, scale: real, blocks: nat, size: nat, r: nat)
    requires IsWindow(win, |q|, blocks, size) && r < |win|
    ensures r / size < blocks
    ensures Times(Dot(q, win[r]), scale) <= BlockScores(q, win, scale, blocks, size)[r / size]
  {
    hide Dot, Times, Max, BlockRows;
    RowPlace(blocks, size, r, r / size);
    var b := r / size;
    var rows := BlockRows(win, |q|, blocks, size, b);
    RowOfBlock(win, |q|, blocks, size, b, r - b * size, r);
    var scores := RowScores(q, rows, scale);
    assert scores[r - b * size] <= Max(scores);
  }

  /** ...and is one of them. */
  lemma BlockScoreAttained(q: seq<real>, win: seq<seq<real>>, scale: real, blocks: nat, size: nat, b: nat)
    returns (r: nat)
    requires IsWindow(win, |q|, blocks, size) && b < blocks
    ensures r < |win| && r / size == b
    ensures Times(Dot(q, win[r]), scale) == BlockScores(q, win, scale, blocks, size)[b]
  {
    hide Dot, Times, Max, BlockRows;
    var rows := BlockRows(win, |q|, blocks, size, b);
    var scores := RowScores(q, rows, scale);
    var k :| 0 <= k < |scores| && scores[k] == Max(scores);
    BlockFits(blocks, size, b);
    r := b * size + k;
    DivisionUnique(r, size, b, k);
    RowOfBlock(win, |q|, blocks, size, b, k, r);
  }

  lemma RowPlace(blocks: nat, size: nat, r: nat, b: nat)
    requires size >= 1 && r < blocks * size && b == r / size
    ensures b < blocks && 0 <= r - b * size < size
  {
    assert r == b * size + r % size;
    if blocks <= b { MulMonotone(blocks, b, size); }
  }

  lemma RowOfBlock(win: seq<seq<real>>, dim: nat, blocks: nat, size: nat, b: nat, k: nat, r: nat)
    requires IsWindow(win, dim, blocks, size) && b < blocks && k < size && r == b * size + k
    ensures r < |win| && BlockRows(win, dim, blocks, size, b)[k] == win[r]
  {
    BlockFits(blocks, size, b);
  }

  /** The window after each row was quantized and dequantized. */
  function QuantizedWindow(win: seq<seq<real>>, qmax: nat): (r: seq<seq<real>>)
    requires qmax >= 1 && forall t :: 0 <= t < |win| ==> win[t] != []
    ensures |r| == |win| && forall t :: 0 <= t < |win| ==> r[t] == Roundtrip(win[t], qmax)
  {
    seq(|win|, t requires 0 <= t < |win| => Roundtrip(win[t], qmax))
  }

  // --------------------------------------------------------------- perturbation

  /** Every entry within `eps`. */
  predicate Close(s: seq<real>, t: seq<real>, eps: real) {
    |s| == |t| && forall i :: 0 <= i < |s| ==> -eps <= t[i] - s[i] <= eps
  }

  lemma {:induction false} DotPerturbed(q: seq<real>, s: seq<real>, t: seq<real>, eps: real)
    requires |q| == |s| && Close(s, t, eps) && eps >= 0.0
    ensures -Times(L1(q), eps) <= Dot(q, t) - Dot(q, s) <= Times(L1(q), eps)
  {
    if q == [] {
    } else {
      hide Times, Abs;
      DotPerturbed(q[1..], s[1..], t[1..], eps);
      TermPerturbed(q[0], s[0], t[0], eps);
      Spread(Abs(q[0]), L1(q[1..]), eps);
    }
  }

  lemma TermPerturbed(q: real, s: real, t: real, eps: real)
    requires -eps <= t - s <= eps
    ensures -Times(Abs(q), eps) <= Times(q, t) - Times(q, s) <= Times(Abs(q), eps)
  {
    var up, down := eps - (t - s), eps + (t - s);
    if q >= 0.0 {
      NonnegativeProduct(q, up);
      NonnegativeProduct(q, down);
    } else {
      NonnegativeProduct(-q, up);
      NonnegativeProduct(-q, down);
    }
  }

  lemma NonnegativeProduct(x: real, y: real)
    requires x >= 0.0 && y >= 0.0
    ensures x * y >= 0.0
  {
  }

  lemma Spread(a: real, b: real, e: real)
    ensures Times(a + b, e) == Times(a, e) + Times(b, e)
  {
  }

  lemma ScorePerturbed(q: seq<real>, s: seq<real>, t: seq<real>, eps: real, scale: real)
    requires |q| == |s| && Close(s, t, eps) && eps >= 0.0 && scale >= 0.0
    ensures var d := Times(Times(L1(q), eps), scale);
            -d <= Score(q, t, scale) - Score(q, s, scale) <= d
  {
    hide L1, Dot;
    DotPerturbed(q, s, t, eps);
    ScaleBound(Dot(q, t) - Dot(q, s), Times(L1(q), eps), scale);
    assert Score(q, t, scale) - Score(q, s, scale) == Times(Dot(q, t) - Dot(q, s), scale);
  }

  lemma ScaleBound(x: real, b: real, scale: real)
    requires -b <= x <= b && scale >= 0.0
    ensures -Times(b, scale) <= Times(x, scale) <= Times(b, scale)
  {
    assert (b - x) * scale >= 0.0 && (x + b) * scale >= 0.0;
  }

  /** Maxima of close lists are close. */
  lemma MaxPerturbed(s: seq<real>, t: seq<real>, d: real)
    requires s != [] && Close(s, t, d)
    ensures -d <= Max(t) - Max(s) <= d
  {
    hide Max;
    var i :| 0 <= i < |s| && s[i] == Max(s);
    var j :| 0 <= j < |t| && t[j] == Max(t);
    assert t[i] <= Max(t) && s[j] <= Max(s);
  }

  /** No row's step exceeds `step`. */
  predicate StepsAtMost(win: seq<seq<real>>, qmax: nat, step: real)
    requires qmax >= 1
  {
    forall t :: 0 <= t < |win| ==> win[t] != [] && Step(win[t], qmax) <= step
  }

  /** How far quantizing the window can move a block score. */
  function ScoreShift(q: seq<real>, step: real, scale: real): real {
    Times(Times(L1(q), step / 2.0), scale)
  }

  lemma RowClose(row: seq<real>, qmax: nat, step: real)
    requires row != [] && qmax >= 1 && Step(row, qmax) <= step
    ensures Close(row, Roundtrip(row, qmax), step / 2.0) && step > 0.0
  {
    hide Roundtrip;
    StepPositive(row, qmax);
    hide Step;
    forall i | 0 <= i < |row| ensures -step / 2.0 <= Roundtrip(row, qmax)[i] - row[i] <= step / 2.0 {
      RoundtripError(row, qmax, i);
    }
  }

  lemma BlockScorePerturbed(q: seq<real>, win: seq<seq<real>>, scale: real, blocks: nat, size: nat,
                            qmax: nat, step: real, b: nat)
    requires IsWindow(win, |q|, blocks, size) && qmax >= 1 && scale >= 0.0 && b < blocks
    requires StepsAtMost(win, qmax, step)
    ensures IsWindow(QuantizedWindow(win, qmax), |q|, blocks, size)
    ensures var d := ScoreShift(q, step, scale);
            -d <= BlockScore(q, QuantizedWindow(win, qmax), scale, blocks, size, b)
                  - BlockScore(q, win, scale, blocks, size, b) <= d
  {
    hide Max, RowScores, Step, Roundtrip, ScoreShift, BlockRows, IsWindow;
    QuantizedIsWindow(win, |q|, blocks, size, qmax);
    QuantizedRows(win, |q|, blocks, size, qmax, step, b);
    RowsPerturbed(q, BlockRows(win, |q|, blocks, size, b), scale, qmax, step);
  }

  lemma QuantizedIsWindow(win: seq<seq<real>>, dim: nat, blocks: nat, size: nat, qmax: nat)
    requires IsWindow(win, dim, blocks, size) && qmax >= 1 && forall t :: 0 <= t < |win| ==> win[t] != []
    ensures IsWindow(QuantizedWindow(win, qmax), dim, blocks, size)
  {
    hide Roundtrip;
  }

  /** Quantizing works row by row, so it commutes with cutting out a block. */
  lemma QuantizedRows(win: seq<seq<real>>, dim: nat, blocks: nat, size: nat, qmax: nat, step: real, b: nat)
    requires IsWindow(win, dim, blocks, size) && qmax >= 1 && b < blocks && StepsAtMost(win, qmax, step)
    requires IsWindow(QuantizedWindow(win, qmax), dim, blocks, size)
    ensures StepsAtMost(BlockRows(win, dim, blocks, size, b), qmax, step)
    ensures BlockRows(QuantizedWindow(win, qmax), dim, blocks, size, b)
         == QuantizedWindow(BlockRows(win, dim, blocks, size, b), qmax)
  {
    hide Roundtrip, Step, IsWindow;
    BlockFits(blocks, size, b);
    WindowLength(win, dim, blocks, size);
    QuantizedSlice(win, qmax, step, b * size, b * size + size);
  }

  lemma WindowLength(win: seq<seq<real>>, dim: nat, blocks: nat, size: nat)
    requires IsWindow(win, dim, blocks, size)
    ensures |win| == blocks * size
  {
  }

  lemma QuantizedSlice(win: seq<seq<real>>, qmax: nat, step: real, from: nat, to: nat)
    requires qmax >= 1 && from <= to <= |win| && StepsAtMost(win, qmax, step)
    ensures StepsAtMost(win[from..to], qmax, step)
    ensures QuantizedWindow(win, qmax)[from..to] == QuantizedWindow(win[from..to], qmax)
  {
    hide Roundtrip, Step;
  }

  lemma RowsPerturbed(q: seq<real>, rows: seq<seq<real>>, scale: real, qmax: nat, step: real)
    requires rows != [] && qmax >= 1 && scale >= 0.0 && StepsAtMost(rows, qmax, step)
    requires forall t :: 0 <= t < |rows| ==> |rows[t]| == |q|
    ensures var d := ScoreShift(q, step, scale);
            -d <= Max(RowScores(q, QuantizedWindow(rows, qmax), scale)) - Max(RowScores(q, rows, scale)) <= d
  {
    hide Max, Score, Step, Roundtrip, ScoreShift;
    var rowsQ := QuantizedWindow(rows, qmax);
    var s, t := RowScores(q, rows, scale), RowScores(q, rowsQ, scale);
    var d := ScoreShift(q, step, scale);
    forall i | 0 <= i < |s| ensures -d <= t[i] - s[i] <= d {
      RowScoreShift(q, rows[i], qmax, step, scale);
    }
    MaxPerturbed(s, t, d);
  }

  lemma RowScoreShift(q: seq<real>, row: seq<real>, qmax: nat, step: real, scale: real)
    requires row != [] && |q| == |row| && qmax >= 1 && Step(row, qmax) <= step && scale >= 0.0
    ensures var d := ScoreShift(q, step, scale);
            -d <= Score(q, Roundtrip(row, qmax), scale) - Score(q, row, scale) <= d
  {
    hide Roundtrip, Step, Score, L1;
    RowClose(row, qmax, step);
    ScorePerturbed(q, row, Roundtrip(row, qmax), step / 2.0, scale);
  }

  // ---------------------------------------------------------------------- top-k

  /** Any answer of a partial sort: all blocks when there are at most `k`, else `k` blocks
      none of which scores below one left out. */
  predicate IsTopK(scores: seq<real>, k: nat, top: set<nat>) {
    && (forall i :: i in top ==> i < |scores|)
    && (|scores| <= k ==> forall i :: 0 <= i < |scores| ==> i in top)
    && (|scores| > k ==> |top| == k)
    && forall i, j :: i in top && 0 <= j < |scores| && j !in top ==> scores[i] >= scores[j]
  }

  /** The blocks in descending order of score. */
  predicate IsOrder(scores: seq<real>, order: seq<nat>) {
    && |order| == |scores|
    && (forall i :: 0 <= i < |order| ==> order[i] < |scores|)
    && (forall i, j :: 0 <= i < j < |order| ==> order[i] != order[j])
    && forall i, j :: 0 <= i < j < |order| ==> scores[order[i]] >= scores[order[j]]
  }

  /** The gap between the `k`-th and the next score, in descending order. */
  function Margin(scores: seq<real>, order: seq<nat>, k: nat): real
    requires IsOrder(scores, order) && 1 <= k < |scores|
  {
    scores[order[k - 1]] - scores[order[k]]
  }

  function First(order: seq<nat>, k: nat): (s: set<nat>)
    requires k <= |order|
  {
    set i | 0 <= i < k :: order[i]
  }

  lemma {:induction false} FirstSize(order: seq<nat>, k: nat)
    requires k <= |order| && forall i, j :: 0 <= i < j < |order| ==> order[i] != order[j]
    ensures |First(order, k)| == k
  {
    if k == 0 {
    } else {
      FirstSize(order, k - 1);
      assert First(order, k) == First(order, k - 1) + {order[k - 1]};
      assert order[k - 1] !in First(order, k - 1);
    }
  }

  lemma SubsetSize(a: set<nat>, b: set<nat>)
    requires a <= b
    ensures |a| <= |b| && (|a| == |b| ==> a == b)
  {
    assert b == a + (b - a);
    assert |b| == |a| + |b - a|;
    if |a| == |b| { assert b - a == {}; }
  }

  function Range(n: nat): (s: set<nat>)
    ensures forall b: nat :: b in s <==> b < n
    ensures |s| == n
  {
    if n == 0 then {} else Range(n - 1) + {n - 1}
  }

  /** Every block occurs in the order. */
  lemma PositionOf(scores: seq<real>, order: seq<nat>, b: nat) returns (n: nat)
    requires IsOrder(scores, order) && b < |scores|
    ensures n < |order| && order[n] == b
  {
    FirstSize(order, |order|);
    var seen := First(order, |order|);
    assert seen <= Range(|scores|);
    SubsetSize(seen, Range(|scores|));
    assert b in seen;
    n :| 0 <= n < |order| && order[n] == b;
  }

  /** The index of a largest score in a nonempty set. */
  method Largest(scores: seq<real>, left: set<nat>) returns (best: nat)
    requires left != {} && forall i :: i in left ==> i < |scores|
    ensures best in left && forall i :: i in left ==> scores[i] <= scores[best]
  {
    best :| best in left;
    var seen := {best};
    while seen != left
      invariant best in seen && seen <= left && forall i :: i in seen ==> scores[i] <= scores[best]
      decreases left - seen
    {
      var i :| i in left && i !in seen;
      if scores[i] > scores[best] { best := i; }
      seen := seen + {i};
    }
  }

  /** The clean top-k boundary gap, from the scores in descending order. */
  method SampleMargin(scores: seq<real>, k: nat) returns (m: real, order: seq<nat>)
    requires 1 <= k < |scores|
    ensures IsOrder(scores, order) && m == Margin(scores, order, k)
  {
    order := [];
    var left: set<nat> := Range(|scores|);
    while left != {}
      invariant |order| + |left| == |scores| && forall i :: i in left ==> i < |scores|
      invariant forall i :: 0 <= i < |order| ==> order[i] < |scores| && order[i] !in left
      invariant forall i, j :: 0 <= i < j < |order| ==> order[i] != order[j]
      invariant forall i, j :: 0 <= i < j < |order| ==> scores[order[i]] >= scores[order[j]]
      invariant forall i, j: nat :: 0 <= i < |order| && j in left ==> scores[order[i]] >= scores[j]
      decreases |left|
    {
      var best := Largest(scores, left);
      order := order + [best];
      left := left - {best};
    }
    m := scores[order[k - 1]] - scores[order[k]];
  }

  /** The first `k` of the order are a top-k selection. */
  lemma FirstIsTopK(scores: seq<real>, order: seq<nat>, k: nat)
    requires IsOrder(scores, order) && k <= |scores|
    ensures IsTopK(scores, k, First(order, k))
  {
    FirstSize(order, k);
    var first := First(order, k);
    forall i, j | i in first && 0 <= j < |scores| && j !in first ensures scores[i] >= scores[j] {
      var n := PositionOf(scores, order, j);
      var m :| 0 <= m < k && order[m] == i;
    }
    if |scores| <= k {
      forall j: nat | j < |scores| ensures j in first {
        var n := PositionOf(scores, order, j);
      }
    }
  }

  /** A set of `k` blocks that beats every block outside the first `k` is the first `k`. */
  lemma FirstWins(scores: seq<real>, order: seq<nat>, k: nat, values: seq<real>, top: set<nat>)
    requires IsOrder(scores, order) && 1 <= k < |scores| == |values|
    requires IsTopK(values, k, top)
    requires forall p, i :: p in First(order, k) && 0 <= i < |scores| && i !in First(order, k) ==>
               values[i] < values[p]
    ensures top == First(order, k)
  {
    var first := First(order, k);
    FirstSize(order, k);
    if first <= top {
      SubsetSize(first, top);
    } else {
      var p :| p in first && p !in top;
      forall i | i in top ensures i in first {
        assert i < |values| && values[i] >= values[p];
      }
      SubsetSize(top, first);
    }
  }

  /** Inside and outside the first `k`, the order separates the scores by the margin. */
  lemma MarginSeparates(scores: seq<real>, order: seq<nat>, k: nat, p: nat, i: nat)
    requires IsOrder(scores, order) && 1 <= k < |scores|
    requires p in First(order, k) && i < |scores| && i !in First(order, k)
    ensures scores[p] - scores[i] >= Margin(scores, order, k)
  {
    var n := PositionOf(scores, order, i);
    assert n >= k;
    var m :| 0 <= m < k && order[m] == p;
  }

  /** Scores that move by at most `d` keep their top-k set when the margin exceeds `2 d`. */
  lemma TopKStable(clean: seq<real>, quant: seq<real>, order: seq<nat>, k: nat, d: real,
                   top: set<nat>, topQ: set<nat>)
    requires IsOrder(clean, order) && 1 <= k < |clean| && |quant| == |clean|
    requires forall b :: 0 <= b < |clean| ==> -d <= quant[b] - clean[b] <= d
    requires 2.0 * d < Margin(clean, order, k)
    requires IsTopK(clean, k, top) && IsTopK(quant, k, topQ)
    ensures top == topQ == First(order, k)
  {
    assert -d <= quant[0] - clean[0] <= d;
    var first := First(order, k);
    forall p, i | p in first && 0 <= i < |clean| && i !in first
      ensures clean[i] < clean[p] && quant[i] < quant[p]
    {
      MarginSeparates(clean, order, k, p, i);
      assert -d <= quant[i] - clean[i] <= d && -d <= quant[p] - clean[p] <= d;
    }
    hide IsOrder, IsTopK, First, Margin;
    FirstWins(clean, order, k, clean, top);
    FirstWins(clean, order, k, quant, topQ);
  }

  // --------------------------------------------------------------- sample statistics

  /** Total of the entries whose index is in `s`. */
  function SumOver(mass: seq<real>, s: set<nat>, n: nat): real
    requires n <= |mass|
  {
    if n == 0 then 0.0 else SumOver(mass, s, n - 1) + if n - 1 in s then mass[n - 1] else 0.0
  }

  /** Softmax mass of the clean top-k blocks that the quantized top-k lost, relative to the
      clean top-k mass; and the share of blocks lost. */
  ghost function SampleError(exp: real -> real, clean: seq<real>, top: set<nat>, topQ: set<nat>): (real, real)
    requires ExpLike(exp) && top != {} && SumOver(Softmax(exp, clean), top, |clean|) > 0.0
  {
    var mass := Softmax(exp, clean);
    var absent := top - topQ;
    (Ratio(SumOver(mass, absent, |clean|), SumOver(mass, top, |clean|)), Ratio(|absent| as real, |top| as real))
  }

  lemma {:induction false} SumOverNone(mass: seq<real>, n: nat)
    requires n <= |mass|
    ensures SumOver(mass, {}, n) == 0.0
  {
    if n == 0 {
    } else {
      SumOverNone(mass, n - 1);
    }
  }

  lemma {:induction false} SumOverMonotone(mass: seq<real>, s: set<nat>, t: set<nat>, n: nat)
    requires n <= |mass| && s <= t && forall i :: 0 <= i < |mass| ==> mass[i] >= 0.0
    ensures 0.0 <= SumOver(mass, s, n) <= SumOver(mass, t, n)
  {
    if n == 0 {
    } else {
      SumOverMonotone(mass, s, t, n - 1);
    }
  }

  lemma {:induction false} SumOverMember(mass: seq<real>, s: set<nat>, n: nat, k: nat)
    requires n <= |mass| && k < n && k in s && forall i :: 0 <= i < |mass| ==> mass[i] >= 0.0
    ensures SumOver(mass, s, n) >= mass[k]
  {
    if k < n - 1 { SumOverMember(mass, s, n - 1, k); } else { SumOverMonotone(mass, {}, s, n - 1); }
  }

  lemma MassNonnegative(exp: real -> real, s: seq<real>, i: nat)
    requires ExpLike(exp) && i < |s|
    ensures Softmax(exp, s)[i] >= 0.0
    ensures s[i] == Max(s) ==> Softmax(exp, s)[i] > 0.0
  {
    hide Max, Softmax, Times, Recip, Total;
    SoftmaxAt(exp, s, i);
    PositiveRatio(exp(s[i] - Max(s)), Total(Weights(exp, Max(s), s)));
  }

  lemma PositiveRatio(x: real, z: real)
    requires x >= 0.0 && z >= 1.0
    ensures Times(x, Recip(z)) >= 0.0 && (x > 0.0 ==> Times(x, Recip(z)) > 0.0)
  {
    var r := Recip(z);
    assert r * z == 1.0;
    assert r > 0.0;
  }

  /** A nonempty top-k set holds a block of the largest score, so its mass is positive. */
  lemma TopKMassPositive(exp: real -> real, scores: seq<real>, k: nat, top: set<nat>)
    requires ExpLike(exp) && IsTopK(scores, k, top) && top != {}
    ensures SumOver(Softmax(exp, scores), top, |scores|) > 0.0
  {
    hide Max, Softmax, SumOver;
    var mass := Softmax(exp, scores);
    forall i | 0 <= i < |mass| ensures mass[i] >= 0.0 { MassNonnegative(exp, scores, i); }
    var t :| t in top;
    var m :| 0 <= m < |scores| && scores[m] == Max(scores);
    var best := if m in top then m else t;
    assert scores[best] == Max(scores);
    MassNonnegative(exp, scores, best);
    SumOverMember(mass, top, |scores|, best);
  }

  /** Both statistics lie in `[0, 1]`, and are zero when the two selections agree. */
  lemma SampleErrorRange(exp: real -> real, clean: seq<real>, k: nat, top: set<nat>, topQ: set<nat>)
    requires ExpLike(exp) && IsTopK(clean, k, top) && top != {}
    ensures SumOver(Softmax(exp, clean), top, |clean|) > 0.0
    ensures var (err, gate) := SampleError(exp, clean, top, topQ);
            0.0 <= err <= 1.0 && 0.0 <= gate <= 1.0 && (top <= topQ ==> err == 0.0 && gate == 0.0)
  {
    TopKMassPositive(exp, clean, k, top);
    hide Softmax;
    var mass, absent := Softmax(exp, clean), top - topQ;
    forall i | 0 <= i < |mass| ensures mass[i] >= 0.0 { MassNonnegative(exp, clean, i); }
    SumOverMonotone(mass, absent, top, |clean|);
    SubsetSize(absent, top);
    UnitRatio(SumOver(mass, absent, |clean|), SumOver(mass, top, |clean|));
    UnitRatio(|absent| as real, |top| as real);
    if top <= topQ {
      assert absent == {};
      SumOverNone(mass, |clean|);
    }
  }

  /** The total over a set is zero exactly when every entry in it is. */
  lemma {:induction false} SumOverZero(mass: seq<real>, s: set<nat>, n: nat)
    requires n <= |mass| && forall i :: 0 <= i < |mass| ==> mass[i] >= 0.0
    ensures SumOver(mass, s, n) >= 0.0
    ensures SumOver(mass, s, n) == 0.0 <==> forall i :: i in s && i < n ==> mass[i] == 0.0
  {
    if n == 0 {
    } else {
      SumOverZero(mass, s, n - 1);
    }
  }

  /** Two disjoint sets add up, and one entry alone is itself. */
  lemma {:induction false} SumOverUnion(mass: seq<real>, s: set<nat>, t: set<nat>, n: nat)
    requires n <= |mass| && s !! t
    ensures SumOver(mass, s + t, n) == SumOver(mass, s, n) + SumOver(mass, t, n)
  {
    if n == 0 {
    } else {
      SumOverUnion(mass, s, t, n - 1);
    }
  }

  lemma {:induction false} SumOverOne(mass: seq<real>, k: nat, n: nat)
    requires n <= |mass|
    ensures SumOver(mass, {k}, n) == if k < n then mass[k] else 0.0
  {
    if n == 0 {
    } else {
      SumOverOne(mass, k, n - 1);
    }
  }

  /** What the two statistics are: shares of the clean top-k mass and of its blocks that the
      quantized top-k lost. Nothing lost is zero; everything lost is one. */
  lemma SampleErrorMeaning(exp: real -> real, clean: seq<real>, k: nat, top: set<nat>, topQ: set<nat>)
    requires ExpLike(exp) && IsTopK(clean, k, top) && top != {}
    ensures SumOver(Softmax(exp, clean), top, |clean|) > 0.0
    ensures var mass, lost := Softmax(exp, clean), top - topQ;
            var (err, gate) := SampleError(exp, clean, top, topQ);
            && Times(err, SumOver(mass, top, |clean|)) == SumOver(mass, lost, |clean|)
            && Times(gate, |top| as real) == |lost| as real
            && (gate == 0.0 <==> top <= topQ)
            && (err == 0.0 <==> forall i :: i in lost ==> mass[i] == 0.0)
            && (top !! topQ ==> err == 1.0 && gate == 1.0)
  {
    hide Softmax, SumOver, Ratio, Times, IsTopK;
    TopKMassPositive(exp, clean, k, top);
    TopKInRange(clean, k, top);
    var mass, lost := Softmax(exp, clean), top - topQ;
    forall i | 0 <= i < |mass| ensures mass[i] >= 0.0 { MassNonnegative(exp, clean, i); }
    SumOverZero(mass, lost, |clean|);
    LostBlocks(top, topQ);
    RatioMeaning(SumOver(mass, lost, |clean|), SumOver(mass, top, |clean|));
    RatioMeaning(|lost| as real, |top| as real);
  }

  lemma TopKInRange(scores: seq<real>, k: nat, top: set<nat>)
    requires IsTopK(scores, k, top)
    ensures forall i :: i in top ==> i < |scores|
  {
  }

  lemma LostBlocks(top: set<nat>, topQ: set<nat>)
    ensures |top - topQ| == 0 <==> top <= topQ
    ensures top !! topQ ==> top - topQ == top
  {
    assert top - topQ == {} <==> top <= topQ;
  }

  lemma RatioMeaning(x: real, y: real)
    requires y > 0.0
    ensures Times(Ratio(x, y), y) == x
    ensures (Ratio(x, y) == 0.0 <==> x == 0.0) && (x == y ==> Ratio(x, y) == 1.0)
  {
  }

  lemma UnitRatio(x: real, y: real)
    requires 0.0 <= x <= y && y > 0.0
    ensures 0.0 <= Ratio(x, y) <= 1.0 && (x == 0.0 ==> Ratio(x, y) == 0.0)
  {
    DivMul(x, y);
    var r := x / y;
    assert r < 0.0 ==> r * y < 0.0;
    assert r > 1.0 ==> r * y > y;
  }

  // ----------------------------------------------------------------- end to end

  /** Block scores against the quantized window. */
  function QuantScores(q: seq<real>, win: seq<seq<real>>, scale: real, blocks: nat, size: nat, qmax: nat)
    : (r: seq<real>)
    requires q != [] && qmax >= 1 && IsWindow(win, |q|, blocks, size)
    ensures |r| == blocks
  {
    BlockScores(q, QuantizedWindow(win, qmax), scale, blocks, size)
  }

  /** If the scaled L1 norm of the query times the largest row step is below the clean
      margin, the quantized and clean selections are the same set, whatever ties the
      partial sorts broke, and the sample's error and set-change rate are zero. */
  lemma SelectionIsStable(exp: real -> real, q: seq<real>, win: seq<seq<real>>, scale: real,
                          blocks: nat, size: nat, qmax: nat, step: real, k: nat,
                          order: seq<nat>, top: set<nat>, topQ: set<nat>)
    requires ExpLike(exp) && qmax >= 1 && scale >= 0.0 && 1 <= k < blocks && q != []
    requires IsWindow(win, |q|, blocks, size) && StepsAtMost(win, qmax, step)
    requires IsOrder(BlockScores(q, win, scale, blocks, size), order)
    requires Times(Times(L1(q), step), scale)
           < Margin(BlockScores(q, win, scale, blocks, size), order, k)
    requires IsTopK(BlockScores(q, win, scale, blocks, size), k, top)
    requires IsTopK(QuantScores(q, win, scale, blocks, size, qmax), k, topQ)
    ensures top == topQ && top != {}
    ensures SumOver(Softmax(exp, BlockScores(q, win, scale, blocks, size)), top, blocks) > 0.0
    ensures SampleError(exp, BlockScores(q, win, scale, blocks, size), top, topQ) == (0.0, 0.0)
  {
    hide BlockScore, Margin, IsOrder, IsTopK, L1, SampleError, IsWindow, StepsAtMost;
    var clean := BlockScores(q, win, scale, blocks, size);
    var quant := QuantScores(q, win, scale, blocks, size, qmax);
    var d := ScoreShift(q, step, scale);
    forall b | 0 <= b < blocks ensures -d <= quant[b] - clean[b] <= d {
      BlockScorePerturbed(q, win, scale, blocks, size, qmax, step, b);
    }
    TwiceShift(L1(q), step, scale);
    TopKStable(clean, quant, order, k, d, top, topQ);
    FirstNonempty(clean, order, k);
    SampleErrorRange(exp, clean, k, top, topQ);
  }

  lemma TwiceShift(a: real, step: real, scale: real)
    ensures 2.0 * Times(Times(a, step / 2.0), scale) == Times(Times(a, step), scale)
  {
    assert Times(a, step / 2.0) * 2.0 == Times(a, step);
  }

  lemma FirstNonempty(scores: seq<real>, order: seq<nat>, k: nat)
    requires IsOrder(scores, order) && 1 <= k <= |scores|
    ensures First(order, k) != {}
  {
    assert order[0] in First(order, k);
  }
}
