/** Round-to-nearest affine quantization of a row, and the grouped form. Floats are reals. */
module Rtn {
  import opened SoftmaxRows

  /** The step floor of the quantizer. */
  const STEP_FLOOR: real := 0.0000000001

  // ------------------------------------------------------------------- rounding

  /** Round half to even. */
  function Rint(x: real): int {
    var f := x.Floor;
    var d := x - f as real;
    if d < 0.5 then f
    else if d > 0.5 then f + 1
    else if f % 2 == 0 then f else f + 1
  }

  /** Nearest, and even when two integers are equally near. */
  lemma RintHalfEven(x: real)
    ensures -0.5 <= Rint(x) as real - x <= 0.5
    ensures Rint(x) as real - x == 0.5 || Rint(x) as real - x == -0.5 ==> Rint(x) % 2 == 0
  {
  }

  lemma RintNearest(x: real)
    ensures -0.5 <= Rint(x) as real - x <= 0.5
  {
  }

  /** Rounding does not cross an integer. */
  lemma RintBetween(x: real, n: int)
    ensures n as real <= x ==> n <= Rint(x)
    ensures x <= n as real ==> Rint(x) <= n
  {
  }

  lemma RintExact(n: int)
    ensures Rint(n as real) == n
  {
    assert (n as real).Floor == n;
  }

  // ------------------------------------------------------------------ quantizing

  function Min(s: seq<real>): (m: real)
    requires s != []
    ensures m in s && forall i :: 0 <= i < |s| ==> m <= s[i]
  {
    if |s| == 1 then s[0]
    else
      var m := Min(s[1..]);
      assert forall i :: 0 < i < |s| ==> s[i] == s[1..][i - 1];
      if s[0] < m then s[0] else m
  }

  function StepOf(lo: real, hi: real, qmax: nat): (s: real)
    requires qmax >= 1
    ensures s >= 0.0000000001 && s >= (hi - lo) / (qmax as real)
    ensures s == 0.0000000001 || s == (hi - lo) / (qmax as real)
  {
    var s := (hi - lo) / (qmax as real);
    if s >= STEP_FLOOR then s else STEP_FLOOR
  }

  function Step(row: seq<real>, qmax: nat): real
    requires row != [] && qmax >= 1
  {
    StepOf(Min(row), Max(row), qmax)
  }

  function Clip(q: int, qmax: nat): (r: nat)
    ensures r <= qmax
  {
    if q < 0 then 0 else if q > qmax then qmax else q
  }

  function Ratio(d: real, step: real): real
    requires step > 0.0
  {
    d / step
  }

  /** `(x - lo) / step`, rounded and clipped. */
  function Code(x: real, lo: real, step: real, qmax: nat): nat
    requires step > 0.0
  {
    Clip(Rint(Ratio(x - lo, step)), qmax)
  }

  function Dequant(q: nat, lo: real, step: real): real {
    q as real * step + lo
  }

  function Roundtrip(row: seq<real>, qmax: nat): (r: seq<real>)
    requires row != [] && qmax >= 1
    ensures |r| == |row|
    ensures forall i :: 0 <= i < |row| ==>
              r[i] == Dequant(Code(row[i], Min(row), Step(row, qmax), qmax), Min(row), Step(row, qmax))
  {
    var lo, step := Min(row), Step(row, qmax);
    seq(|row|, i requires 0 <= i < |row| => Dequant(Code(row[i], lo, step, qmax), lo, step))
  }

  /** A value inside the row's range needs no clipping, and moves by at most half a step. */
  lemma CodeInRange(x: real, lo: real, hi: real, step: real, qmax: nat)
    requires qmax >= 1 && step > 0.0 && step >= (hi - lo) / (qmax as real) && lo <= x <= hi
    ensures Code(x, lo, step, qmax) == Rint(Ratio(x - lo, step))
    ensures -step / 2.0 <= Dequant(Code(x, lo, step, qmax), lo, step) - x <= step / 2.0
  {
    var d := x - lo;
    var t := Ratio(d, step);
    RangeOfQuotient(d, hi - lo, step, qmax as real);
    RintBetween(t, 0);
    RintBetween(t, qmax);
    RintNearest(t);
    hide Rint;
    var q: nat := Rint(t);
    assert Code(x, lo, step, qmax) == q;
    var y := q as real * step;
    HalfStep(q as real, t, d, step);
    assert Dequant(q, lo, step) - x == y - d;
  }

  lemma DivMul(d: real, n: real)
    requires n != 0.0
    ensures d / n * n == d
  {
  }

  lemma RangeOfQuotient(d: real, range: real, step: real, n: real)
    requires n > 0.0 && step > 0.0 && step >= range / n && 0.0 <= d <= range
    ensures 0.0 <= d / step <= n
  {
    DivMul(range, n);
    DivMul(d, step);
    var t, r := d / step, range / n;
    assert r * n <= step * n;
    assert t > n ==> t * step > n * step;
    assert t < 0.0 ==> t * step < 0.0;
  }

  lemma HalfStep(q: real, t: real, d: real, step: real)
    requires step > 0.0 && t == d / step && -0.5 <= q - t <= 0.5
    ensures -step / 2.0 <= q * step - d <= step / 2.0
  {
    DivMul(d, step);
    var e := q - t;
    assert q * step - d == e * step;
    assert -0.5 * step <= e * step <= 0.5 * step;
  }

  /** Every element moves by at most half a step. */
  lemma RoundtripError(row: seq<real>, qmax: nat, i: nat)
    requires row != [] && qmax >= 1 && i < |row|
    ensures -Step(row, qmax) / 2.0 <= Roundtrip(row, qmax)[i] - row[i] <= Step(row, qmax) / 2.0
  {
    hide Code, Dequant;
    CodeInRange(row[i], Min(row), Max(row), Step(row, qmax), qmax);
  }

  // ---------------------------------------------------------------- a projection

  /** Re-coding a dequantized value gives its code back. */
  lemma CodeOfDequant(q: nat, lo: real, step: real, qmax: nat)
    requires q <= qmax && step > 0.0
    ensures Code(Dequant(q, lo, step), lo, step, qmax) == q
  {
    assert Dequant(q, lo, step) - lo == q as real * step;
    MulDiv(q as real, step);
    assert Ratio(q as real * step, step) == q as real;
    RintExact(q);
  }

  lemma MulDiv(q: real, step: real)
    requires step != 0.0
    ensures (q * step) / step == q
  {
  }

  lemma CodeOfLo(lo: real, step: real, qmax: nat)
    requires step > 0.0
    ensures Dequant(Code(lo, lo, step, qmax), lo, step) == lo
  {
    MulDiv(0.0, step);
    RintExact(0);
  }

  lemma DequantBetween(q: nat, lo: real, step: real, qmax: nat)
    requires step > 0.0 && q <= qmax
    ensures lo <= Dequant(q, lo, step) <= Dequant(qmax, lo, step)
  {
    assert q as real * step <= qmax as real * step;
  }

  /** The roundtrip keeps the minimum. */
  lemma RoundtripMin(row: seq<real>, qmax: nat)
    requires row != [] && qmax >= 1
    ensures Min(Roundtrip(row, qmax)) == Min(row)
  {
    hide Code, Dequant, Min, Step;
    var r, lo, step := Roundtrip(row, qmax), Min(row), Step(row, qmax);
    StepPositive(row, qmax);
    var k :| 0 <= k < |row| && row[k] == lo;
    CodeOfLo(lo, step, qmax);
    assert r[k] == lo;
    forall i | 0 <= i < |r| ensures r[i] >= lo {
      CodeAtMost(row[i], lo, step, qmax);
      DequantBetween(Code(row[i], lo, step, qmax), lo, step, qmax);
    }
    IsMin(r, lo);
  }

  lemma StepPositive(row: seq<real>, qmax: nat)
    requires row != [] && qmax >= 1
    ensures Step(row, qmax) > 0.0
  {
  }

  lemma CodeAtMost(x: real, lo: real, step: real, qmax: nat)
    requires step > 0.0
    ensures Code(x, lo, step, qmax) <= qmax
  {
  }

  lemma IsMin(s: seq<real>, m: real)
    requires m in s && forall i :: 0 <= i < |s| ==> m <= s[i]
    ensures Min(s) == m
  {
    var k :| 0 <= k < |s| && s[k] == m;
  }

  lemma IsMax(s: seq<real>, m: real)
    requires m in s && forall i :: 0 <= i < |s| ==> s[i] <= m
    ensures Max(s) == m
  {
    var k :| 0 <= k < |s| && s[k] == m;
  }

  /** The roundtrip keeps the step, whether it is the range over `qmax` or the floor. */
  lemma RoundtripStep(row: seq<real>, qmax: nat)
    requires row != [] && qmax >= 1
    ensures Step(Roundtrip(row, qmax), qmax) == Step(row, qmax)
  {
    hide Code, Dequant, Min, Max;
    var r, lo, hi, step := Roundtrip(row, qmax), Min(row), Max(row), Step(row, qmax);
    RoundtripMin(row, qmax);
    var top := Dequant(qmax, lo, step);
    forall i | 0 <= i < |r| ensures r[i] <= top {
      CodeAtMost(row[i], lo, step, qmax);
      DequantBetween(Code(row[i], lo, step, qmax), lo, step, qmax);
    }
    if step == (hi - lo) / (qmax as real) {
      var k :| 0 <= k < |row| && row[k] == hi;
      TopCode(lo, hi, step, qmax);
      assert r[k] == hi;
      IsMax(r, hi);
    } else {
      FlooredStep(Max(r), lo, step, qmax);
    }
  }

  lemma TopCode(lo: real, hi: real, step: real, qmax: nat)
    requires qmax >= 1 && step > 0.0 && step == (hi - lo) / (qmax as real)
    ensures Dequant(Code(hi, lo, step, qmax), lo, step) == hi == Dequant(qmax, lo, step)
  {
    var n := qmax as real;
    DivMul(hi - lo, n);
    assert n * step == hi - lo;
    MulDiv(n, step);
    RintExact(qmax);
  }

  lemma FlooredStep(hi: real, lo: real, step: real, qmax: nat)
    requires qmax >= 1 && hi <= Dequant(qmax, lo, step)
    ensures (hi - lo) / (qmax as real) <= step
  {
    QuotientAtMost(hi - lo, step, qmax as real);
  }

  lemma QuotientAtMost(d: real, step: real, n: real)
    requires n > 0.0 && d <= n * step
    ensures d / n <= step
  {
    DivMul(d, n);
    var x := d / n;
    assert x > step ==> x * n > step * n;
  }

  /** Quantizing what was dequantized changes nothing, at the step floor too. */
  lemma RoundtripIdempotent(row: seq<real>, qmax: nat)
    requires row != [] && qmax >= 1
    ensures Roundtrip(Roundtrip(row, qmax), qmax) == Roundtrip(row, qmax)
  {
    hide Code, Dequant, Min, Max, Step;
    var r, lo, step := Roundtrip(row, qmax), Min(row), Step(row, qmax);
    StepPositive(row, qmax);
    RoundtripMin(row, qmax);
    RoundtripStep(row, qmax);
    var rr := Roundtrip(r, qmax);
    forall i | 0 <= i < |r| ensures rr[i] == r[i] {
      CodeAtMost(row[i], lo, step, qmax);
      CodeOfDequant(Code(row[i], lo, step, qmax), lo, step, qmax);
    }
  }

  // ----------------------------------------------------------------- grouped form

  /** Where the group of element `i` starts. */
  function GroupBase(i: nat, gs: nat): nat
    requires gs >= 1
  {
    i - i % gs
  }

  lemma GroupFits(n: nat, gs: nat, i: nat)
    requires gs >= 1 && n % gs == 0 && i < n
    ensures GroupBase(i, gs) + gs <= n
  {
    var k, m := i / gs, n / gs;
    assert i == k * gs + i % gs && n == m * gs;
    assert k >= m ==> k * gs >= m * gs;
    assert (k + 1) * gs <= m * gs;
    assert (k + 1) * gs == k * gs + gs;
  }

  /** The group of `gs` neighbours that holds element `i`. */
  function Group(row: seq<real>, gs: nat, i: nat): (g: seq<real>)
    requires gs >= 1 && |row| % gs == 0 && i < |row|
    ensures |g| == gs && g[i % gs] == row[i]
  {
    GroupFits(|row|, gs, i);
    row[GroupBase(i, gs)..GroupBase(i, gs) + gs]
  }

  /** The row seen as groups of `gs`, each quantized on its own. */
  function RoundtripGrouped(row: seq<real>, gs: nat, qmax: nat): (r: seq<real>)
    requires gs >= 1 && |row| % gs == 0 && qmax >= 1
    ensures |r| == |row|
    ensures forall i :: 0 <= i < |row| ==> r[i] == Roundtrip(Group(row, gs, i), qmax)[i % gs]
  {
    seq(|row|, i requires 0 <= i < |row| => Roundtrip(Group(row, gs, i), qmax)[i % gs])
  }

  /** One group as long as the row is the per-row form. */
  lemma OneGroupIsRow(row: seq<real>, qmax: nat)
    requires row != [] && qmax >= 1
    ensures |row| % |row| == 0 && RoundtripGrouped(row, |row|, qmax) == Roundtrip(row, qmax)
  {
    hide Roundtrip;
    assert |row| % |row| == 0;
    var r := RoundtripGrouped(row, |row|, qmax);
    forall i | 0 <= i < |row| ensures r[i] == Roundtrip(row, qmax)[i] {
      SmallRemainder(i, |row|);
      assert Group(row, |row|, i) == row;
    }
  }

  lemma SmallRemainder(i: nat, n: nat)
    requires i < n
    ensures i % n == i
  {
  }

  /** A stretch of a row has at most the row's step. */
  lemma StretchStep(row: seq<real>, from: nat, to: nat, qmax: nat)
    requires from < to <= |row| && qmax >= 1
    ensures Step(row[from..to], qmax) <= Step(row, qmax)
  {
    hide Min, Max;
    var g := row[from..to];
    var i :| 0 <= i < |g| && g[i] == Min(g);
    var j :| 0 <= j < |g| && g[j] == Max(g);
    assert g[i] == row[from + i] && g[j] == row[from + j];
    DivideMonotone(Max(g) - Min(g), Max(row) - Min(row), qmax as real);
  }

  lemma DivideMonotone(a: real, b: real, n: real)
    requires n > 0.0 && a <= b
    ensures a / n <= b / n
  {
    DivMul(a, n);
    DivMul(b, n);
    var x, y := a / n, b / n;
    assert x > y ==> x * n > y * n;
  }

  /** Every element of the grouped form moves by at most half of its group's step, and no
      group's step exceeds the row's. */
  lemma GroupedError(row: seq<real>, gs: nat, qmax: nat, i: nat)
    requires gs >= 1 && |row| % gs == 0 && qmax >= 1 && i < |row|
    ensures var step := Step(Group(row, gs, i), qmax);
            && -step / 2.0 <= RoundtripGrouped(row, gs, qmax)[i] - row[i] <= step / 2.0
            && step <= Step(row, qmax)
  {
    hide Roundtrip, Step;
    GroupFits(|row|, gs, i);
    RoundtripError(Group(row, gs, i), qmax, i % gs);
    StretchStep(row, GroupBase(i, gs), GroupBase(i, gs) + gs, qmax);
  }
}
