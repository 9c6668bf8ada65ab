/** Sums, softmax rows and the effect of masking a row with a large negative logit.
    Floats are modelled as reals and `exp` is a parameter, about which only
    `ExpLike` is known. */
module SoftmaxRows {

  function Max(s: seq<real>): (m: real)
    requires s != []
    ensures m in s && forall i :: 0 <= i < |s| ==> s[i] <= m
  {
    if |s| == 1 then s[0]
    else
      var m := Max(s[1..]);
      assert forall i :: 0 < i < |s| ==> s[i] == s[1..][i - 1];
      if s[0] > m then s[0] else m
  }

  /** Single-precision `exp`: nonnegative, one at zero, and zero from -104 down, where
      the result is below half of the least positive single. */
  ghost predicate ExpLike(exp: real -> real) {
    && (forall x :: exp(x) >= 0.0)
    && exp(0.0) == 1.0
    && (forall x :: x <= -104.0 ==> exp(x) == 0.0)
  }

  function Weights(exp: real -> real, m: real, s: seq<real>): (w: seq<real>)
    ensures |w| == |s| && forall i :: 0 <= i < |s| ==> w[i] == exp(s[i] - m)
  {
    seq(|s|, i requires 0 <= i < |s| => exp(s[i] - m))
  }

  function Total(s: seq<real>): real {
    if s == [] then 0.0 else s[0] + Total(s[1..])
  }

  /** A named product and reciprocal: equal arguments give equal results without arithmetic. */
  function Times(x: real, y: real): real {
    x * y
  }

  function Recip(z: real): real
    requires z != 0.0
  {
    1.0 / z
  }

  function Scaled(s: seq<real>, c: real): (r: seq<real>)
    ensures |r| == |s| && forall i :: 0 <= i < |s| ==> r[i] == Times(s[i], c)
  {
    seq(|s|, i requires 0 <= i < |s| => Times(s[i], c))
  }

  function Dot(p: seq<real>, v: seq<real>): real
    requires |p| == |v|
  {
    if p == [] then 0.0 else Times(p[0], v[0]) + Dot(p[1..], v[1..])
  }

  lemma {:induction false} TotalAtLeast(s: seq<real>, k: nat)
    requires k < |s| && forall i :: 0 <= i < |s| ==> s[i] >= 0.0
    ensures Total(s) >= s[k]
  {
    if k == 0 {
      TotalNonnegative(s[1..]);
    } else {
      TotalAtLeast(s[1..], k - 1);
    }
  }

  lemma {:induction false} TotalNonnegative(s: seq<real>)
    requires forall i :: 0 <= i < |s| ==> s[i] >= 0.0
    ensures Total(s) >= 0.0
  {
    if s == [] {
    } else {
      TotalNonnegative(s[1..]);
    }
  }

  /** The normaliser is at least one, because the largest logit contributes one. */
  lemma NormaliserPositive(exp: real -> real, s: seq<real>)
    requires ExpLike(exp) && s != []
    ensures Total(Weights(exp, Max(s), s)) >= 1.0
  {
    var m := Max(s);
    var k :| 0 <= k < |s| && s[k] == m;
    assert Weights(exp, m, s)[k] == exp(0.0);
    TotalAtLeast(Weights(exp, m, s), k);
  }

  /** Softmax with the usual subtraction of the largest entry. */
  ghost function Softmax(exp: real -> real, s: seq<real>): (p: seq<real>)
    requires ExpLike(exp)
    ensures |p| == |s|
  {
    if s == [] then []
    else
      NormaliserPositive(exp, s);
      Scaled(Weights(exp, Max(s), s), Recip(Total(Weights(exp, Max(s), s))))
  }

  lemma SoftmaxAt(exp: real -> real, s: seq<real>, i: nat)
    requires ExpLike(exp) && i < |s|
    ensures var z := Total(Weights(exp, Max(s), s));
            z >= 1.0 && Softmax(exp, s)[i] == Times(exp(s[i] - Max(s)), Recip(z))
  {
    hide Times, Recip, Max, Total;
    NormaliserPositive(exp, s);
  }

  // ------------------------------------------------------------------ masking

  function Where(cond: seq<bool>, s: seq<real>, other: real): (r: seq<real>)
    requires |cond| == |s|
    ensures |r| == |s|
    ensures forall i :: 0 <= i < |s| ==> r[i] == if cond[i] then s[i] else other
  {
    seq(|s|, i requires 0 <= i < |s| => if cond[i] then s[i] else other)
  }

  /** The entries of `s` whose flag is set, in order. */
  function Filter<T>(cond: seq<bool>, s: seq<T>): (r: seq<T>)
    requires |cond| == |s|
    ensures |r| <= |s|
  {
    if s == [] then []
    else if cond[0] then [s[0]] + Filter(cond[1..], s[1..])
    else Filter(cond[1..], s[1..])
  }

  lemma {:induction false} FilterMember<T>(cond: seq<bool>, s: seq<T>, k: nat)
    requires |cond| == |s| && k < |s| && cond[k]
    ensures s[k] in Filter(cond, s)
  {
    if k == 0 {
    } else {
      FilterMember(cond[1..], s[1..], k - 1);
    }
  }

  lemma {:induction false} FilterSound<T>(cond: seq<bool>, s: seq<T>, x: T)
    requires |cond| == |s| && x in Filter(cond, s)
    ensures exists k :: 0 <= k < |s| && cond[k] && s[k] == x
  {
    if cond[0] && s[0] == x {
    } else {
      FilterSound(cond[1..], s[1..], x);
      var k :| 0 <= k < |s| - 1 && cond[1..][k] && s[1..][k] == x;
      assert cond[k + 1] && s[k + 1] == x;
    }
  }

  lemma {:induction false} FilterDropsZeros(cond: seq<bool>, w: seq<real>)
    requires |cond| == |w| && forall i :: 0 <= i < |w| && !cond[i] ==> w[i] == 0.0
    ensures Total(w) == Total(Filter(cond, w))
  {
    if w == [] {
    } else {
      FilterDropsZeros(cond[1..], w[1..]);
      assert cond[0] ==> Filter(cond, w)[1..] == Filter(cond[1..], w[1..]);
    }
  }

  lemma {:induction false} FilterDropsZeroTerms(cond: seq<bool>, p: seq<real>, v: seq<real>)
    requires |cond| == |p| == |v| && forall i :: 0 <= i < |p| && !cond[i] ==> p[i] == 0.0
    ensures |Filter(cond, p)| == |Filter(cond, v)|
    ensures Dot(p, v) == Dot(Filter(cond, p), Filter(cond, v))
  {
    if p == [] {
    } else {
      FilterDropsZeroTerms(cond[1..], p[1..], v[1..]);
      if cond[0] {
        assert Filter(cond, p)[1..] == Filter(cond[1..], p[1..]);
        assert Filter(cond, v)[1..] == Filter(cond[1..], v[1..]);
      }
    }
  }

  lemma {:induction false} FilterWeights(exp: real -> real, m: real, cond: seq<bool>,
                                         s: seq<real>, w: seq<real>)
    requires |cond| == |s| == |w|
    requires forall i :: 0 <= i < |s| && cond[i] ==> w[i] == exp(s[i] - m)
    ensures Filter(cond, w) == Weights(exp, m, Filter(cond, s))
  {
    hide Weights;
    if s == [] {
      assert Weights(exp, m, []) == [];
    } else {
      FilterWeights(exp, m, cond[1..], s[1..], w[1..]);
      if cond[0] {
        WeightsCons(exp, m, s[0], Filter(cond[1..], s[1..]));
      }
    }
  }

  lemma WeightsCons(exp: real -> real, m: real, x: real, s: seq<real>)
    ensures Weights(exp, m, [x] + s) == [exp(x - m)] + Weights(exp, m, s)
  {
  }

  lemma {:induction false} FilterScaled(cond: seq<bool>, s: seq<real>, c: real)
    requires |cond| == |s|
    ensures Filter(cond, Scaled(s, c)) == Scaled(Filter(cond, s), c)
  {
    if s == [] {
    } else {
      FilterScaled(cond[1..], s[1..], c);
      assert Scaled(s, c)[1..] == Scaled(s[1..], c);
    }
  }

  /** Overwriting masked logits by `invalid` leaves the row maximum to the unmasked logits
      when one of them is at least `invalid`. */
  lemma MaskedMax(cond: seq<bool>, s: seq<real>, invalid: real, k: nat)
    requires |cond| == |s| && k < |s| && cond[k] && invalid <= s[k]
    ensures Filter(cond, s) != [] && Max(Where(cond, s, invalid)) == Max(Filter(cond, s))
  {
    hide Max;
    var l := Where(cond, s, invalid);
    var i :| 0 <= i < |l| && l[i] == Max(l);
    UnmaskedMax(cond, s, invalid, if cond[i] then i else k);
  }

  lemma UnmaskedMax(cond: seq<bool>, s: seq<real>, invalid: real, k: nat)
    requires |cond| == |s| && k < |s| && cond[k] && s[k] == Max(Where(cond, s, invalid))
    ensures Filter(cond, s) != [] && Max(Filter(cond, s)) == s[k]
  {
    hide Max;
    FilterMember(cond, s, k);
    FilterSound(cond, s, Max(Filter(cond, s)));
    var i :| 0 <= i < |s| && cond[i] && s[i] == Max(Filter(cond, s));
    assert Where(cond, s, invalid)[i] == s[i];
  }

  /** `exp` is zero at the distance from the mask value up to the row maximum. */
  predicate MaskUnderflows(exp: real -> real, cond: seq<bool>, s: seq<real>, invalid: real)
    requires |cond| == |s| && s != []
  {
    exp(invalid - Max(Where(cond, s, invalid))) == 0.0
  }

  /** With an underflowing mask value, an unmasked logit is the row maximum. */
  lemma UnderflowNeedsLogit(exp: real -> real, cond: seq<bool>, s: seq<real>, invalid: real) returns (k: nat)
    requires ExpLike(exp) && |cond| == |s| && s != [] && MaskUnderflows(exp, cond, s, invalid)
    ensures k < |s| && cond[k] && s[k] == Max(Where(cond, s, invalid))
  {
    var l := Where(cond, s, invalid);
    var top := Max(l);
    var i :| 0 <= i < |l| && l[i] == top;
    assert !cond[i] ==> invalid - top == 0.0;
    k := i;
  }

  /** The softmax-weighted sum over all slots of a masked row, and over the unmasked slots
      alone, are the same for the values `v`. */
  ghost predicate Excludes(exp: real -> real, cond: seq<bool>, s: seq<real>, invalid: real, v: seq<real>)
    requires ExpLike(exp) && |cond| == |s| == |v|
  {
    && |Filter(cond, s)| == |Filter(cond, v)|
    && Dot(Softmax(exp, Where(cond, s, invalid)), v) == Dot(Softmax(exp, Filter(cond, s)), Filter(cond, v))
  }

  /** Masking by an underflowing value is exclusion. */
  lemma MaskedRowIsExclusion(exp: real -> real, cond: seq<bool>, s: seq<real>, invalid: real, v: seq<real>)
    requires ExpLike(exp) && |cond| == |s| == |v| && s != [] && MaskUnderflows(exp, cond, s, invalid)
    ensures Excludes(exp, cond, s, invalid, v)
  {
    hide Max, Dot, Total, Recip, Times, Filter, Scaled, Where, Weights;
    var k := UnderflowNeedsLogit(exp, cond, s, invalid);
    UnmaskedMax(cond, s, invalid, k);
    var l := Where(cond, s, invalid);
    var m := Max(l);
    var w := Weights(exp, m, l);
    FilterWeights(exp, m, cond, s, w);
    NormaliserPositive(exp, l);
    ExcludedMean(cond, w, Recip(Total(w)), v);
  }

  /** Nothing masked, nothing excluded. */
  lemma {:induction false} FilterAll<T>(cond: seq<bool>, s: seq<T>)
    requires |cond| == |s| && forall i :: 0 <= i < |cond| ==> cond[i]
    ensures Filter(cond, s) == s
  {
    if s == [] {
    } else {
      FilterAll(cond[1..], s[1..]);
    }
  }

  function Unit(n: nat, k: nat): (v: seq<real>)
    ensures |v| == n && forall i :: 0 <= i < n ==> v[i] == if i == k then 1.0 else 0.0
  {
    seq(n, i => if i == k then 1.0 else 0.0)
  }

  lemma {:induction false} DotZero(p: seq<real>, v: seq<real>)
    requires |p| == |v| && forall i :: 0 <= i < |v| ==> v[i] == 0.0
    ensures Dot(p, v) == 0.0
  {
    if p == [] {
    } else {
      DotZero(p[1..], v[1..]);
    }
  }

  lemma {:induction false} DotUnit(p: seq<real>, v: seq<real>, k: nat)
    requires |p| == |v| && k < |p|
    requires forall i :: 0 <= i < |v| ==> v[i] == if i == k then 1.0 else 0.0
    ensures Dot(p, v) == p[k]
  {
    if k == 0 { DotZero(p[1..], v[1..]); } else { DotUnit(p[1..], v[1..], k - 1); }
  }

  lemma FilterZeros(cond: seq<bool>, v: seq<real>)
    requires |cond| == |v| && forall i :: 0 <= i < |v| && cond[i] ==> v[i] == 0.0
    ensures forall i :: 0 <= i < |Filter(cond, v)| ==> Filter(cond, v)[i] == 0.0
  {
    forall i | 0 <= i < |Filter(cond, v)| ensures Filter(cond, v)[i] == 0.0 {
      FilterSound(cond, v, Filter(cond, v)[i]);
    }
  }

  /** When some slot is masked, underflow is exactly what exclusion needs: otherwise there
      are values for which the two sums differ. */
  lemma ExclusionNeedsUnderflow(exp: real -> real, cond: seq<bool>, s: seq<real>, invalid: real, k: nat)
    requires ExpLike(exp) && |cond| == |s| && k < |s| && !cond[k]
    ensures (forall v: seq<real> :: |v| == |s| ==> Excludes(exp, cond, s, invalid, v))
       <==> MaskUnderflows(exp, cond, s, invalid)
    ensures !MaskUnderflows(exp, cond, s, invalid) ==> !Excludes(exp, cond, s, invalid, Unit(|s|, k))
  {
    hide Max, Dot, Softmax, Filter;
    var v := Unit(|s|, k);
    if MaskUnderflows(exp, cond, s, invalid) {
      forall v: seq<real> | |v| == |s| ensures Excludes(exp, cond, s, invalid, v) {
        MaskedRowIsExclusion(exp, cond, s, invalid, v);
      }
    } else {
      MaskedSlotWeight(exp, cond, s, invalid, k);
      DotUnit(Softmax(exp, Where(cond, s, invalid)), v, k);
      FilterZeros(cond, v);
      if |Filter(cond, s)| == |Filter(cond, v)| {
        DotZero(Softmax(exp, Filter(cond, s)), Filter(cond, v));
      }
    }
  }

  lemma ExcludedMean(cond: seq<bool>, w: seq<real>, c: real, v: seq<real>)
    requires |cond| == |w| == |v|
    requires forall i :: 0 <= i < |w| && !cond[i] ==> w[i] == 0.0
    ensures |Filter(cond, w)| == |Filter(cond, v)| && Total(Filter(cond, w)) == Total(w)
    ensures Dot(Scaled(w, c), v) == Dot(Scaled(Filter(cond, w), c), Filter(cond, v))
  {
    FilterDropsZeros(cond, w);
    FilterScaled(cond, w, c);
    FilterDropsZeroTerms(cond, Scaled(w, c), v);
  }

  lemma {:induction false} TotalScaled(w: seq<real>, c: real)
    ensures Total(Scaled(w, c)) == Times(Total(w), c)
  {
    if w == [] {
    } else {
      TotalScaled(w[1..], c);
      assert Scaled(w, c)[1..] == Scaled(w[1..], c);
    }
  }

  /** Softmax weights are nonnegative and add up to one. */
  lemma SoftmaxIsDistribution(exp: real -> real, s: seq<real>)
    requires ExpLike(exp) && s != []
    ensures Total(Softmax(exp, s)) == 1.0
    ensures forall i :: 0 <= i < |s| ==> Softmax(exp, s)[i] >= 0.0
  {
    hide Max, Total, Times, Recip, Weights, Scaled;
    NormaliserPositive(exp, s);
    var w := Weights(exp, Max(s), s);
    TotalScaled(w, Recip(Total(w)));
    RecipPositive(Total(w));
    forall i | 0 <= i < |s| ensures Softmax(exp, s)[i] >= 0.0 {
      ProductNonnegative(w[i], Recip(Total(w)));
    }
  }

  lemma RecipPositive(z: real)
    requires z >= 1.0
    ensures Recip(z) > 0.0 && Times(z, Recip(z)) == 1.0
  {
  }

  lemma ProductNonnegative(x: real, y: real)
    requires x >= 0.0 && y >= 0.0
    ensures Times(x, y) >= 0.0
  {
  }

  /** One where a slot is unmasked, zero elsewhere. */
  function Indicator(cond: seq<bool>): (v: seq<real>)
    ensures |v| == |cond| && forall i :: 0 <= i < |cond| ==> v[i] == if cond[i] then 1.0 else 0.0
  {
    seq(|cond|, i requires 0 <= i < |cond| => if cond[i] then 1.0 else 0.0)
  }

  lemma {:induction false} DotOfOnes(p: seq<real>, v: seq<real>)
    requires |p| == |v| && forall i :: 0 <= i < |v| ==> v[i] == 1.0
    ensures Dot(p, v) == Total(p)
  {
    if p == [] {
    } else {
      DotOfOnes(p[1..], v[1..]);
    }
  }

  lemma {:induction false} IndicatorAtMost(p: seq<real>, v: seq<real>)
    requires |p| == |v| && forall i :: 0 <= i < |p| ==> p[i] >= 0.0 && (v[i] == 0.0 || v[i] == 1.0)
    ensures Dot(p, v) <= Total(p)
  {
    if p == [] {
    } else {
      IndicatorAtMost(p[1..], v[1..]);
    }
  }

  lemma {:induction false} IndicatorMisses(p: seq<real>, v: seq<real>, k: nat)
    requires |p| == |v| && forall i :: 0 <= i < |p| ==> p[i] >= 0.0 && (v[i] == 0.0 || v[i] == 1.0)
    requires k < |p| && v[k] == 0.0
    ensures Dot(p, v) <= Total(p) - p[k]
  {
    if k == 0 { IndicatorAtMost(p[1..], v[1..]); } else { IndicatorMisses(p[1..], v[1..], k - 1); }
  }

  /** A masked slot that keeps weight shows on the indicator of the unmasked slots: their
      own softmax gives one, the masked row less. */
  lemma IndicatorTells(exp: real -> real, cond: seq<bool>, s: seq<real>, invalid: real, k: nat, u: nat)
    requires ExpLike(exp) && |cond| == |s| && k < |s| && !cond[k] && u < |s| && cond[u]
    requires !MaskUnderflows(exp, cond, s, invalid)
    ensures !Excludes(exp, cond, s, invalid, Indicator(cond))
  {
    hide Max, Dot, Softmax, Filter, Total, Indicator;
    var v, f := Indicator(cond), Filter(cond, s);
    var p := Softmax(exp, Where(cond, s, invalid));
    SoftmaxIsDistribution(exp, Where(cond, s, invalid));
    MaskedSlotWeight(exp, cond, s, invalid, k);
    IndicatorMisses(p, v, k);
    FilterMember(cond, s, u);
    SoftmaxIsDistribution(exp, f);
    FilterOnes(cond, v);
    if |f| == |Filter(cond, v)| { DotOfOnes(Softmax(exp, f), Filter(cond, v)); }
  }

  lemma FilterOnes(cond: seq<bool>, v: seq<real>)
    requires |cond| == |v| && forall i :: 0 <= i < |v| && cond[i] ==> v[i] == 1.0
    ensures forall i :: 0 <= i < |Filter(cond, v)| ==> Filter(cond, v)[i] == 1.0
  {
    forall i | 0 <= i < |Filter(cond, v)| ensures Filter(cond, v)[i] == 1.0 {
      FilterSound(cond, v, Filter(cond, v)[i]);
    }
  }

  /** Helper, softmax read at a masked slot: its weight is zero exactly when `exp` underflows at the
      distance from the mask value up to the largest logit of the row. */
  lemma MaskedSlotWeight(exp: real -> real, cond: seq<bool>, s: seq<real>, invalid: real, k: nat)
    requires ExpLike(exp) && |cond| == |s| && k < |s| && !cond[k]
    ensures Softmax(exp, Where(cond, s, invalid))[k] == 0.0
       <==> exp(invalid - Max(Where(cond, s, invalid))) == 0.0
  {
    hide Max, Softmax, Total, Recip, Times, Where, Weights;
    var l := Where(cond, s, invalid);
    SoftmaxAt(exp, l, k);
    ScaledZero(exp(invalid - Max(l)), Total(Weights(exp, Max(l), l)));
  }

  lemma ScaledZero(x: real, z: real)
    requires z >= 1.0
    ensures Times(x, Recip(z)) == 0.0 <==> x == 0.0
  {
    assert Times(x, Recip(z)) * z == x;
  }

  /** With every slot masked the row is uniform: the plain mean of the values. */
  lemma FullyMaskedRow(exp: real -> real, cond: seq<bool>, s: seq<real>,
                       invalid: real, v: seq<real>)
    requires ExpLike(exp) && |cond| == |s| == |v| && s != []
    requires forall i :: 0 <= i < |s| ==> !cond[i]
    ensures Dot(Softmax(exp, Where(cond, s, invalid)), v) == Total(v) / (|v| as real)
  {
    hide Max, Dot, Total, Recip, Scaled, Where, Weights;
    var l := Where(cond, s, invalid);
    assert Max(l) == invalid;
    var w := Weights(exp, invalid, l);
    forall i | 0 <= i < |w| ensures w[i] == 1.0 {
      assert l[i] - invalid == 0.0;
    }
    UniformMean(w, |v| as real, v);
  }

  lemma UniformMean(w: seq<real>, z: real, v: seq<real>)
    requires |w| == |v| && w != [] && forall i :: 0 <= i < |w| ==> w[i] == 1.0
    requires z == |w| as real
    ensures Total(w) == z
    ensures Dot(Scaled(w, Recip(z)), v) == Total(v) / z
  {
    TotalOfOnes(w);
    DotOnes(w, Recip(z), v);
    DivideBy(Total(v), z);
  }

  lemma DotOnes(w: seq<real>, c: real, v: seq<real>)
    requires |w| == |v| && forall i :: 0 <= i < |w| ==> w[i] == 1.0
    ensures Dot(Scaled(w, c), v) == Times(c, Total(v))
  {
    assert Times(1.0, c) == c;
    DotConstant(Scaled(w, c), c, v);
  }

  lemma DivideBy(x: real, n: real)
    requires n != 0.0
    ensures Times(Recip(n), x) == x / n
  {
  }

  lemma {:induction false} TotalOfOnes(w: seq<real>)
    requires forall i :: 0 <= i < |w| ==> w[i] == 1.0
    ensures Total(w) == |w| as real
  {
    if w == [] {
    } else {
      TotalOfOnes(w[1..]);
    }
  }

  lemma {:induction false} DotConstant(p: seq<real>, c: real, v: seq<real>)
    requires |p| == |v| && forall i :: 0 <= i < |p| ==> p[i] == c
    ensures Dot(p, v) == c * Total(v)
  {
    if p == [] {
    } else {
      DotConstant(p[1..], c, v[1..]);
    }
  }
}
