/** Dense sliding-window attention, and the proof that the chunked form computes it. */
module DenseAttention {
  import opened Tensors
  import opened SoftmaxRows
  import opened Products
  import opened Blocks
  import opened Attention

  // --------------------------------------------------------------- key lists

  /** The integers of `lo..hi` that satisfy `p`, in increasing order. */
  function Select(p: int -> bool, lo: int, hi: int): (r: seq<int>)
    decreases hi - lo
  {
    if lo >= hi then []
    else if p(lo) then [lo] + Select(p, lo + 1, hi)
    else Select(p, lo + 1, hi)
  }

  lemma {:induction false} SelectMember(p: int -> bool, lo: int, hi: int, s: int)
    ensures s in Select(p, lo, hi) <==> lo <= s < hi && p(s)
    decreases hi - lo
  {
    if lo >= hi {
    } else {
      SelectMember(p, lo + 1, hi, s);
    }
  }

  /** Widening the range by integers that fail `p` changes nothing. */
  lemma {:induction false} SelectWiden(p: int -> bool, lo: int, a: int, b: int, hi: int)
    requires lo <= a <= b <= hi && forall s :: p(s) ==> a <= s < b
    ensures Select(p, lo, hi) == Select(p, a, b)
    decreases hi - lo
  {
    if lo < a {
      SelectWiden(p, lo + 1, a, b, hi);
    } else if a < b {
      SelectShift(p, a, b, hi);
    } else if lo < hi {
      SelectNone(p, lo, hi);
    }
  }

  lemma {:induction false} SelectNone(p: int -> bool, lo: int, hi: int)
    requires forall s :: lo <= s < hi ==> !p(s)
    ensures Select(p, lo, hi) == []
    decreases hi - lo
  {
    if lo >= hi {
    } else {
      SelectNone(p, lo + 1, hi);
    }
  }

  lemma {:induction false} SelectShift(p: int -> bool, a: int, b: int, hi: int)
    requires a <= b <= hi && forall s :: b <= s < hi ==> !p(s)
    ensures Select(p, a, hi) == Select(p, a, b)
    decreases b - a
  {
    if a < b { SelectShift(p, a + 1, b, hi); } else { SelectNone(p, b, hi); }
  }

  function Map(f: int -> real, keys: seq<int>): (r: seq<real>)
    ensures |r| == |keys| && forall i :: 0 <= i < |keys| ==> r[i] == f(keys[i])
  {
    seq(|keys|, i requires 0 <= i < |keys| => f(keys[i]))
  }

  /** Filtering a window of consecutive integers is selecting from it. */
  lemma {:induction false} FilterIsSelect(p: int -> bool, f: int -> real, lo: int,
                                          cond: seq<bool>, vals: seq<real>)
    requires |cond| == |vals|
    requires forall c :: 0 <= c < |cond| ==> cond[c] == p(lo + c)
    requires forall c :: 0 <= c < |cond| && cond[c] ==> vals[c] == f(lo + c)
    ensures Filter(cond, vals) == Map(f, Select(p, lo, lo + |cond|))
    decreases |cond|
  {
    if cond == [] {
    } else {
      forall c | 0 <= c < |cond| - 1
        ensures cond[1..][c] == p(lo + 1 + c)
        ensures cond[1..][c] ==> vals[1..][c] == f(lo + 1 + c)
      {
        assert cond[1..][c] == cond[c + 1] && vals[1..][c] == vals[c + 1];
        assert lo + (c + 1) == lo + 1 + c;
      }
      FilterIsSelect(p, f, lo + 1, cond[1..], vals[1..]);
      assert cond[0] == p(lo + 0);
    }
  }

  // --------------------------------------------------------- dense attention

  /** Frame `s` may be attended from frame `t`: an unpadded frame at most `contextRight`
      later, or fewer than `contextLeft` earlier. */
  function Attendable(cfg: AudioConfig, x: Input, b: nat, t: nat): int -> bool {
    (s: int) => && 0 <= s < x.frames && !x.mask.at([b, s])
                && s <= t + cfg.contextRight && (s >= t || t - s < cfg.contextLeft)
  }

  /** `tanh(y / cap) * cap`. */
  function Capped(cfg: AudioConfig, tanh: real -> real, y: real): real
    requires cfg.cap != 0.0
  {
    Times(tanh(y / cfg.cap), cfg.cap)
  }

  /** Multiplying by the reciprocal of the cap divides by it. */
  lemma SoftCapIsCapped(cfg: AudioConfig, tanh: real -> real, y: real)
    requires cfg.cap != 0.0
    ensures SoftCap(cfg, tanh, y) == Capped(cfg, tanh, y)
  {
    ReciprocalDivides(y, cfg.cap);
    hide Times, Recip;
  }

  lemma ReciprocalDivides(y: real, cap: real)
    requires cap != 0.0
    ensures Times(y, Recip(cap)) == y / cap
  {
  }

  /** Logit of frame `t` against frame `s`: `q_t . k_s + q_t . rel(t - s)`, capped. */
  function DenseLogit(cfg: AudioConfig, x: Input, rel: (int, nat) -> real, tanh: real -> real,
                      b: nat, n: nat, t: nat): int -> real
    requires Shaped(cfg, x) && cfg.cap != 0.0
  {
    (s: int) =>
      if s < 0 then 0.0
      else Capped(cfg, tanh, Dot(Row(x.q, [b, t, n]), Row(x.k, [b, s, n]))
                             + Dot(Row(x.q, [b, t, n]), RelRow(cfg, rel, t - s, n)))
  }

  function ValueOf(x: Input, b: nat, n: nat, h: nat): int -> real {
    (s: int) => if s < 0 then 0.0 else x.v.at([b, s, n, h])
  }

  function AttendedKeys(cfg: AudioConfig, x: Input, b: nat, t: nat): seq<int> {
    Select(Attendable(cfg, x, b, t), 0, x.frames)
  }

  /** One component of dense sliding-window attention: softmax over the attended frames
      alone, and the weighted sum of their values. */
  ghost function DenseOutput(cfg: AudioConfig, x: Input, rel: (int, nat) -> real, tanh: real -> real,
                             exp: real -> real, b: nat, n: nat, h: nat, t: nat): real
    requires Shaped(cfg, x) && cfg.cap != 0.0 && ExpLike(exp)
  {
    var keys := AttendedKeys(cfg, x, b, t);
    Dot(Softmax(exp, Map(DenseLogit(cfg, x, rel, tanh, b, n, t), keys)), Map(ValueOf(x, b, n, h), keys))
  }

  // ------------------------------------------------- chunked equals dense

  /** Row `w` of block `u` stands for frame `t`, and the window of block `u` starts at
      frame `lo`, which is negative near the start. */
  predicate Placed(cfg: AudioConfig, x: Input, u: nat, w: nat, t: nat, lo: int) {
    && Shaped(cfg, x) && u < NumBlocks(cfg, x) && w < cfg.chunk
    && t == u * cfg.chunk + w && t < x.frames
    && lo == u * cfg.chunk - MaxPast(cfg)
  }

  lemma QueryRow(cfg: AudioConfig, x: Input, b: nat, u: nat, w: nat, n: nat, t: nat, lo: int)
    requires Placed(cfg, x, u, w, t, lo) && b < x.batch && n < cfg.heads
    ensures Row(ConvertToBlock(cfg, x.q, 0.0), [b, u, w, n]) == Row(x.q, [b, t, n])
  {
    hide ConvertToBlock;
    var blocks := ConvertToBlock(cfg, x.q, 0.0);
    forall y | 0 <= y < cfg.headDim
      ensures blocks.at([b, u, w, n] + [y]) == x.q.at([b, t, n] + [y])
    {
      ConvertToBlockAt(cfg, x.q, 0.0, b, u, w, [n, y]);
      assert [b, u, w] + [n, y] == [b, u, w, n] + [y] && [b, t] + [n, y] == [b, t, n] + [y];
    }
  }

  /** Slot `c` stands for frame `lo + c`. */
  lemma KeyRow(cfg: AudioConfig, x: Input, b: nat, u: nat, w: nat, t: nat, lo: int,
               c: nat, n: nat, s: nat)
    requires Placed(cfg, x, u, w, t, lo) && b < x.batch && n < cfg.heads
    requires c < ContextSize(cfg) && s == lo + c < x.frames
    ensures Row(ExtractBlockContext(cfg, x.k, 0.0), [b, u, c, n]) == Row(x.k, [b, s, n])
  {
    hide ExtractBlockContext;
    var blocks := ExtractBlockContext(cfg, x.k, 0.0);
    forall y | 0 <= y < cfg.headDim
      ensures blocks.at([b, u, c, n] + [y]) == x.k.at([b, s, n] + [y])
    {
      ExtractBlockContextAt(cfg, x.k, 0.0, b, u, c, [n, y]);
      assert [b, u, c] + [n, y] == [b, u, c, n] + [y] && [b, s] + [n, y] == [b, s, n] + [y];
    }
  }

  /** The unmasked slots of a row are exactly the attendable frames of its query. */
  lemma ConditionAt(cfg: AudioConfig, x: Input, b: nat, u: nat, w: nat, t: nat, lo: int, c: nat)
    requires Placed(cfg, x, u, w, t, lo) && b < x.batch && c < ContextSize(cfg)
    ensures Condition(cfg, x).at([b, 0, u, w, c]) == Attendable(cfg, x, b, t)(lo + c)
  {
    hide ExtractedValid, CausalMask;
    var idx := [b, 0, u, w, c];
    assert Coord(idx, 0) == b && Coord(idx, 2) == u && Coord(idx, 3) == w && Coord(idx, 4) == c;
    ExtractedValidAt(cfg, x, b, u, c);
    CausalMaskAt(cfg, w, c);
  }

  /** One slot of a masked logit row: the dense logit where attendable, else the mask value. */
  lemma SlotLogit(cfg: AudioConfig, x: Input, rel: (int, nat) -> real, tanh: real -> real,
                  b: nat, n: nat, u: nat, w: nat, t: nat, lo: int, c: nat)
    requires Placed(cfg, x, u, w, t, lo) && cfg.cap != 0.0
    requires b < x.batch && n < cfg.heads && c < ContextSize(cfg)
    ensures MaskedLogits(cfg, x, rel, tanh).at([b, n, u, w, c])
              == if Attendable(cfg, x, b, t)(lo + c)
                 then DenseLogit(cfg, x, rel, tanh, b, n, t)(lo + c) else cfg.invalid
  {
    hide ConvertToBlock, ExtractBlockContext, ComputeRelativeAttention, Condition, Dot, RelRow,
         Row, SoftCap, Capped, Flat, Size;
    ConditionAt(cfg, x, b, u, w, t, lo, c);
    assert With([b, n, u, w, c], 1, 0) == [b, 0, u, w, c];
    if Attendable(cfg, x, b, t)(lo + c) {
      QueryRow(cfg, x, b, u, w, n, t, lo);
      KeyRow(cfg, x, b, u, w, t, lo, c, n, lo + c);
      RelativeLogitAt(cfg, ConvertToBlock(cfg, x.q, 0.0), ExtractBlockContext(cfg, x.k, 0.0),
                      rel, x.batch, NumBlocks(cfg, x), b, n, u, w, c);
      assert MaxPast(cfg) - (c - w) == t - (lo + c);
      SoftCapIsCapped(cfg, tanh, Dot(Row(x.q, [b, t, n]), Row(x.k, [b, lo + c, n]))
                                 + Dot(Row(x.q, [b, t, n]), RelRow(cfg, rel, t - (lo + c), n)));
    }
  }

  /** `f` over the `n` integers from `lo`. */
  function Window<T>(f: int -> T, lo: int, n: nat): (r: seq<T>)
    ensures |r| == n && forall c :: 0 <= c < n ==> r[c] == f(lo + c)
  {
    seq(n, c requires 0 <= c => f(lo + c))
  }

  /** A whole row of masked logits. */
  lemma LogitRow(cfg: AudioConfig, x: Input, rel: (int, nat) -> real, tanh: real -> real,
                 b: nat, n: nat, u: nat, w: nat, t: nat, lo: int)
    requires Placed(cfg, x, u, w, t, lo) && cfg.cap != 0.0 && b < x.batch && n < cfg.heads
    ensures Row(MaskedLogits(cfg, x, rel, tanh), [b, n, u, w])
              == Where(Window(Attendable(cfg, x, b, t), lo, ContextSize(cfg)),
                       Window(DenseLogit(cfg, x, rel, tanh, b, n, t), lo, ContextSize(cfg)), cfg.invalid)
  {
    hide MaskedLogits, Attendable, DenseLogit;
    forall c | 0 <= c < ContextSize(cfg)
      ensures [b, n, u, w] + [c] == [b, n, u, w, c]
      ensures MaskedLogits(cfg, x, rel, tanh).at([b, n, u, w, c])
           == if Attendable(cfg, x, b, t)(lo + c)
              then DenseLogit(cfg, x, rel, tanh, b, n, t)(lo + c) else cfg.invalid
    {
      SlotLogit(cfg, x, rel, tanh, b, n, u, w, t, lo, c);
    }
  }

  /** The windowed values: those of the frames, and zero outside the input. */
  lemma WindowValue(cfg: AudioConfig, x: Input, b: nat, u: nat, w: nat, t: nat, lo: int,
                    n: nat, h: nat, c: nat)
    requires Placed(cfg, x, u, w, t, lo) && b < x.batch
    requires n < cfg.heads && h < cfg.headDim && c < ContextSize(cfg)
    ensures ExtractBlockContext(cfg, x.v, 0.0).at([b, u, c, n, h])
              == if 0 <= lo + c < x.frames then ValueOf(x, b, n, h)(lo + c) else 0.0
  {
    hide ExtractBlockContext;
    var s := lo + c;
    ExtractBlockContextAt(cfg, x.v, 0.0, b, u, c, [n, h]);
    assert [b, u, c] + [n, h] == [b, u, c, n, h];
    if 0 <= s { assert [b, s] + [n, h] == [b, s, n, h]; }
  }

  /** Every attendable frame lies in the window of its query's block. */
  lemma KeysInWindow(cfg: AudioConfig, x: Input, b: nat, u: nat, w: nat, t: nat, lo: int)
    requires Placed(cfg, x, u, w, t, lo)
    ensures Select(Attendable(cfg, x, b, t), lo, lo + ContextSize(cfg)) == AttendedKeys(cfg, x, b, t)
  {
    var hi := lo + ContextSize(cfg);
    var p := Attendable(cfg, x, b, t);
    var low, high := if lo < 0 then lo else 0, if hi > x.frames then hi else x.frames;
    SelectWiden(p, low, lo, hi, high);
    SelectWiden(p, low, 0, x.frames, high);
  }

  /** The values in the window of block `u`, for one output component. */
  function ValueColumn(cfg: AudioConfig, x: Input, b: nat, u: nat, n: nat, h: nat): (r: seq<real>)
    requires Shaped(cfg, x)
    ensures |r| == ContextSize(cfg)
  {
    WindowColumn(ExtractBlockContext(cfg, x.v, 0.0), b, u, n, h)
  }

  /** One component of one row of the chunked form. */
  ghost function ChunkedOutput(cfg: AudioConfig, x: Input, rel: (int, nat) -> real, tanh: real -> real,
                               exp: real -> real, b: nat, n: nat, h: nat, u: nat, w: nat): real
    requires Shaped(cfg, x) && cfg.cap != 0.0 && ExpLike(exp)
  {
    Dot(Softmax(exp, Row(MaskedLogits(cfg, x, rel, tanh), [b, n, u, w])),
        ValueColumn(cfg, x, b, u, n, h))
  }

  lemma AttendIsChunked(cfg: AudioConfig, x: Input, rel: (int, nat) -> real, tanh: real -> real,
                        exp: real -> real, b: nat, n: nat, h: nat, u: nat, w: nat)
    requires Shaped(cfg, x) && cfg.cap != 0.0 && ExpLike(exp)
    ensures Attend(cfg, x, rel, tanh, exp).at([b, u, w, n, h])
         == ChunkedOutput(cfg, x, rel, tanh, exp, b, n, h, u, w)
  {
    hide MaskedLogits, ExtractBlockContext, Softmax, Dot;
    var idx := [b, u, w, n, h];
    assert Coord(idx, 0) == b && Coord(idx, 1) == u && Coord(idx, 2) == w;
    assert Coord(idx, 3) == n && Coord(idx, 4) == h;
  }

  /** Where the window of the block that holds frame `t` starts. */
  function WindowStart(cfg: AudioConfig, t: nat): int
    requires cfg.chunk >= 1
  {
    t - t % cfg.chunk - MaxPast(cfg)
  }

  /** Frame `t` attends every slot of its block's window, so nothing is masked. */
  predicate WholeWindow(cfg: AudioConfig, x: Input, b: nat, t: nat)
    requires cfg.chunk >= 1
  {
    var cond := Window(Attendable(cfg, x, b, t), WindowStart(cfg, t), ContextSize(cfg));
    forall c :: 0 <= c < |cond| ==> cond[c]
  }

  /** The mask value lies so far below the largest logit attended that `exp` underflows. */
  ghost predicate MaskVanishes(cfg: AudioConfig, x: Input, rel: (int, nat) -> real, tanh: real -> real,
                               exp: real -> real, b: nat, n: nat, t: nat)
    requires Shaped(cfg, x) && cfg.cap != 0.0
  {
    var logits := Map(DenseLogit(cfg, x, rel, tanh, b, n, t), AttendedKeys(cfg, x, b, t));
    logits != [] && cfg.invalid <= Max(logits) && exp(cfg.invalid - Max(logits)) == 0.0
  }

  /** On a row, the mask vanishes exactly when it underflows, given a masked slot. */
  lemma VanishesIsUnderflow(exp: real -> real, cond: seq<bool>, vals: seq<real>, invalid: real, logits: seq<real>)
    requires ExpLike(exp) && |cond| == |vals| && vals != [] && logits == Filter(cond, vals) != []
    requires exists c :: 0 <= c < |cond| && !cond[c]
    ensures invalid <= Max(logits) && exp(invalid - Max(logits)) == 0.0 <==> MaskUnderflows(exp, cond, vals, invalid)
  {
    hide Max, Filter, Where;
    if invalid <= Max(logits) {
      FilterSound(cond, vals, Max(logits));
      var k :| 0 <= k < |vals| && cond[k] && vals[k] == Max(logits);
      MaskedMax(cond, vals, invalid, k);
    } else {
      var c :| 0 <= c < |cond| && !cond[c];
      MaskOnTop(cond, vals, invalid, c);
      assert invalid - Max(Where(cond, vals, invalid)) == 0.0;
    }
  }

  lemma MaskOnTop(cond: seq<bool>, vals: seq<real>, invalid: real, c: nat)
    requires |cond| == |vals| && c < |cond| && !cond[c]
    requires Filter(cond, vals) != [] && Max(Filter(cond, vals)) <= invalid
    ensures Max(Where(cond, vals, invalid)) == invalid
  {
    hide Max, Filter, Where;
    var l := Where(cond, vals, invalid);
    assert l[c] == invalid;
    var i :| 0 <= i < |l| && l[i] == Max(l);
    if cond[i] { FilterMember(cond, vals, i); }
  }

  /** The chunked row and the dense one agree on a frame with a key exactly when the row's
      masked slots are excluded. */
  lemma RowExcludes(cfg: AudioConfig, x: Input, rel: (int, nat) -> real, tanh: real -> real,
                    exp: real -> real, b: nat, n: nat, h: nat, u: nat, w: nat, t: nat, lo: int, v: seq<real>)
    requires Placed(cfg, x, u, w, t, lo) && cfg.cap != 0.0 && ExpLike(exp)
    requires b < x.batch && n < cfg.heads && h < cfg.headDim
    requires v == ValueColumn(cfg, x, b, u, n, h)
    ensures var cond := Window(Attendable(cfg, x, b, t), lo, ContextSize(cfg));
            var vals := Window(DenseLogit(cfg, x, rel, tanh, b, n, t), lo, ContextSize(cfg));
            && |v| == ContextSize(cfg)
            && Filter(cond, vals) == Map(DenseLogit(cfg, x, rel, tanh, b, n, t), AttendedKeys(cfg, x, b, t))
            && (Excludes(exp, cond, vals, cfg.invalid, v) <==>
                  ChunkedOutput(cfg, x, rel, tanh, exp, b, n, h, u, w)
                  == DenseOutput(cfg, x, rel, tanh, exp, b, n, h, t))
  {
    hide MaskedLogits, ExtractBlockContext, Softmax, Dot, DenseLogit, Attendable, Filter;
    var ctx, p := ContextSize(cfg), Attendable(cfg, x, b, t);
    var f, g := DenseLogit(cfg, x, rel, tanh, b, n, t), ValueOf(x, b, n, h);
    var cond, vals := Window(p, lo, ctx), Window(f, lo, ctx);
    LogitRow(cfg, x, rel, tanh, b, n, u, w, t, lo);
    forall c | 0 <= c < ctx && cond[c] ensures v[c] == g(lo + c) {
      AttendableInWindow(cfg, x, b, u, w, t, lo, lo + c);
      WindowValue(cfg, x, b, u, w, t, lo, n, h, c);
    }
    FilterIsSelect(p, f, lo, cond, vals);
    FilterIsSelect(p, g, lo, cond, v);
    KeysInWindow(cfg, x, b, u, w, t, lo);
  }

  /** With an attendable frame, the chunked row is the dense one when the mask vanishes or
      nothing is masked. */
  lemma RowIsDense(cfg: AudioConfig, x: Input, rel: (int, nat) -> real, tanh: real -> real,
                   exp: real -> real, b: nat, n: nat, h: nat, u: nat, w: nat, t: nat, lo: int)
    requires Placed(cfg, x, u, w, t, lo) && lo == WindowStart(cfg, t) && cfg.cap != 0.0 && ExpLike(exp)
    requires b < x.batch && n < cfg.heads && h < cfg.headDim && AttendedKeys(cfg, x, b, t) != []
    requires MaskVanishes(cfg, x, rel, tanh, exp, b, n, t) || WholeWindow(cfg, x, b, t)
    ensures ChunkedOutput(cfg, x, rel, tanh, exp, b, n, h, u, w)
         == DenseOutput(cfg, x, rel, tanh, exp, b, n, h, t)
  {
    hide ChunkedOutput, DenseOutput, DenseLogit, Attendable, AttendedKeys, ValueColumn, Filter, Max, Excludes,
         MaskUnderflows;
    var ctx := ContextSize(cfg);
    var cond := Window(Attendable(cfg, x, b, t), lo, ctx);
    var vals := Window(DenseLogit(cfg, x, rel, tanh, b, n, t), lo, ctx);
    var v := ValueColumn(cfg, x, b, u, n, h);
    RowExcludes(cfg, x, rel, tanh, exp, b, n, h, u, w, t, lo, v);
    if forall c :: 0 <= c < |cond| ==> cond[c] {
      NothingMasked(exp, cond, vals, cfg.invalid, v);
    } else {
      VanishesIsUnderflow(exp, cond, vals, cfg.invalid, Filter(cond, vals));
      MaskedRowIsExclusion(exp, cond, vals, cfg.invalid, v);
    }
  }

  lemma NothingMasked(exp: real -> real, cond: seq<bool>, s: seq<real>, invalid: real, v: seq<real>)
    requires ExpLike(exp) && |cond| == |s| == |v| && forall c :: 0 <= c < |cond| ==> cond[c]
    ensures Excludes(exp, cond, s, invalid, v)
  {
    FilterAll(cond, s);
    FilterAll(cond, v);
    assert Where(cond, s, invalid) == s;
  }

  lemma AttendableInWindow(cfg: AudioConfig, x: Input, b: nat, u: nat, w: nat, t: nat, lo: int, s: int)
    requires Placed(cfg, x, u, w, t, lo) && Attendable(cfg, x, b, t)(s)
    ensures 0 <= s < x.frames && lo <= s < lo + ContextSize(cfg)
  {
  }

  /** The values a window holds, with zeros outside the input. */
  function PaddedValues(x: Input, b: nat, n: nat, h: nat): int -> real {
    (s: int) => if 0 <= s < x.frames then x.v.at([b, s, n, h]) else 0.0
  }

  /** The plain mean over the window of the block that holds frame `t`. */
  function WindowMean(cfg: AudioConfig, x: Input, b: nat, n: nat, h: nat, t: nat): real
    requires cfg.chunk >= 1
  {
    Total(Window(PaddedValues(x, b, n, h), WindowStart(cfg, t), ContextSize(cfg))) / (ContextSize(cfg) as real)
  }

  /** Position of component `h` of head `n` on the merged last axis. */
  function HeadColumn(cfg: AudioConfig, n: nat, h: nat): nat {
    n * cfg.headDim + h
  }

  /** With no attendable frame, the chunked row is the plain mean over the whole window of
      its block, padding included: not the dense form, which has nothing to average. */
  lemma RowWithoutKeys(cfg: AudioConfig, x: Input, rel: (int, nat) -> real, tanh: real -> real,
                       exp: real -> real, b: nat, n: nat, h: nat, u: nat, w: nat, t: nat, lo: int)
    requires Placed(cfg, x, u, w, t, lo) && cfg.cap != 0.0 && ExpLike(exp)
    requires b < x.batch && n < cfg.heads && h < cfg.headDim
    requires AttendedKeys(cfg, x, b, t) == []
    ensures ChunkedOutput(cfg, x, rel, tanh, exp, b, n, h, u, w)
         == Total(Window(PaddedValues(x, b, n, h), lo, ContextSize(cfg))) / (ContextSize(cfg) as real)
  {
    hide MaskedLogits, ExtractBlockContext, Softmax, Dot, DenseLogit, Total;
    var ctx, p := ContextSize(cfg), Attendable(cfg, x, b, t);
    var f := DenseLogit(cfg, x, rel, tanh, b, n, t);
    var cond, vals := Window(p, lo, ctx), Window(f, lo, ctx);
    var window := ValueColumn(cfg, x, b, u, n, h);
    LogitRow(cfg, x, rel, tanh, b, n, u, w, t, lo);
    forall c | 0 <= c < ctx
      ensures !cond[c] && window[c] == PaddedValues(x, b, n, h)(lo + c)
    {
      SelectMember(p, 0, x.frames, lo + c);
      WindowValue(cfg, x, b, u, w, t, lo, n, h, c);
    }
    assert window == Window(PaddedValues(x, b, n, h), lo, ctx);
    FullyMaskedRow(exp, cond, vals, cfg.invalid, window);
  }

  /** Every frame of the output, component by component: the mean of its block's window when
      the frame has no attendable key, and dense sliding-window attention when it has one
      and the mask vanishes or nothing is masked. */
  lemma ForwardIsDense(cfg: AudioConfig, x: Input, rel: (int, nat) -> real, tanh: real -> real,
                       exp: real -> real, b: nat, t: nat, n: nat, h: nat)
    requires Shaped(cfg, x) && cfg.cap != 0.0 && ExpLike(exp)
    requires b < x.batch && t < x.frames && n < cfg.heads && h < cfg.headDim
    ensures AttendedKeys(cfg, x, b, t) == [] ==>
              Forward(cfg, x, rel, tanh, exp).at([b, t, HeadColumn(cfg, n, h)]) == WindowMean(cfg, x, b, n, h, t)
    ensures AttendedKeys(cfg, x, b, t) != []
            && (MaskVanishes(cfg, x, rel, tanh, exp, b, n, t) || WholeWindow(cfg, x, b, t)) ==>
              Forward(cfg, x, rel, tanh, exp).at([b, t, HeadColumn(cfg, n, h)])
              == DenseOutput(cfg, x, rel, tanh, exp, b, n, h, t)
  {
    hide Forward, ChunkedOutput, DenseOutput, Total, AttendedKeys, MaskVanishes, WholeWindow;
    var u, w, lo := t / cfg.chunk, t % cfg.chunk, WindowStart(cfg, t);
    ForwardIsChunked(cfg, x, rel, tanh, exp, b, t, n, h, u, w, lo);
    if AttendedKeys(cfg, x, b, t) == [] {
      RowWithoutKeys(cfg, x, rel, tanh, exp, b, n, h, u, w, t, lo);
    } else if MaskVanishes(cfg, x, rel, tanh, exp, b, n, t) || WholeWindow(cfg, x, b, t) {
      RowIsDense(cfg, x, rel, tanh, exp, b, n, h, u, w, t, lo);
    }
  }

  lemma ForwardIsChunked(cfg: AudioConfig, x: Input, rel: (int, nat) -> real, tanh: real -> real,
                         exp: real -> real, b: nat, t: nat, n: nat, h: nat, u: nat, w: nat, lo: int)
    requires Shaped(cfg, x) && cfg.cap != 0.0 && ExpLike(exp)
    requires b < x.batch && t < x.frames && n < cfg.heads && h < cfg.headDim
    requires u == t / cfg.chunk && w == t % cfg.chunk && lo == WindowStart(cfg, t)
    ensures Placed(cfg, x, u, w, t, lo)
    ensures Forward(cfg, x, rel, tanh, exp).at([b, t, HeadColumn(cfg, n, h)])
         == ChunkedOutput(cfg, x, rel, tanh, exp, b, n, h, u, w)
  {
    hide Attend, MergeBlocks, ChunkedOutput;
    FrameInBlocks(cfg, x, u, w, t, lo);
    MergeBlocksAt(Attend(cfg, x, rel, tanh, exp), x.batch, NumBlocks(cfg, x), cfg.chunk,
                  cfg.heads, cfg.headDim, b, u, w, n, h);
    AttendIsChunked(cfg, x, rel, tanh, exp, b, n, h, u, w);
  }

  lemma FrameInBlocks(cfg: AudioConfig, x: Input, u: nat, w: nat, t: nat, lo: int)
    requires Shaped(cfg, x) && t < x.frames && u == t / cfg.chunk && w == t % cfg.chunk
    requires lo == WindowStart(cfg, t)
    ensures Placed(cfg, x, u, w, t, lo)
  {
    BlockCountsAgree(cfg, x.frames);
    RadixDigits(NumBlocks(cfg, x), cfg.chunk, t);
  }

  // ------------------------------------------------- the condition is exact

  /** The same input with other values. */
  function WithValues(x: Input, v: Tensor<real>): Input {
    x.(v := v)
  }

  lemma {:induction false} SelectEqual(p: int -> bool, q: int -> bool, lo: int, hi: int)
    requires forall s :: lo <= s < hi ==> p(s) == q(s)
    ensures Select(p, lo, hi) == Select(q, lo, hi)
    decreases hi - lo
  {
    if lo >= hi {
    } else {
      SelectEqual(p, q, lo + 1, hi);
    }
  }

  /** Keys, logits and the two conditions do not depend on the values. */
  lemma ValuesDoNotMatter(cfg: AudioConfig, x: Input, v: Tensor<real>, rel: (int, nat) -> real,
                          tanh: real -> real, exp: real -> real, b: nat, n: nat, t: nat)
    requires Shaped(cfg, x) && Frames(cfg, v, x.batch, x.frames) && cfg.cap != 0.0
    ensures var y := WithValues(x, v);
            && Shaped(cfg, y)
            && AttendedKeys(cfg, y, b, t) == AttendedKeys(cfg, x, b, t)
            && (forall s :: Attendable(cfg, y, b, t)(s) == Attendable(cfg, x, b, t)(s))
            && (MaskVanishes(cfg, y, rel, tanh, exp, b, n, t) <==> MaskVanishes(cfg, x, rel, tanh, exp, b, n, t))
            && (WholeWindow(cfg, y, b, t) <==> WholeWindow(cfg, x, b, t))
  {
    hide Capped, Dot, Row, RelRow;
    var y := WithValues(x, v);
    SelectEqual(Attendable(cfg, y, b, t), Attendable(cfg, x, b, t), 0, x.frames);
    var keys := AttendedKeys(cfg, x, b, t);
    var f, g := DenseLogit(cfg, x, rel, tanh, b, n, t), DenseLogit(cfg, y, rel, tanh, b, n, t);
    assert forall s :: f(s) == g(s);
    assert Map(f, keys) == Map(g, keys);
    var lo, ctx := WindowStart(cfg, t), ContextSize(cfg);
    assert Window(Attendable(cfg, y, b, t), lo, ctx) == Window(Attendable(cfg, x, b, t), lo, ctx);
  }

  /** One at the frames that frame `t` attends, zero elsewhere. */
  function IndicatorValues(cfg: AudioConfig, x: Input, b: nat, t: nat): (v: Tensor<real>)
    ensures Frames(cfg, v, x.batch, x.frames)
  {
    var p := Attendable(cfg, x, b, t);
    Tensor([x.batch, x.frames, cfg.heads, cfg.headDim], (idx: seq<nat>) =>
      if p(Coord(idx, 1)) then 1.0 else 0.0)
  }

  lemma IndicatorColumn(cfg: AudioConfig, x: Input, b: nat, n: nat, h: nat, u: nat, w: nat, t: nat, lo: int)
    requires Placed(cfg, x, u, w, t, lo) && b < x.batch && n < cfg.heads && h < cfg.headDim
    ensures Shaped(cfg, WithValues(x, IndicatorValues(cfg, x, b, t)))
    ensures ValueColumn(cfg, WithValues(x, IndicatorValues(cfg, x, b, t)), b, u, n, h)
              == Indicator(Window(Attendable(cfg, x, b, t), lo, ContextSize(cfg)))
  {
    hide ExtractBlockContext;
    var v := IndicatorValues(cfg, x, b, t);
    var y, p, ctx := WithValues(x, v), Attendable(cfg, x, b, t), ContextSize(cfg);
    var column := ValueColumn(cfg, y, b, u, n, h);
    forall c | 0 <= c < ctx ensures column[c] == if p(lo + c) then 1.0 else 0.0 {
      WindowValue(cfg, y, b, u, w, t, lo, n, h, c);
      if 0 <= lo + c { assert Coord([b, lo + c, n, h], 1) == lo + c; }
    }
  }

  /** For a frame with a key: the chunked form computes dense attention for all values if
      and only if the mask vanishes there or nothing is masked. */
  lemma DenseExactlyWhenMaskVanishes(cfg: AudioConfig, x: Input, rel: (int, nat) -> real, tanh: real -> real,
                                     exp: real -> real, b: nat, t: nat, n: nat, h: nat)
    requires Shaped(cfg, x) && cfg.cap != 0.0 && ExpLike(exp)
    requires b < x.batch && t < x.frames && n < cfg.heads && h < cfg.headDim
    requires AttendedKeys(cfg, x, b, t) != []
    ensures (forall v: Tensor<real> :: Frames(cfg, v, x.batch, x.frames) ==>
               DenseFor(cfg, x, rel, tanh, exp, b, t, n, h, v))
       <==> MaskVanishes(cfg, x, rel, tanh, exp, b, n, t) || WholeWindow(cfg, x, b, t)
  {
    hide MaskVanishes, WholeWindow, DenseFor, AttendedKeys;
    if MaskVanishes(cfg, x, rel, tanh, exp, b, n, t) || WholeWindow(cfg, x, b, t) {
      forall v: Tensor<real> | Frames(cfg, v, x.batch, x.frames)
        ensures DenseFor(cfg, x, rel, tanh, exp, b, t, n, h, v)
      {
        DenseForAll(cfg, x, rel, tanh, exp, b, t, n, h, v);
      }
    } else {
      IndicatorDiffers(cfg, x, rel, tanh, exp, b, t, n, h);
    }
  }

  ghost predicate DenseFor(cfg: AudioConfig, x: Input, rel: (int, nat) -> real, tanh: real -> real,
                           exp: real -> real, b: nat, t: nat, n: nat, h: nat, v: Tensor<real>)
    requires Shaped(cfg, x) && cfg.cap != 0.0 && ExpLike(exp) && Frames(cfg, v, x.batch, x.frames)
  {
    Forward(cfg, WithValues(x, v), rel, tanh, exp).at([b, t, HeadColumn(cfg, n, h)])
    == DenseOutput(cfg, WithValues(x, v), rel, tanh, exp, b, n, h, t)
  }

  lemma DenseForAll(cfg: AudioConfig, x: Input, rel: (int, nat) -> real, tanh: real -> real,
                    exp: real -> real, b: nat, t: nat, n: nat, h: nat, v: Tensor<real>)
    requires Shaped(cfg, x) && cfg.cap != 0.0 && ExpLike(exp) && Frames(cfg, v, x.batch, x.frames)
    requires b < x.batch && t < x.frames && n < cfg.heads && h < cfg.headDim
    requires AttendedKeys(cfg, x, b, t) != []
    requires MaskVanishes(cfg, x, rel, tanh, exp, b, n, t) || WholeWindow(cfg, x, b, t)
    ensures DenseFor(cfg, x, rel, tanh, exp, b, t, n, h, v)
  {
    hide MaskVanishes, WholeWindow, AttendedKeys, Forward, DenseOutput, WithValues;
    ValuesDoNotMatter(cfg, x, v, rel, tanh, exp, b, n, t);
    var y := WithValues(x, v);
    assert y.batch == x.batch && y.frames == x.frames by { SameFrames(x, v); }
    ForwardIsDense(cfg, y, rel, tanh, exp, b, t, n, h);
  }

  lemma SameFrames(x: Input, v: Tensor<real>)
    ensures WithValues(x, v).batch == x.batch && WithValues(x, v).frames == x.frames
    ensures WithValues(x, v).v == v
  {
  }

  lemma IndicatorDiffers(cfg: AudioConfig, x: Input, rel: (int, nat) -> real, tanh: real -> real,
                         exp: real -> real, b: nat, t: nat, n: nat, h: nat)
    requires Shaped(cfg, x) && cfg.cap != 0.0 && ExpLike(exp)
    requires b < x.batch && t < x.frames && n < cfg.heads && h < cfg.headDim
    requires AttendedKeys(cfg, x, b, t) != []
    requires !MaskVanishes(cfg, x, rel, tanh, exp, b, n, t) && !WholeWindow(cfg, x, b, t)
    ensures !DenseFor(cfg, x, rel, tanh, exp, b, t, n, h, IndicatorValues(cfg, x, b, t))
  {
    hide Forward, ChunkedOutput, DenseOutput, Attendable, AttendedKeys, ValueColumn, MaskVanishes,
         WholeWindow, WithValues, IndicatorValues, Indicator, Placed;
    var u, w, lo, ctx := t / cfg.chunk, t % cfg.chunk, WindowStart(cfg, t), ContextSize(cfg);
    var v := IndicatorValues(cfg, x, b, t);
    var y := WithValues(x, v);
    SameFrames(x, v);
    ValuesDoNotMatter(cfg, x, v, rel, tanh, exp, b, n, t);
    FrameInBlocks(cfg, x, u, w, t, lo);
    IndicatorColumn(cfg, x, b, n, h, u, w, t, lo);
    ForwardIsChunked(cfg, y, rel, tanh, exp, b, t, n, h, u, w, lo);
    assert Window(Attendable(cfg, y, b, t), lo, ctx) == Window(Attendable(cfg, x, b, t), lo, ctx);
    RowDiffers(cfg, y, rel, tanh, exp, b, n, h, u, w, t, lo);
  }

  lemma RowDiffers(cfg: AudioConfig, x: Input, rel: (int, nat) -> real, tanh: real -> real,
                   exp: real -> real, b: nat, n: nat, h: nat, u: nat, w: nat, t: nat, lo: int)
    requires Placed(cfg, x, u, w, t, lo) && lo == WindowStart(cfg, t) && cfg.cap != 0.0 && ExpLike(exp)
    requires b < x.batch && n < cfg.heads && h < cfg.headDim && AttendedKeys(cfg, x, b, t) != []
    requires !MaskVanishes(cfg, x, rel, tanh, exp, b, n, t) && !WholeWindow(cfg, x, b, t)
    requires ValueColumn(cfg, x, b, u, n, h)
          == Indicator(Window(Attendable(cfg, x, b, t), lo, ContextSize(cfg)))
    ensures ChunkedOutput(cfg, x, rel, tanh, exp, b, n, h, u, w)
         != DenseOutput(cfg, x, rel, tanh, exp, b, n, h, t)
  {
    hide ChunkedOutput, DenseOutput, DenseLogit, Attendable, AttendedKeys, ValueColumn, Filter, Max,
         Excludes, Indicator;
    var cond := Window(Attendable(cfg, x, b, t), lo, ContextSize(cfg));
    var vals := Window(DenseLogit(cfg, x, rel, tanh, b, n, t), lo, ContextSize(cfg));
    RowExcludes(cfg, x, rel, tanh, exp, b, n, h, u, w, t, lo, Indicator(cond));
    MaskShows(exp, cond, vals, cfg.invalid, Filter(cond, vals));
  }

  lemma MaskShows(exp: real -> real, cond: seq<bool>, vals: seq<real>, invalid: real, logits: seq<real>)
    requires ExpLike(exp) && |cond| == |vals| && logits == Filter(cond, vals) != []
    requires exists c :: 0 <= c < |cond| && !cond[c]
    requires !(invalid <= Max(logits) && exp(invalid - Max(logits)) == 0.0)
    ensures !Excludes(exp, cond, vals, invalid, Indicator(cond))
  {
    hide Filter, Max, Excludes, MaskUnderflows, Indicator;
    var k :| 0 <= k < |cond| && !cond[k];
    VanishesIsUnderflow(exp, cond, vals, invalid, logits);
    FilterSound(cond, vals, logits[0]);
    var a :| 0 <= a < |vals| && cond[a] && vals[a] == logits[0];
    IndicatorTells(exp, cond, vals, invalid, k, a);
  }

  // ---------------------------------------------------- configured mask values

  /** `tanh` stays in `[-1, 1]`, and the mask value is at least 104 below every capped logit. */
  ghost predicate MaskDominates(cfg: AudioConfig, tanh: real -> real) {
    && cfg.cap > 0.0 && cfg.invalid + 104.0 <= -cfg.cap
    && forall y :: -1.0 <= tanh(y) <= 1.0
  }

  lemma CappedLogit(cfg: AudioConfig, tanh: real -> real, y: real)
    requires MaskDominates(cfg, tanh)
    ensures cfg.invalid + 104.0 <= Capped(cfg, tanh, y)
  {
    var z := tanh(y / cfg.cap);
    assert z * cfg.cap >= -1.0 * cfg.cap;
  }

  /** A mask value that far down, as the default configuration has it, vanishes on every
      frame with a key, whatever the input. */
  lemma DominatingMaskVanishes(cfg: AudioConfig, x: Input, rel: (int, nat) -> real, tanh: real -> real,
                               exp: real -> real, b: nat, n: nat, t: nat)
    requires Shaped(cfg, x) && MaskDominates(cfg, tanh) && ExpLike(exp) && AttendedKeys(cfg, x, b, t) != []
    ensures MaskVanishes(cfg, x, rel, tanh, exp, b, n, t)
  {
    hide Dot, Capped, Row, RelRow, Max;
    var keys, f := AttendedKeys(cfg, x, b, t), DenseLogit(cfg, x, rel, tanh, b, n, t);
    var s := keys[0];
    SelectMember(Attendable(cfg, x, b, t), 0, x.frames, s);
    CappedLogit(cfg, tanh, Dot(Row(x.q, [b, t, n]), Row(x.k, [b, s, n]))
                           + Dot(Row(x.q, [b, t, n]), RelRow(cfg, rel, t - s, n)));
    assert Map(f, keys)[0] == f(s);
  }
}
