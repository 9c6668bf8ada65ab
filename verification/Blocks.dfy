/** Blocking of a time axis: `convert_to_block`, `extract_block_context` and the
    relative shift of chunked local attention. */
module Blocks {
  import opened Arith
  import opened Tensors

  /** The fields of the audio configuration that fix the attention geometry. */
  datatype AudioConfig = AudioConfig(
    chunk: nat, contextLeft: nat, contextRight: nat,
    heads: nat, headDim: nat, cap: real, invalid: real)

  function MaxPast(cfg: AudioConfig): nat {
    if cfg.contextLeft == 0 then 0 else cfg.contextLeft - 1
  }

  function ContextSize(cfg: AudioConfig): nat {
    cfg.chunk + MaxPast(cfg) + cfg.contextRight
  }

  /** Division of signed machine integers: truncation toward zero. */
  function TruncDiv(a: int, b: int): int
    requires b > 0
  {
    if a >= 0 then a / b else -((-a) / b)
  }

  function QueryBlocks(cfg: AudioConfig, t: nat): int
    requires cfg.chunk >= 1
  {
    TruncDiv(t + cfg.chunk - 1, cfg.chunk)
  }

  /** Number of context windows over the padded axis. */
  function ContextBlocks(cfg: AudioConfig, t: nat): int
    requires cfg.chunk >= 1
  {
    var padded := MaxPast(cfg) + t + (cfg.contextRight + cfg.chunk - 1);
    TruncDiv(padded - ContextSize(cfg), cfg.chunk) + 1
  }

  /** Queries and keys are cut into the same number of blocks exactly when there is a
      frame, or a block is one frame long. */
  lemma BlockCountsAgree(cfg: AudioConfig, t: nat)
    requires cfg.chunk >= 1
    ensures QueryBlocks(cfg, t) == ContextBlocks(cfg, t) <==> t >= 1 || cfg.chunk == 1
    ensures t >= 1 ==> 1 <= QueryBlocks(cfg, t)
    ensures t >= 1 ==> t <= QueryBlocks(cfg, t) * cfg.chunk < t + cfg.chunk
  {
    assert MaxPast(cfg) + t + (cfg.contextRight + cfg.chunk - 1) - ContextSize(cfg) == t - 1;
    if t >= 1 {
      CeilDiv(t, cfg.chunk);
    } else {
      SmallQuotients(cfg.chunk);
    }
  }

  lemma SmallQuotients(c: nat)
    requires c >= 1
    ensures (c - 1) / c == 0 && 1 / c == if c == 1 then 1 else 0
  {
    DivisionUnique(c - 1, c, 0, c - 1);
    if c > 1 { DivisionUnique(1, c, 0, 1); }
  }

  lemma CeilDiv(t: nat, c: nat)
    requires t >= 1 && c >= 1
    ensures (t + c - 1) / c == (t - 1) / c + 1
    ensures t <= ((t - 1) / c + 1) * c < t + c
  {
    var q, r := (t - 1) / c, (t - 1) % c;
    assert q * c + r == t - 1;
    DivisionUnique(t + c - 1, c, q + 1, r);
  }

  function PadDim1<T>(x: Tensor<T>, left: nat, right: nat, zero: T): (r: Tensor<T>)
    requires |x.shape| >= 2
    ensures r.shape == x.shape[1 := left + x.shape[1] + right]
  {
    Pad(x, 1, left, right, zero)
  }

  lemma PadDim1At<T>(x: Tensor<T>, left: nat, right: nat, zero: T, b: nat, s: nat, j: seq<nat>)
    requires |x.shape| >= 2
    ensures PadDim1(x, left, right, zero).at([b, s] + j) ==
              if left <= s < left + x.shape[1] then x.at([b, s - left] + j) else zero
  {
    if left <= s { assert With([b, s] + j, 1, s - left) == [b, s - left] + j; }
  }

  lemma TakeDim1At<T>(x: Tensor<T>, indices: seq<nat>, b: nat, r: nat, j: seq<nat>)
    requires |x.shape| >= 2 && r < |indices|
    requires forall k :: 0 <= k < |indices| ==> indices[k] < x.shape[1]
    ensures Take(x, indices, 1).at([b, r] + j) == x.at([b, indices[r]] + j)
  {
    assert Coord([b, r] + j, 1) == r;
    assert With([b, r] + j, 1, indices[r]) == [b, indices[r]] + j;
  }

  lemma SplitDim1At<T>(x: Tensor<T>, a: nat, k: nat, b: nat, z: nat, u: nat, w: nat, j: seq<nat>)
    requires |x.shape| >= 2 && x.shape[1] == a * k && z == u * k + w
    requires b < x.shape[0] && u < a && w < k && InRange(x.shape[2..], j)
    ensures Size([x.shape[0], a, k] + x.shape[2..]) == Size(x.shape)
    ensures Reshape(x, [x.shape[0], a, k] + x.shape[2..]).at([b, u, w] + j) == x.at([b, z] + j)
  {
    hide Flat, Size, Reshape;
    var pre, post := [x.shape[0]], x.shape[2..];
    assert x.shape == pre + [x.shape[1]] + post;
    SplitAt(x, pre, x.shape[1], a, k, post, [b], z, u, w, j);
    assert pre + [a, k] + post == [x.shape[0], a, k] + post;
    assert [b] + [u, w] + j == [b, u, w] + j;
    assert [b] + [z] + j == [b, z] + j;
  }

  // -------------------------------------------------------- convert_to_block

  /** `[B, T] + rest` to `[B, numBlocks, chunk] + rest`. */
  function ConvertToBlock<T>(cfg: AudioConfig, x: Tensor<T>, zero: T): (r: Tensor<T>)
    requires cfg.chunk >= 1 && |x.shape| >= 2 && x.shape[1] >= 1
    ensures r.shape == [x.shape[0], QueryBlocks(cfg, x.shape[1]), cfg.chunk] + x.shape[2..]
  {
    var t := x.shape[1];
    var numBlocks: nat := QueryBlocks(cfg, t);
    BlockCountsAgree(cfg, t);
    var padLen: nat := numBlocks * cfg.chunk - t;
    var x' := if padLen > 0 then PadDim1(x, 0, padLen, zero) else x;
    assert x'.shape == [x.shape[0]] + [numBlocks * cfg.chunk] + x.shape[2..];
    SizeSplit([x.shape[0]], numBlocks, cfg.chunk, x.shape[2..]);
    assert [x.shape[0]] + [numBlocks, cfg.chunk] + x.shape[2..]
        == [x.shape[0], numBlocks, cfg.chunk] + x.shape[2..];
    Reshape(x', [x.shape[0], numBlocks, cfg.chunk] + x.shape[2..])
  }

  /** Row `w` of block `u` is frame `u * chunk + w`, or padding past the last frame. */
  lemma ConvertToBlockAt<T>(cfg: AudioConfig, x: Tensor<T>, zero: T,
                            b: nat, u: nat, w: nat, j: seq<nat>)
    requires cfg.chunk >= 1 && |x.shape| >= 2 && x.shape[1] >= 1
    requires b < x.shape[0] && u < QueryBlocks(cfg, x.shape[1]) && w < cfg.chunk
    requires InRange(x.shape[2..], j)
    ensures ConvertToBlock(cfg, x, zero).at([b, u, w] + j) ==
              if u * cfg.chunk + w < x.shape[1] then x.at([b, u * cfg.chunk + w] + j) else zero
  {
    hide Flat, Size, Reshape, Pad;
    var t := x.shape[1];
    var numBlocks: nat := QueryBlocks(cfg, t);
    BlockCountsAgree(cfg, t);
    var padLen: nat := numBlocks * cfg.chunk - t;
    var x' := if padLen > 0 then PadDim1(x, 0, padLen, zero) else x;
    assert x'.shape[0] == x.shape[0] && x'.shape[2..] == x.shape[2..];
    SplitDim1At(x', numBlocks, cfg.chunk, b, u * cfg.chunk + w, u, w, j);
    RadixBound(numBlocks, cfg.chunk, u, w);
    if padLen > 0 { PadDim1At(x, 0, padLen, zero, b, u * cfg.chunk + w, j); }
  }

  // --------------------------------------------------- extract_block_context

  /** Entry `k` of the gather indices: window `i` starts at `i * chunk` and is `ctx` long. */
  function ContextIndex(ctx: nat, chunk: nat, k: nat): nat
    requires ctx >= 1
  {
    var window: nat := k / ctx;
    window * chunk + k % ctx
  }

  function ContextIndices(numBlocks: nat, ctx: nat, chunk: nat): (r: seq<nat>)
    requires ctx >= 1
    ensures |r| == numBlocks * ctx
  {
    seq(numBlocks * ctx, k requires 0 <= k => ContextIndex(ctx, chunk, k))
  }

  lemma ContextIndexAt(numBlocks: nat, ctx: nat, chunk: nat, i: nat, o: nat)
    requires ctx >= 1 && i < numBlocks && o < ctx
    ensures i * ctx + o < numBlocks * ctx
    ensures ContextIndices(numBlocks, ctx, chunk)[i * ctx + o] == i * chunk + o
  {
    RadixBound(numBlocks, ctx, i, o);
    RadixUnique(ctx, i, o);
  }

  /** The nested loops that push `start + offset` for every window. */
  method FillContextIndices(numBlocks: nat, ctx: nat, chunk: nat) returns (indices: seq<nat>)
    requires ctx >= 1
    ensures indices == ContextIndices(numBlocks, ctx, chunk)
  {
    indices := [];
    ghost var all := ContextIndices(numBlocks, ctx, chunk);
    for i := 0 to numBlocks
      invariant |indices| == i * ctx && indices <= all
    {
      ghost var base := i * ctx;
      RadixStep(i, numBlocks, ctx);
      for o := 0 to ctx
        invariant |indices| == base + o && indices <= all
      {
        ContextIndexAt(numBlocks, ctx, chunk, i, o);
        indices := indices + [i * chunk + o];
      }
    }
  }

  /** Every gathered index lies inside the padded axis. */
  lemma ContextIndicesInRange(cfg: AudioConfig, t: nat)
    requires cfg.chunk >= 1 && t >= 1
    ensures ContextBlocks(cfg, t) >= 1
    ensures var r := ContextIndices(ContextBlocks(cfg, t), ContextSize(cfg), cfg.chunk);
            forall k :: 0 <= k < |r| ==>
              r[k] < MaxPast(cfg) + t + (cfg.contextRight + cfg.chunk - 1)
  {
    BlockCountsAgree(cfg, t);
    var u: nat := ContextBlocks(cfg, t);
    var ctx := ContextSize(cfg);
    var r := ContextIndices(u, ctx, cfg.chunk);
    var bound := MaxPast(cfg) + t + (cfg.contextRight + cfg.chunk - 1);
    assert u * cfg.chunk + (ctx - cfg.chunk) <= bound;
    forall k | 0 <= k < |r| ensures r[k] < bound {
      ContextIndexBound(u, ctx, cfg.chunk, k);
    }
  }

  lemma ContextIndexBound(u: nat, ctx: nat, chunk: nat, k: nat)
    requires ctx >= chunk >= 1 && k < u * ctx
    ensures ContextIndex(ctx, chunk, k) < u * chunk + (ctx - chunk)
  {
    RadixDigits(u, ctx, k);
    RadixStep(k / ctx, u, chunk);
  }

  /** `[B, T] + rest` to `[B, numBlocks, ctx] + rest`: overlapping windows. */
  function ExtractBlockContext<T>(cfg: AudioConfig, x: Tensor<T>, zero: T): (r: Tensor<T>)
    requires cfg.chunk >= 1 && |x.shape| >= 2 && x.shape[1] >= 1
    ensures ContextBlocks(cfg, x.shape[1]) >= 1
    ensures r.shape == [x.shape[0], ContextBlocks(cfg, x.shape[1]), ContextSize(cfg)] + x.shape[2..]
  {
    var t, ctx := x.shape[1], ContextSize(cfg);
    var x' := PadDim1(x, MaxPast(cfg), cfg.contextRight + cfg.chunk - 1, zero);
    ContextIndicesInRange(cfg, t);
    var numBlocks: nat := ContextBlocks(cfg, t);
    var flat := Take(x', ContextIndices(numBlocks, ctx, cfg.chunk), 1);
    assert flat.shape == [x.shape[0]] + [numBlocks * ctx] + x.shape[2..];
    SizeSplit([x.shape[0]], numBlocks, ctx, x.shape[2..]);
    assert [x.shape[0]] + [numBlocks, ctx] + x.shape[2..]
        == [x.shape[0], numBlocks, ctx] + x.shape[2..];
    Reshape(flat, [x.shape[0], numBlocks, ctx] + x.shape[2..])
  }

  /** Slot `c` of window `u` is frame `u * chunk + c - past`, or padding outside the input. */
  lemma ExtractBlockContextAt<T>(cfg: AudioConfig, x: Tensor<T>, zero: T,
                                 b: nat, u: nat, c: nat, j: seq<nat>)
    requires cfg.chunk >= 1 && |x.shape| >= 2 && x.shape[1] >= 1
    requires b < x.shape[0] && u < ContextBlocks(cfg, x.shape[1]) && c < ContextSize(cfg)
    requires InRange(x.shape[2..], j)
    ensures var s := u * cfg.chunk + c - MaxPast(cfg);
            ExtractBlockContext(cfg, x, zero).at([b, u, c] + j)
              == if 0 <= s < x.shape[1] then x.at([b, s] + j) else zero
  {
    hide Flat, Size, Reshape, Take, Pad, ContextIndices, ContextBlocks;
    var t, ctx := x.shape[1], ContextSize(cfg);
    var past, right := MaxPast(cfg), cfg.contextRight + cfg.chunk - 1;
    var x' := PadDim1(x, past, right, zero);
    ContextIndicesInRange(cfg, t);
    var numBlocks: nat := ContextBlocks(cfg, t);
    var indices := ContextIndices(numBlocks, ctx, cfg.chunk);
    ContextIndexAt(numBlocks, ctx, cfg.chunk, u, c);
    var p, z := u * cfg.chunk + c, u * ctx + c;
    var flat := Take(x', indices, 1);
    assert flat.shape[0] == x.shape[0] && flat.shape[2..] == x.shape[2..];
    SplitDim1At(flat, numBlocks, ctx, b, z, u, c, j);
    TakeDim1At(x', indices, b, z, j);
    PadDim1At(x, past, right, zero, b, p, j);
  }

  // ---------------------------------------------------------- relative_shift

  /** Pads rows of width `span` to `ctx + 1`, flattens the rows of a block, keeps the
      first `rows * ctx` entries and cuts them into rows of width `ctx`. */
  function RelativeShift(t: Tensor<real>, ctx: nat): (r: Tensor<real>)
    requires |t.shape| == 5 && t.shape[4] <= ctx + 1
    ensures r.shape == [t.shape[0], t.shape[1], t.shape[2], t.shape[3], ctx]
  {
    var pre, rows := t.shape[..3], t.shape[3];
    var padded := Pad(t, 4, 0, ctx + 1 - t.shape[4], 0.0);
    assert padded.shape == pre + [rows, ctx + 1] + [];
    SizeSplit(pre, rows, ctx + 1, []);
    var flat := Reshape(padded, pre + [rows * (ctx + 1)] + []);
    assert rows * ctx <= rows * (ctx + 1);
    var cut := Slice(flat, 3, rows * ctx);
    assert cut.shape == pre + [rows * ctx] + [];
    SizeSplit(pre, rows, ctx, []);
    assert pre + [rows, ctx] + [] == [t.shape[0], t.shape[1], t.shape[2], rows, ctx];
    Reshape(cut, [t.shape[0], t.shape[1], t.shape[2], rows, ctx])
  }

  /** Where entry `(w, c)` of the shifted block is read from in the padded rows. */
  lemma ShiftSource(rows: nat, ctx: nat, w: nat, c: nat)
    requires w < rows && c < ctx
    ensures w * ctx + c < rows * ctx <= rows * (ctx + 1)
    ensures c >= w ==> w * ctx + c == w * (ctx + 1) + (c - w)
    ensures c < w ==> w * ctx + c == (w - 1) * (ctx + 1) + (c + ctx + 1 - w)
  {
    RadixBound(rows, ctx, w, c);
    assert w * (ctx + 1) == w * ctx + w;
    assert (w - 1) * (ctx + 1) == w * (ctx + 1) - (ctx + 1);
    assert rows * (ctx + 1) == rows * ctx + rows;
  }

  /** An entry of the shifted block, as an entry of the padded rows. */
  lemma RelativeShiftReads(t: Tensor<real>, ctx: nat, i: seq<nat>, w: nat, c: nat, w': nat, c': nat)
    requires |t.shape| == 5 && t.shape[4] <= ctx + 1
    requires InRange(t.shape[..3], i) && w < t.shape[3] && c < ctx
    requires w' < t.shape[3] && c' < ctx + 1 && w * ctx + c == w' * (ctx + 1) + c'
    ensures RelativeShift(t, ctx).at(i + [w, c])
              == if c' < t.shape[4] then t.at(i + [w', c']) else 0.0
  {
    hide Flat, Size, Reshape, Prod;
    var pre, rows := t.shape[..3], t.shape[3];
    var small, big, z := rows * ctx, rows * (ctx + 1), w * ctx + c;
    var padded := Pad(t, 4, 0, ctx + 1 - t.shape[4], 0.0);
    assert padded.shape == pre + [rows, ctx + 1] + [];
    SizeSplit(pre, rows, ctx + 1, []);
    ShiftSource(rows, ctx, w, c);
    var flat := Reshape(padded, pre + [big] + []);
    var cut := Slice(flat, 3, small);
    assert cut.shape == pre + [small] + [];
    SplitAt(cut, pre, small, rows, ctx, [], i, z, w, c, []);
    assert pre + [rows, ctx] + [] == [t.shape[0], t.shape[1], t.shape[2], rows, ctx];
    assert i + [w, c] + [] == i + [w, c];
    MergeAt(padded, pre, big, rows, ctx + 1, [], i, z, w', c', []);
    assert i + [w', c'] + [] == i + [w', c'];
    assert With(i + [w', c'], 4, c') == i + [w', c'];
  }

  /** The shift is an exact skew whenever the padding is as wide as the rows are many,
      less one: row `w` moves right by `w` and nothing enters from a neighbouring row. */
  lemma RelativeShiftIsSkew(t: Tensor<real>, ctx: nat, i: seq<nat>, w: nat, c: nat)
    requires |t.shape| == 5 && t.shape[4] <= ctx + 1
    requires t.shape[3] + t.shape[4] <= ctx + 2
    requires InRange(t.shape[..3], i) && w < t.shape[3] && c < ctx
    ensures RelativeShift(t, ctx).at(i + [w, c])
              == if 0 <= c - w < t.shape[4] then t.at(i + [w, c - w]) else 0.0
  {
    hide RelativeShift;
    ShiftSource(t.shape[3], ctx, w, c);
    if c >= w {
      RelativeShiftReads(t, ctx, i, w, c, w, c - w);
    } else {
      RelativeShiftReads(t, ctx, i, w, c, w - 1, c + ctx + 1 - w);
    }
  }

  /** With less padding than that, a row starts with the last entry of the row before it:
      the width bound is necessary. */
  lemma RelativeShiftLeaks(t: Tensor<real>, ctx: nat, i: seq<nat>)
    requires |t.shape| == 5 && 1 <= t.shape[4] <= ctx + 1 && ctx >= 1
    requires t.shape[3] + t.shape[4] > ctx + 2
    requires InRange(t.shape[..3], i)
    ensures var w, last := ctx + 2 - t.shape[4], t.shape[4] - 1;
            && 1 <= w < t.shape[3] && InRange(t.shape, i + [w - 1, last])
            && RelativeShift(t, ctx).at(i + [w, 0]) == t.at(i + [w - 1, last])
  {
    hide RelativeShift;
    var w, last := ctx + 2 - t.shape[4], t.shape[4] - 1;
    ShiftSource(t.shape[3], ctx, w, 0);
    RelativeShiftReads(t, ctx, i, w, 0, w - 1, last);
  }
}
