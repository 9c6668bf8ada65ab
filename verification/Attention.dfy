/** Chunked local attention with relative positions. Tensors hold reals; the projections,
    the position embedding, `tanh` and `exp` are parameters. */
module Attention {
  import opened Tensors
  import opened SoftmaxRows
  import opened Products
  import opened Blocks

  // ------------------------------------------------------------ the band mask

  function Tril(t: Tensor<real>, k: nat): (r: Tensor<real>)
    requires |t.shape| == 2
    ensures r.shape == t.shape
  {
    Tensor(t.shape, (idx: seq<nat>) =>
      if Coord(idx, 1) <= Coord(idx, 0) + k then t.at(idx) else 0.0)
  }

  function Ones(rows: nat, cols: nat): (r: Tensor<real>)
    ensures r.shape == [rows, cols]
  {
    Tensor([rows, cols], (idx: seq<nat>) => 1.0)
  }

  /** A lower triangle of ones, transposed, times a triangle with a shifted diagonal. */
  function BuildCausalValidMask(cfg: AudioConfig): (r: Tensor<bool>)
    ensures r.shape == [cfg.chunk, ContextSize(cfg)]
  {
    var ctx := ContextSize(cfg);
    var lower := Transpose(Tril(Ones(ctx, cfg.chunk), 0), [1, 0], [1, 0]);
    var upper := Tril(Ones(cfg.chunk, ctx), MaxPast(cfg) + cfg.contextRight);
    Tensor([cfg.chunk, ctx], (idx: seq<nat>) => lower.at(idx) * upper.at(idx) != 0.0)
  }

  /** The mask is exactly the band `w <= c <= w + past + future`. */
  lemma CausalValidMaskAt(cfg: AudioConfig, w: nat, c: nat)
    ensures BuildCausalValidMask(cfg).at([w, c]) ==
              (w <= c <= w + MaxPast(cfg) + cfg.contextRight)
  {
    assert Permute([w, c], [1, 0]) == [c, w];
  }

  // ------------------------------------------------ logits with relative positions

  function Span(cfg: AudioConfig): nat {
    MaxPast(cfg) + cfg.contextRight + 1
  }

  /** Relative positions `past, past - 1, .., -future`. */
  function PosIndices(cfg: AudioConfig): (r: seq<int>)
    ensures |r| == Span(cfg)
  {
    seq(Span(cfg), p => (MaxPast(cfg) + cfg.contextRight - p) - cfg.contextRight)
  }

  /** The projected timing signal, `[span, heads * headDim]`: row `p` depends on position
      `PosIndices[p]` alone, through `rel(position, column)`. */
  function ProjectedPositions(cfg: AudioConfig, rel: (int, nat) -> real): (r: Tensor<real>)
    ensures r.shape == [Span(cfg)] + [cfg.heads * cfg.headDim] + []
  {
    Tensor([Span(cfg), cfg.heads * cfg.headDim], (idx: seq<nat>) =>
      if Coord(idx, 0) < Span(cfg) then rel(PosIndices(cfg)[Coord(idx, 0)], Coord(idx, 1)) else 0.0)
  }

  function RelativeEmbedding(cfg: AudioConfig, rel: (int, nat) -> real): (r: Tensor<real>)
    ensures r.shape == [Span(cfg), cfg.heads, cfg.headDim]
  {
    SizeSplit([Span(cfg)], cfg.heads, cfg.headDim, []);
    Reshape(ProjectedPositions(cfg, rel), [Span(cfg)] + [cfg.heads, cfg.headDim] + [])
  }

  lemma RelativeEmbeddingAt(cfg: AudioConfig, rel: (int, nat) -> real, p: nat, n: nat, x: nat)
    requires p < Span(cfg) && n < cfg.heads && x < cfg.headDim
    ensures RelativeEmbedding(cfg, rel).at([p, n, x])
         == rel(MaxPast(cfg) - p, n * cfg.headDim + x)
  {
    hide Flat, Size, Reshape;
    var z := n * cfg.headDim + x;
    SplitAt(ProjectedPositions(cfg, rel), [Span(cfg)], cfg.heads * cfg.headDim,
            cfg.heads, cfg.headDim, [], [p], z, n, x, []);
    assert [p] + [n, x] + [] == [p, n, x] && [p] + [z] + [] == [p, z];
    assert Coord([p, z], 0) == p && Coord([p, z], 1) == z;
    assert PosIndices(cfg)[p] == MaxPast(cfg) - p;
  }

  /** `rel` at one position, for one head. */
  function RelRow(cfg: AudioConfig, rel: (int, nat) -> real, pos: int, n: nat): (r: seq<real>)
    ensures |r| == cfg.headDim
  {
    seq(cfg.headDim, x requires 0 <= x => rel(pos, n * cfg.headDim + x))
  }

  predicate QueryShape(cfg: AudioConfig, q: Tensor<real>, batch: nat, u: nat) {
    q.shape == [batch, u, cfg.chunk, cfg.heads, cfg.headDim]
  }

  predicate KeyShape(cfg: AudioConfig, k: Tensor<real>, batch: nat, u: nat) {
    k.shape == [batch, u, ContextSize(cfg), cfg.heads, cfg.headDim]
  }

  function QueriesByHead(cfg: AudioConfig, queries: Tensor<real>, batch: nat, u: nat): (r: Tensor<real>)
    requires QueryShape(cfg, queries, batch, u)
    ensures r.shape == [batch, cfg.heads, u, cfg.chunk, cfg.headDim]
  {
    Transpose(queries, [0, 3, 1, 2, 4], [0, 2, 3, 1, 4])
  }

  lemma QueriesByHeadRow(cfg: AudioConfig, queries: Tensor<real>, batch: nat, u: nat,
                         b: nat, n: nat, i: nat, w: nat)
    requires QueryShape(cfg, queries, batch, u)
    ensures Row(QueriesByHead(cfg, queries, batch, u), [b, n, i, w]) == Row(queries, [b, i, w, n])
  {
    forall x: nat ensures Permute([b, n, i, w] + [x], [0, 2, 3, 1, 4]) == [b, i, w, n] + [x] {
    }
  }

  function KeysByHead(cfg: AudioConfig, keys: Tensor<real>, batch: nat, u: nat): (r: Tensor<real>)
    requires KeyShape(cfg, keys, batch, u)
    ensures r.shape == [batch, cfg.heads, u, cfg.headDim, ContextSize(cfg)]
  {
    Transpose(keys, [0, 3, 1, 4, 2], [0, 2, 4, 1, 3])
  }

  lemma KeysByHeadColumn(cfg: AudioConfig, keys: Tensor<real>, batch: nat, u: nat,
                         b: nat, n: nat, i: nat, c: nat)
    requires KeyShape(cfg, keys, batch, u)
    ensures Column(KeysByHead(cfg, keys, batch, u), [b, n, i], c) == Row(keys, [b, i, c, n])
  {
    forall x: nat ensures Permute([b, n, i] + [x, c], [0, 2, 4, 1, 3]) == [b, i, c, n] + [x] {
    }
  }

  function EmbeddingByHead(cfg: AudioConfig, rel: (int, nat) -> real): (r: Tensor<real>)
    ensures r.shape == [cfg.heads, cfg.headDim, Span(cfg)]
  {
    Transpose(RelativeEmbedding(cfg, rel), [1, 2, 0], [2, 0, 1])
  }

  lemma EmbeddingByHeadColumn(cfg: AudioConfig, rel: (int, nat) -> real, n: nat, p: nat)
    requires p < Span(cfg) && n < cfg.heads
    ensures Column(EmbeddingByHead(cfg, rel), [n], p) == RelRow(cfg, rel, MaxPast(cfg) - p, n)
  {
    hide RelativeEmbedding;
    forall x: nat | x < cfg.headDim
      ensures EmbeddingByHead(cfg, rel).at([n] + [x, p]) == rel(MaxPast(cfg) - p, n * cfg.headDim + x)
    {
      assert Permute([n] + [x, p], [2, 0, 1]) == [p, n, x];
      RelativeEmbeddingAt(cfg, rel, p, n, x);
    }
  }

  /** `[B, N, U, W, H]` to `[B, N, U * W, H]`. */
  function FlatRows(cfg: AudioConfig, queriesP: Tensor<real>, batch: nat, u: nat): (r: Tensor<real>)
    requires queriesP.shape == [batch, cfg.heads, u, cfg.chunk, cfg.headDim]
    ensures r.shape == [batch, cfg.heads, u * cfg.chunk, cfg.headDim]
  {
    var pre := [batch, cfg.heads];
    SizeSplit(pre, u, cfg.chunk, [cfg.headDim]);
    assert queriesP.shape == pre + [u, cfg.chunk] + [cfg.headDim];
    Reshape(queriesP, pre + [u * cfg.chunk] + [cfg.headDim])
  }

  lemma FlatRowsRow(cfg: AudioConfig, queriesP: Tensor<real>, batch: nat, u: nat,
                    b: nat, n: nat, i: nat, w: nat)
    requires queriesP.shape == [batch, cfg.heads, u, cfg.chunk, cfg.headDim]
    requires b < batch && n < cfg.heads && i < u && w < cfg.chunk
    ensures Row(FlatRows(cfg, queriesP, batch, u), [b, n] + [i * cfg.chunk + w])
         == Row(queriesP, [b, n, i, w])
  {
    hide Flat, Size, Reshape;
    var rows, pre, z := u * cfg.chunk, [batch, cfg.heads], i * cfg.chunk + w;
    assert queriesP.shape == pre + [u, cfg.chunk] + [cfg.headDim];
    var flat := FlatRows(cfg, queriesP, batch, u);
    forall x | 0 <= x < cfg.headDim
      ensures flat.at(([b, n] + [z]) + [x]) == queriesP.at([b, n, i, w] + [x])
    {
      MergeAt(queriesP, pre, rows, u, cfg.chunk, [cfg.headDim], [b, n], z, i, w, [x]);
      assert [b, n] + [i, w] + [x] == [b, n, i, w] + [x];
    }
  }

  /** Query-position products, `[B, N, U, W, span]`, computed over flattened rows. */
  function PositionTerm(cfg: AudioConfig, queriesP: Tensor<real>, rel: (int, nat) -> real,
                        batch: nat, u: nat): (r: Tensor<real>)
    requires queriesP.shape == [batch, cfg.heads, u, cfg.chunk, cfg.headDim]
    ensures r.shape == [batch, cfg.heads, u, cfg.chunk, Span(cfg)]
  {
    var pre := [batch, cfg.heads];
    var product := MatMul(FlatRows(cfg, queriesP, batch, u), EmbeddingByHead(cfg, rel));
    assert product.shape == pre + [u * cfg.chunk] + [Span(cfg)];
    SizeSplit(pre, u, cfg.chunk, [Span(cfg)]);
    Reshape(product, pre + [u, cfg.chunk] + [Span(cfg)])
  }

  lemma PositionTermAt(cfg: AudioConfig, queriesP: Tensor<real>, rel: (int, nat) -> real,
                       batch: nat, u: nat, b: nat, n: nat, i: nat, w: nat, p: nat)
    requires queriesP.shape == [batch, cfg.heads, u, cfg.chunk, cfg.headDim]
    requires b < batch && n < cfg.heads && i < u && w < cfg.chunk && p < Span(cfg)
    ensures PositionTerm(cfg, queriesP, rel, batch, u).at([b, n, i, w, p])
         == Dot(Row(queriesP, [b, n, i, w]), RelRow(cfg, rel, MaxPast(cfg) - p, n))
  {
    hide Flat, Size, Reshape, FlatRows, MatMul, EmbeddingByHead, Dot;
    var pre, z := [batch, cfg.heads], i * cfg.chunk + w;
    var flat, emb := FlatRows(cfg, queriesP, batch, u), EmbeddingByHead(cfg, rel);
    var product := MatMul(flat, emb);
    assert product.shape == pre + [u * cfg.chunk] + [Span(cfg)];
    SplitAt(product, pre, u * cfg.chunk, u, cfg.chunk, [Span(cfg)], [b, n], z, i, w, [p]);
    assert [b, n] + [i, w] + [p] == [b, n, i, w, p] && [b, n] + [z] + [p] == [b, n] + [z, p];
    MatMulAt(flat, emb, [b, n], z, p);
    assert [b, n][1..] == [n];
    EmbeddingByHeadColumn(cfg, rel, n, p);
    FlatRowsRow(cfg, queriesP, batch, u, b, n, i, w);
  }

  function ComputeRelativeAttention(cfg: AudioConfig, queries: Tensor<real>, keys: Tensor<real>,
                                    rel: (int, nat) -> real, batch: nat, u: nat): (r: Tensor<real>)
    requires cfg.chunk >= 1 && QueryShape(cfg, queries, batch, u) && KeyShape(cfg, keys, batch, u)
    ensures r.shape == [batch, cfg.heads, u, cfg.chunk, ContextSize(cfg)]
  {
    var queriesP := QueriesByHead(cfg, queries, batch, u);
    var termAc := MatMul(queriesP, KeysByHead(cfg, keys, batch, u));
    var termBd := PositionTerm(cfg, queriesP, rel, batch, u);
    Add(termAc, RelativeShift(termBd, ContextSize(cfg)))
  }

  /** Logit of row `w`, slot `c`: the content product, plus the position product of
      relative position `past - (c - w)` inside the span. */
  lemma RelativeLogitAt(cfg: AudioConfig, queries: Tensor<real>, keys: Tensor<real>,
                        rel: (int, nat) -> real, batch: nat, u: nat,
                        b: nat, n: nat, i: nat, w: nat, c: nat)
    requires cfg.chunk >= 1 && QueryShape(cfg, queries, batch, u) && KeyShape(cfg, keys, batch, u)
    requires b < batch && n < cfg.heads && i < u && w < cfg.chunk && c < ContextSize(cfg)
    ensures ComputeRelativeAttention(cfg, queries, keys, rel, batch, u).at([b, n, i, w, c])
         == Dot(Row(queries, [b, i, w, n]), Row(keys, [b, i, c, n]))
          + (if 0 <= c - w < Span(cfg) then
               Dot(Row(queries, [b, i, w, n]), RelRow(cfg, rel, MaxPast(cfg) - (c - w), n))
             else 0.0)
  {
    hide Flat, Size, MatMul, QueriesByHead, KeysByHead, PositionTerm, RelativeShift, Dot;
    var ctx := ContextSize(cfg);
    var queriesP := QueriesByHead(cfg, queries, batch, u);
    var keysP := KeysByHead(cfg, keys, batch, u);
    var termBd := PositionTerm(cfg, queriesP, rel, batch, u);
    QueriesByHeadRow(cfg, queries, batch, u, b, n, i, w);
    KeysByHeadColumn(cfg, keys, batch, u, b, n, i, c);
    MatMulAt(queriesP, keysP, [b, n, i], w, c);
    assert [b, n, i] + [w, c] == [b, n, i, w, c] && [b, n, i] + [w] == [b, n, i, w];
    assert [b, n, i][0..] == [b, n, i];
    RelativeShiftIsSkew(termBd, ctx, [b, n, i], w, c);
    if 0 <= c - w < Span(cfg) {
      var p: nat := c - w;
      assert [b, n, i] + [w, p] == [b, n, i, w, p];
      PositionTermAt(cfg, queriesP, rel, batch, u, b, n, i, w, p);
    }
  }

  // ------------------------------------------------------------------ forward

  predicate Frames(cfg: AudioConfig, x: Tensor<real>, batch: nat, t: nat) {
    x.shape == [batch, t, cfg.heads, cfg.headDim]
  }

  /** Inputs of one attention call, after projection and scaling: queries, keys and
      values `[B, T, N, H]` and a padding mask `[B, T]`, true where a frame is padding. */
  datatype Input = Input(batch: nat, frames: nat, q: Tensor<real>, k: Tensor<real>,
                         v: Tensor<real>, mask: Tensor<bool>)

  predicate Shaped(cfg: AudioConfig, x: Input) {
    && cfg.chunk >= 1 && x.frames >= 1
    && Frames(cfg, x.q, x.batch, x.frames)
    && Frames(cfg, x.k, x.batch, x.frames)
    && Frames(cfg, x.v, x.batch, x.frames)
    && x.mask.shape == [x.batch, x.frames]
  }

  function NumBlocks(cfg: AudioConfig, x: Input): (u: nat)
    requires Shaped(cfg, x)
    ensures u == QueryBlocks(cfg, x.frames) == ContextBlocks(cfg, x.frames)
  {
    BlockCountsAgree(cfg, x.frames);
    QueryBlocks(cfg, x.frames)
  }

  function Not(m: Tensor<bool>): (r: Tensor<bool>)
    ensures r.shape == m.shape
  {
    Tensor(m.shape, (idx: seq<nat>) => !m.at(idx))
  }

  /** Which window slots hold an unpadded frame, `[B, 1, U, 1, C]`. */
  function ExtractedValid(cfg: AudioConfig, x: Input): (r: Tensor<bool>)
    requires Shaped(cfg, x)
    ensures r.shape == [x.batch, 1, NumBlocks(cfg, x), 1, ContextSize(cfg)]
  {
    var u, c := NumBlocks(cfg, x), ContextSize(cfg);
    var e := ExtractBlockContext(cfg, Not(x.mask), false);
    assert e.shape == [x.batch, u] + [c];
    SizeUnit([x.batch, u], [c]);
    assert [x.batch] + [u, 1, c] == [x.batch, u] + [1] + [c];
    SizeUnit([x.batch], [u, 1, c]);
    assert [x.batch, 1, u, 1, c] == [x.batch] + [1] + [u, 1, c];
    Reshape(e, [x.batch, 1, u, 1, c])
  }

  lemma ExtractedValidAt(cfg: AudioConfig, x: Input, b: nat, u: nat, c: nat)
    requires Shaped(cfg, x) && b < x.batch && u < NumBlocks(cfg, x) && c < ContextSize(cfg)
    ensures var s := u * cfg.chunk + c - MaxPast(cfg);
            ExtractedValid(cfg, x).at([b, 0, u, 0, c]) == (0 <= s < x.frames && !x.mask.at([b, s]))
  {
    hide Flat, Size, ExtractBlockContext;
    var us, cs := NumBlocks(cfg, x), ContextSize(cfg);
    var e := ExtractBlockContext(cfg, Not(x.mask), false);
    assert e.shape == [x.batch, us] + [cs];
    FlatUnit([x.batch, us], [cs], [b, u], [c]);
    assert [x.batch] + [us, 1, cs] == [x.batch, us] + [1] + [cs];
    assert [b] + [u, 0, c] == [b, u] + [0] + [c];
    FlatUnit([x.batch], [us, 1, cs], [b], [u, 0, c]);
    assert [x.batch, 1, us, 1, cs] == [x.batch] + [1] + [us, 1, cs];
    assert [b, 0, u, 0, c] == [b] + [0] + [u, 0, c];
    ReshapeAt(e, [x.batch, 1, us, 1, cs], [b, 0, u, 0, c], [b, u] + [c]);
    ExtractBlockContextAt(cfg, Not(x.mask), false, b, u, c, []);
    assert [b, u, c] + [] == [b, u] + [c];
    var s := u * cfg.chunk + c - MaxPast(cfg);
    if 0 <= s { assert [b, s] + [] == [b, s]; }
  }

  /** The band mask with three unit axes in front. */
  function CausalMask(cfg: AudioConfig): (r: Tensor<bool>)
    ensures r.shape == [1, 1, 1, cfg.chunk, ContextSize(cfg)]
  {
    UnitAxes([cfg.chunk, ContextSize(cfg)], [0, 0]);
    Reshape(BuildCausalValidMask(cfg), [1, 1, 1, cfg.chunk, ContextSize(cfg)])
  }

  lemma UnitAxes(shape: seq<nat>, idx: seq<nat>)
    requires |shape| == |idx| == 2
    ensures Size([1, 1, 1, shape[0], shape[1]]) == Size(shape)
    ensures InRange(shape, idx) ==>
              && InRange([1, 1, 1, shape[0], shape[1]], [0, 0, 0, idx[0], idx[1]])
              && Flat([1, 1, 1, shape[0], shape[1]], [0, 0, 0, idx[0], idx[1]]) == Flat(shape, idx)
  {
    hide Flat, Size;
    SizeCons(1, shape);
    SizeCons(1, [1] + shape);
    SizeCons(1, [1] + ([1] + shape));
    assert [1] + ([1] + ([1] + shape)) == [1, 1, 1, shape[0], shape[1]];
    if InRange(shape, idx) {
      FlatCons(1, shape, 0, idx);
      FlatCons(1, [1] + shape, 0, [0] + idx);
      FlatCons(1, [1] + ([1] + shape), 0, [0] + ([0] + idx));
      assert [0] + ([0] + ([0] + idx)) == [0, 0, 0, idx[0], idx[1]];
    }
  }

  lemma CausalMaskAt(cfg: AudioConfig, w: nat, c: nat)
    requires w < cfg.chunk && c < ContextSize(cfg)
    ensures CausalMask(cfg).at([0, 0, 0, w, c]) == (w <= c <= w + MaxPast(cfg) + cfg.contextRight)
  {
    hide Flat, Size, BuildCausalValidMask;
    UnitAxes([cfg.chunk, ContextSize(cfg)], [w, c]);
    ReshapeAt(BuildCausalValidMask(cfg), [1, 1, 1, cfg.chunk, ContextSize(cfg)], [0, 0, 0, w, c], [w, c]);
    CausalValidMaskAt(cfg, w, c);
  }

  /** Broadcast conjunction of the two masks, `[B, 1, U, W, C]`. */
  function Condition(cfg: AudioConfig, x: Input): (r: Tensor<bool>)
    requires Shaped(cfg, x)
    ensures r.shape == [x.batch, 1, NumBlocks(cfg, x), cfg.chunk, ContextSize(cfg)]
  {
    Tensor([x.batch, 1, NumBlocks(cfg, x), cfg.chunk, ContextSize(cfg)], (idx: seq<nat>) =>
      && ExtractedValid(cfg, x).at([Coord(idx, 0), 0, Coord(idx, 2), 0, Coord(idx, 4)])
      && CausalMask(cfg).at([0, 0, 0, Coord(idx, 3), Coord(idx, 4)]))
  }

  function SoftCap(cfg: AudioConfig, tanh: real -> real, x: real): real
    requires cfg.cap != 0.0
  {
    Times(tanh(Times(x, Recip(cfg.cap))), cfg.cap)
  }

  /** Capped logits with masked slots overwritten, `[B, N, U, W, C]`. */
  function MaskedLogits(cfg: AudioConfig, x: Input, rel: (int, nat) -> real, tanh: real -> real)
    : (r: Tensor<real>)
    requires Shaped(cfg, x) && cfg.cap != 0.0
    ensures r.shape == [x.batch, cfg.heads, NumBlocks(cfg, x), cfg.chunk, ContextSize(cfg)]
  {
    var u := NumBlocks(cfg, x);
    var queryBlocks := ConvertToBlock(cfg, x.q, 0.0);
    var keyBlocks := ExtractBlockContext(cfg, x.k, 0.0);
    var logits := ComputeRelativeAttention(cfg, queryBlocks, keyBlocks, rel, x.batch, u);
    var condition := Condition(cfg, x);
    Tensor(logits.shape, (idx: seq<nat>) =>
      if condition.at(With(idx, 1, 0)) then SoftCap(cfg, tanh, logits.at(idx)) else cfg.invalid)
  }

  /** The window values of one block for one output component. */
  function WindowColumn(t: Tensor<real>, b: nat, u: nat, n: nat, h: nat): (r: seq<real>)
    requires |t.shape| == 5
    ensures |r| == t.shape[2]
    ensures forall c :: 0 <= c < |r| ==> r[c] == t.at([b, u, c, n, h])
  {
    seq(t.shape[2], c requires 0 <= c => t.at([b, u, c, n, h]))
  }

  /** Softmax over the slots, then the weighted sum of the window values: `[B, U, W, N, H]`. */
  ghost function Attend(cfg: AudioConfig, x: Input, rel: (int, nat) -> real,
                        tanh: real -> real, exp: real -> real): (r: Tensor<real>)
    requires Shaped(cfg, x) && cfg.cap != 0.0 && ExpLike(exp)
    ensures r.shape == [x.batch, NumBlocks(cfg, x), cfg.chunk, cfg.heads, cfg.headDim]
  {
    var logits := MaskedLogits(cfg, x, rel, tanh);
    var valueBlocks := ExtractBlockContext(cfg, x.v, 0.0);
    Tensor([x.batch, NumBlocks(cfg, x), cfg.chunk, cfg.heads, cfg.headDim], (idx: seq<nat>) =>
      var b, u, w, n, h := Coord(idx, 0), Coord(idx, 1), Coord(idx, 2), Coord(idx, 3), Coord(idx, 4);
      Dot(Softmax(exp, Row(logits, [b, n, u, w])), WindowColumn(valueBlocks, b, u, n, h)))
  }

  /** `[B, U, W, N, H]` to `[B, U * W, N * H]`. */
  function MergeBlocks(t: Tensor<real>, b: nat, u: nat, w: nat, n: nat, h: nat): (r: Tensor<real>)
    requires t.shape == [b, u, w, n, h]
    ensures r.shape == [b, u * w, n * h]
  {
    MergedSize(b, u, w, n, h);
    Reshape(t, [b, u * w, n * h])
  }

  lemma MergedSize(b: nat, u: nat, w: nat, n: nat, h: nat)
    ensures Size([b, u * w, n * h]) == Size([b, u, w, n, h])
  {
    SizeSplit([b], u, w, [n, h]);
    SizeSplit([b, u * w], n, h, []);
    assert [b] + [u, w] + [n, h] == [b, u, w, n, h];
    assert [b] + [u * w] + [n, h] == [b, u * w] + [n, h] + [];
    assert [b, u * w] + [n * h] + [] == [b, u * w, n * h];
  }

  lemma MergeBlocksAt(t: Tensor<real>, bs: nat, us: nat, ws: nat, ns: nat, hs: nat,
                      b: nat, u: nat, w: nat, n: nat, h: nat)
    requires t.shape == [bs, us, ws, ns, hs]
    requires b < bs && u < us && w < ws && n < ns && h < hs
    ensures MergeBlocks(t, bs, us, ws, ns, hs).at([b, u * ws + w, n * hs + h])
         == t.at([b, u, w, n, h])
  {
    hide Flat, Size;
    MergedSize(bs, us, ws, ns, hs);
    MergedFlat(bs, us, ws, ns, hs, us * ws, ns * hs, b, u, w, n, h, u * ws + w, n * hs + h);
    ReshapeAt(t, [bs, us * ws, ns * hs], [b, u * ws + w, n * hs + h], [b, u, w, n, h]);
  }

  lemma MergedFlat(bs: nat, us: nat, ws: nat, ns: nat, hs: nat, fs: nat, zs: nat,
                   b: nat, u: nat, w: nat, n: nat, h: nat, f: nat, z: nat)
    requires fs == us * ws && zs == ns * hs && f == u * ws + w && z == n * hs + h
    requires b < bs && u < us && w < ws && n < ns && h < hs
    ensures InRange([bs, fs, zs], [b, f, z]) && InRange([bs, us, ws, ns, hs], [b, u, w, n, h])
    ensures Flat([bs, fs, zs], [b, f, z]) == Flat([bs, us, ws, ns, hs], [b, u, w, n, h])
  {
    hide Flat, Size;
    FlatSplit([bs], us, ws, [ns, hs], [b], u, w, [n, h]);
    RadixBound(us, ws, u, w);
    FlatSplit([bs, fs], ns, hs, [], [b, f], n, h, []);
    assert [bs] + [us, ws] + [ns, hs] == [bs, us, ws, ns, hs];
    assert [bs] + [fs] + [ns, hs] == [bs, fs] + [ns, hs] + [];
    assert [bs, fs] + [zs] + [] == [bs, fs, zs];
    assert [b] + [u, w] + [n, h] == [b, u, w, n, h];
    assert [b] + [f] + [n, h] == [b, f] + [n, h] + [];
    assert [b, f] + [z] + [] == [b, f, z];
  }

  /** Drops the frames that padding added. */
  function Trim(t: Tensor<real>, frames: nat): (r: Tensor<real>)
    requires |t.shape| == 3 && frames <= t.shape[1]
    ensures r.shape == [t.shape[0], frames, t.shape[2]] && r.at == t.at
  {
    if t.shape[1] > frames then Slice(t, 1, frames) else t
  }

  /** The attention output before the last projection, `[B, T, N * H]`. */
  ghost function Forward(cfg: AudioConfig, x: Input, rel: (int, nat) -> real,
                         tanh: real -> real, exp: real -> real): (r: Tensor<real>)
    requires Shaped(cfg, x) && cfg.cap != 0.0 && ExpLike(exp)
    ensures r.shape == [x.batch, x.frames, cfg.heads * cfg.headDim]
  {
    var u := NumBlocks(cfg, x);
    BlockCountsAgree(cfg, x.frames);
    Trim(MergeBlocks(Attend(cfg, x, rel, tanh, exp), x.batch, u, cfg.chunk, cfg.heads, cfg.headDim),
         x.frames)
  }
}
