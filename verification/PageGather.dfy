/** Paged key/value gathers: fixed-size physical blocks picked by a block table, in a
    block-major layout (A) and a head-major layout (B). */
module PageGather {
  import opened Arith
  import opened Wrappers
  import opened Tensors

  /** Geometry of one configuration. */
  datatype Geometry = Geometry(batch: nat, ctx: nat, block: nat, heads: nat, dim: nat)

  predicate Sized(g: Geometry) {
    g.block >= 1
  }

  function BlocksPerSequence(g: Geometry): nat
    requires Sized(g)
  {
    (g.ctx + g.block - 1) / g.block
  }

  function PaddedContext(g: Geometry): nat
    requires Sized(g)
  {
    BlocksPerSequence(g) * g.block
  }

  function TotalBlocks(g: Geometry): nat
    requires Sized(g)
  {
    g.batch * BlocksPerSequence(g)
  }

  function PoolBlocks(g: Geometry): nat
    requires Sized(g)
  {
    TotalBlocks(g) * 2
  }

  function ReversedId(g: Geometry, i: nat): nat
    requires Sized(g) && i < TotalBlocks(g)
  {
    PoolBlocks(g) - 1 - i
  }

  /** Block ids in reverse order over the pool. */
  function BlockIds(g: Geometry): (r: seq<nat>)
    requires Sized(g)
    ensures |r| == TotalBlocks(g)
  {
    seq(TotalBlocks(g), i requires 0 <= i < TotalBlocks(g) => ReversedId(g, i))
  }

  predicate BlockTable(g: Geometry, ids: seq<nat>)
    requires Sized(g)
  {
    |ids| == TotalBlocks(g) && forall i :: 0 <= i < |ids| ==> ids[i] < PoolBlocks(g)
  }

  /** The padded context covers the context with less than one block to spare, and the
      generated ids run down from the top of a pool twice as large as the table: a block
      table of distinct entries. */
  lemma BlockIdsAreTable(g: Geometry)
    requires Sized(g)
    ensures BlockTable(g, BlockIds(g)) && Distinct(BlockIds(g))
    ensures g.ctx <= PaddedContext(g) < g.ctx + g.block
    ensures var nb, ids := PaddedContext(g) / g.block, BlockIds(g);
            |ids| == g.batch * nb && forall i :: 0 <= i < |ids| ==> ids[i] == 2 * |ids| - 1 - i
  {
    var n, q := g.ctx + g.block - 1, BlocksPerSequence(g);
    assert n == q * g.block + n % g.block;
    DivisionUnique(q * g.block, g.block, q, 0);
  }

  // ---------------------------------------------------------------- layout A

  /** Pool `[P, BS, H, D]` to `[B, H, T, D]`. */
  function GatherA<T>(g: Geometry, pool: Tensor<T>, ids: seq<nat>): (r: Tensor<T>)
    requires Sized(g) && BlockTable(g, ids)
    requires pool.shape == [PoolBlocks(g), g.block, g.heads, g.dim]
    ensures r.shape == [g.batch, g.heads, PaddedContext(g), g.dim]
  {
    var taken := Take(pool, ids, 0);
    assert taken.shape == [] + [TotalBlocks(g), g.block] + [g.heads, g.dim];
    RegroupSize([], g.batch, BlocksPerSequence(g), g.block, [g.heads, g.dim]);
    var grouped := Reshape(taken, [] + [g.batch, PaddedContext(g)] + [g.heads, g.dim]);
    Transpose(grouped, [0, 2, 1, 3], [0, 2, 1, 3])
  }

  /** Pool `[H, P, BS, D]` to `[B, H, T, D]`. */
  function GatherB<T>(g: Geometry, pool: Tensor<T>, ids: seq<nat>): (r: Tensor<T>)
    requires Sized(g) && BlockTable(g, ids)
    requires pool.shape == [g.heads, PoolBlocks(g), g.block, g.dim]
    ensures r.shape == [g.batch, g.heads, PaddedContext(g), g.dim]
  {
    var taken := Take(pool, ids, 1);
    assert taken.shape == [g.heads] + [TotalBlocks(g), g.block] + [g.dim];
    RegroupSize([g.heads], g.batch, BlocksPerSequence(g), g.block, [g.dim]);
    var grouped := Reshape(taken, [g.heads] + [g.batch, PaddedContext(g)] + [g.dim]);
    Transpose(grouped, [1, 0, 2, 3], [1, 0, 2, 3])
  }

  // ------------------------------------------------------------- index facts

  /** `[a * n, k]` and `[a, n * k]` hold the same elements. */
  lemma RegroupSize(pre: seq<nat>, a: nat, n: nat, k: nat, post: seq<nat>)
    ensures Size(pre + [a, n * k] + post) == Size(pre + [a * n, k] + post)
  {
    SizeSplit(pre, a, n, [k] + post);
    SizeSplit(pre + [a], n, k, post);
    assert pre + [a * n] + ([k] + post) == pre + [a * n, k] + post;
    assert pre + [a, n] + ([k] + post) == (pre + [a]) + [n, k] + post;
    assert (pre + [a]) + [n * k] + post == pre + [a, n * k] + post;
  }

  /** Row `x * n + y` at offset `o` is element `y * k + o` of group `x`. */
  lemma RegroupFlat(pre: seq<nat>, a: nat, n: nat, k: nat, post: seq<nat>, an: nat, nk: nat,
                    i: seq<nat>, x: nat, y: nat, o: nat, r: nat, t: nat, j: seq<nat>)
    requires an == a * n && nk == n * k && r == x * n + y && t == y * k + o
    requires InRange(pre, i) && x < a && y < n && o < k && InRange(post, j)
    ensures InRange(pre + [a, nk] + post, i + [x, t] + j)
    ensures InRange(pre + [an, k] + post, i + [r, o] + j)
    ensures Flat(pre + [a, nk] + post, i + [x, t] + j) == Flat(pre + [an, k] + post, i + [r, o] + j)
  {
    hide Flat, Size;
    InRangeConcat([k], post, [o], j);
    FlatSplit(pre, a, n, [k] + post, i, x, y, [o] + j);
    InRangeConcat(pre, [a], i, [x]);
    FlatSplit(pre + [a], n, k, post, i + [x], y, o, j);
    assert pre + [an] + ([k] + post) == pre + [an, k] + post;
    assert pre + [a, n] + ([k] + post) == (pre + [a]) + [n, k] + post;
    assert (pre + [a]) + [nk] + post == pre + [a, nk] + post;
    assert i + [r] + ([o] + j) == i + [r, o] + j;
    assert i + [x, y] + ([o] + j) == (i + [x]) + [y, o] + j;
    assert (i + [x]) + [t] + j == i + [x, t] + j;
  }

  // ------------------------------------------------------------- correctness

  /** Where token `t` of sequence `b` lives: `slot` is its entry of the block table. */
  predicate Located(g: Geometry, b: nat, t: nat, slot: nat) {
    Sized(g) && b < g.batch && t < PaddedContext(g)
    && slot == SlotOf(g, b, t)
  }

  function SlotOf(g: Geometry, b: nat, t: nat): nat
    requires Sized(g)
  {
    b * BlocksPerSequence(g) + t / g.block
  }

  lemma SlotInTable(g: Geometry, b: nat, t: nat, slot: nat)
    requires Located(g, b, t, slot)
    ensures t / g.block < BlocksPerSequence(g) && slot < TotalBlocks(g)
    ensures t == t / g.block * g.block + t % g.block
  {
    RadixDigits(BlocksPerSequence(g), g.block, t);
    RadixBound(g.batch, BlocksPerSequence(g), b, t / g.block);
  }

  /** Layout A reads physical block `ids[b * nb + t / bs]` at offset `t % bs`. */
  lemma GatherAAt<T>(g: Geometry, pool: Tensor<T>, ids: seq<nat>, b: nat, h: nat, t: nat, d: nat, slot: nat)
    requires Located(g, b, t, slot) && BlockTable(g, ids)
    requires pool.shape == [PoolBlocks(g), g.block, g.heads, g.dim]
    requires h < g.heads && d < g.dim
    ensures slot < |ids|
    ensures GatherA(g, pool, ids).at([b, h, t, d]) == pool.at([ids[slot], t % g.block, h, d])
  {
    hide Flat, Size;
    var o := t % g.block;
    SlotInTable(g, b, t, slot);
    var taken := Take(pool, ids, 0);
    var nb, post := BlocksPerSequence(g), [g.heads, g.dim];
    assert taken.shape == [] + [TotalBlocks(g), g.block] + post;
    RegroupSize([], g.batch, nb, g.block, post);
    RegroupFlat([], g.batch, nb, g.block, post, TotalBlocks(g), PaddedContext(g),
                [], b, t / g.block, o, slot, t, [h, d]);
    assert [] + [b, t] + [h, d] == [b, t, h, d] && [] + [slot, o] + [h, d] == [slot, o, h, d];
    ReshapeAt(taken, [] + [g.batch, PaddedContext(g)] + post, [b, t, h, d], [slot, o, h, d]);
    assert Permute([b, h, t, d], [0, 2, 1, 3]) == [b, t, h, d];
    assert Coord([slot, o, h, d], 0) == slot;
    assert With([slot, o, h, d], 0, ids[slot]) == [ids[slot], o, h, d];
  }

  /** Layout B reads the same block and offset, under the head first. */
  lemma GatherBAt<T>(g: Geometry, pool: Tensor<T>, ids: seq<nat>, b: nat, h: nat, t: nat, d: nat, slot: nat)
    requires Located(g, b, t, slot) && BlockTable(g, ids)
    requires pool.shape == [g.heads, PoolBlocks(g), g.block, g.dim]
    requires h < g.heads && d < g.dim
    ensures slot < |ids|
    ensures GatherB(g, pool, ids).at([b, h, t, d]) == pool.at([h, ids[slot], t % g.block, d])
  {
    hide Flat, Size;
    var o := t % g.block;
    SlotInTable(g, b, t, slot);
    var taken := Take(pool, ids, 1);
    var nb := BlocksPerSequence(g);
    assert taken.shape == [g.heads] + [TotalBlocks(g), g.block] + [g.dim];
    RegroupSize([g.heads], g.batch, nb, g.block, [g.dim]);
    RegroupFlat([g.heads], g.batch, nb, g.block, [g.dim], TotalBlocks(g), PaddedContext(g),
                [h], b, t / g.block, o, slot, t, [d]);
    assert [h] + [b, t] + [d] == [h, b, t, d] && [h] + [slot, o] + [d] == [h, slot, o, d];
    ReshapeAt(taken, [g.heads] + [g.batch, PaddedContext(g)] + [g.dim], [h, b, t, d], [h, slot, o, d]);
    assert Permute([b, h, t, d], [1, 0, 2, 3]) == [h, b, t, d];
    assert Coord([h, slot, o, d], 1) == slot;
    assert With([h, slot, o, d], 1, ids[slot]) == [h, ids[slot], o, d];
  }

  /** Two pools with the same contents, one per layout. */
  ghost predicate SamePool<T(!new)>(g: Geometry, poolA: Tensor<T>, poolB: Tensor<T>)
    requires Sized(g)
  {
    && poolA.shape == [PoolBlocks(g), g.block, g.heads, g.dim]
    && poolB.shape == [g.heads, PoolBlocks(g), g.block, g.dim]
    && forall p: nat, o: nat, h: nat, d: nat {:trigger poolA.at([p, o, h, d])} ::
         p < PoolBlocks(g) && o < g.block && h < g.heads && d < g.dim ==>
         poolA.at([p, o, h, d]) == poolB.at([h, p, o, d])
  }

  /** Both layouts gather the same tensor. */
  lemma LayoutsAgree<T(!new)>(g: Geometry, poolA: Tensor<T>, poolB: Tensor<T>, ids: seq<nat>, idx: seq<nat>)
    requires Sized(g) && BlockTable(g, ids) && SamePool(g, poolA, poolB)
    requires InRange(GatherA(g, poolA, ids).shape, idx)
    ensures GatherA(g, poolA, ids).shape == GatherB(g, poolB, ids).shape
    ensures GatherA(g, poolA, ids).at(idx) == GatherB(g, poolB, ids).at(idx)
  {
    hide GatherA, GatherB, SlotOf, TotalBlocks;
    var b, h, t, d := idx[0], idx[1], idx[2], idx[3];
    assert idx == [b, h, t, d];
    var slot := SlotOf(g, b, t);
    GatherAAt(g, poolA, ids, b, h, t, d, slot);
    GatherBAt(g, poolB, ids, b, h, t, d, slot);
    assert ids[slot] < PoolBlocks(g);
  }

  // -------------------------------------------------- storing and gathering

  /** The pool that holds a contiguous `[B, H, T, D]` tensor block by block, each block at
      the id the table gives it; ids outside the table keep the old contents. */
  function StoreBlocks<T>(g: Geometry, old_: Tensor<T>, ids: seq<nat>, contiguous: Tensor<T>): (r: Tensor<T>)
    requires Sized(g) && BlockTable(g, ids)
    ensures r.shape == [PoolBlocks(g), g.block, g.heads, g.dim]
  {
    Tensor([PoolBlocks(g), g.block, g.heads, g.dim], (idx: seq<nat>) =>
      var k := IndexOf(ids, Coord(idx, 0));
      if k < |ids| && BlocksPerSequence(g) > 0 then
        contiguous.at([k / BlocksPerSequence(g), Coord(idx, 2),
                       k % BlocksPerSequence(g) * g.block + Coord(idx, 1), Coord(idx, 3)])
      else old_.at(idx))
  }

  /** The first position of `id`, or the length when absent. */
  function IndexOf(ids: seq<nat>, id: nat): (k: nat)
    ensures k <= |ids| && (k < |ids| ==> ids[k] == id)
    ensures forall j :: 0 <= j < k ==> ids[j] != id
  {
    if ids == [] then 0
    else if ids[0] == id then 0
    else
      assert forall j :: 0 < j < |ids| ==> ids[j] == ids[1..][j - 1];
      IndexOf(ids[1..], id) + 1
  }

  /** Distinct ids make the pool faithful: gathering what was stored gives it back. */
  lemma GatherStored<T>(g: Geometry, old_: Tensor<T>, ids: seq<nat>, contiguous: Tensor<T>, idx: seq<nat>)
    requires Sized(g) && BlockTable(g, ids) && Distinct(ids)
    requires contiguous.shape == [g.batch, g.heads, PaddedContext(g), g.dim]
    requires InRange(contiguous.shape, idx)
    ensures GatherA(g, StoreBlocks(g, old_, ids, contiguous), ids).at(idx) == contiguous.at(idx)
  {
    hide GatherA, SlotOf, StoreBlocks, TotalBlocks;
    var b, h, t, d := idx[0], idx[1], idx[2], idx[3];
    assert idx == [b, h, t, d];
    var slot := SlotOf(g, b, t);
    GatherAAt(g, StoreBlocks(g, old_, ids, contiguous), ids, b, h, t, d, slot);
    SlotDigits(g, b, t, slot);
    StoredAt(g, old_, ids, contiguous, slot, t % g.block, h, d);
  }

  /** Entry `slot` of the table holds block `slot % nb` of sequence `slot / nb`. */
  lemma StoredAt<T>(g: Geometry, old_: Tensor<T>, ids: seq<nat>, contiguous: Tensor<T>,
                    slot: nat, o: nat, h: nat, d: nat)
    requires Sized(g) && BlockTable(g, ids) && Distinct(ids) && slot < |ids| && BlocksPerSequence(g) > 0
    ensures StoreBlocks(g, old_, ids, contiguous).at([ids[slot], o, h, d])
         == contiguous.at([slot / BlocksPerSequence(g), h, slot % BlocksPerSequence(g) * g.block + o, d])
  {
    hide BlockTable, BlocksPerSequence, IndexOf;
    IndexOfDistinct(ids, slot);
    var at := [ids[slot], o, h, d];
    assert Coord(at, 0) == ids[slot] && Coord(at, 1) == o && Coord(at, 2) == h && Coord(at, 3) == d;
  }

  lemma SlotDigits(g: Geometry, b: nat, t: nat, slot: nat)
    requires Located(g, b, t, slot)
    ensures BlocksPerSequence(g) > 0
    ensures slot / BlocksPerSequence(g) == b
    ensures slot % BlocksPerSequence(g) * g.block + t % g.block == t
  {
    hide BlocksPerSequence, TotalBlocks;
    SlotInTable(g, b, t, slot);
    DivisionUnique(slot, BlocksPerSequence(g), b, t / g.block);
  }

  /** The pool of layout A, head-major: what layout B gathers from. */
  function HeadMajor<T>(g: Geometry, pool: Tensor<T>): (r: Tensor<T>)
    requires Sized(g) && pool.shape == [PoolBlocks(g), g.block, g.heads, g.dim]
    ensures r.shape == [g.heads, PoolBlocks(g), g.block, g.dim]
  {
    Transpose(pool, [2, 0, 1, 3], [1, 2, 0, 3])
  }

  lemma HeadMajorIsSame<T(!new)>(g: Geometry, pool: Tensor<T>)
    requires Sized(g) && pool.shape == [PoolBlocks(g), g.block, g.heads, g.dim]
    ensures SamePool(g, pool, HeadMajor(g, pool))
  {
    forall p: nat, o: nat, h: nat, d: nat
      ensures HeadMajor(g, pool).at([h, p, o, d]) == pool.at([p, o, h, d])
    {
      assert Permute([h, p, o, d], [1, 2, 0, 3]) == [p, o, h, d];
    }
  }

  /** The same round trip through the head-major pool. */
  lemma GatherStoredHeadMajor<T(!new)>(g: Geometry, old_: Tensor<T>, ids: seq<nat>, contiguous: Tensor<T>,
                                       idx: seq<nat>)
    requires Sized(g) && BlockTable(g, ids) && Distinct(ids)
    requires contiguous.shape == [g.batch, g.heads, PaddedContext(g), g.dim]
    requires InRange(contiguous.shape, idx)
    ensures GatherB(g, HeadMajor(g, StoreBlocks(g, old_, ids, contiguous)), ids).at(idx) == contiguous.at(idx)
  {
    hide GatherA, GatherB, StoreBlocks, HeadMajor, SamePool, PaddedContext, PoolBlocks;
    var pool := StoreBlocks(g, old_, ids, contiguous);
    GatherStored(g, old_, ids, contiguous, idx);
    HeadMajorIsSame(g, pool);
    LayoutsAgree(g, pool, HeadMajor(g, pool), ids, idx);
  }

  lemma IndexOfDistinct(ids: seq<nat>, slot: nat)
    requires Distinct(ids) && slot < |ids|
    ensures IndexOf(ids, ids[slot]) == slot
  {
  }
}
