# mlxcel: verified models of its index, edit, configuration, retention and format logic

Dafny models of eight parts of mlxcel, with proofs over all inputs or all runs.

| area | files | main results |
|---|---|---|
| chunked local attention of the Gemma 4 audio encoder | `Arith`, `Tensors`, `Blocks`, `SoftmaxRows`, `Products`, `Attention`, `DenseAttention` | `DenseAttention.ForwardIsDense`: pad, block, gather, shift, mask and merge compute dense sliding-window attention; `DenseAttention.DenseExactlyWhenMaskVanishes`: exactly when |
| paged key/value gather | `PageGather` | `PageGather.LayoutsAgree`, `PageGather.GatherStored`, `PageGather.GatherStoredHeadMajor` |
| edit distance with backtrace | `Levenshtein` | `Levenshtein.Levenshtein`: minimum over all scripts, with the one script that attains it and wins every tie; `Levenshtein.DistanceIsMetric` |
| reloadable decode configuration | `DecodeConfig`, `ConfigRuns`, `ConfigSolo`, `ConfigStore` | invariants of every interleaving; `ConfigRuns.EchoesAreAttributable`, `ConfigRuns.AppliesAreTheirOwn`, `ConfigRuns.OrderedMirrorsAgree`, `ConfigRuns.LatchIsWriteOnce`, `ConfigRuns.FailedReloadChangesNothing` |
| keep-list report of the block store | `KeepList`, `DirSize`, `KeepReport` | `KeepReport.Program`: what each exit code means; `KeepReport.ReportIsSafe`, `KeepReport.ReportIgnoresOrder` |
| RTN quantization and block selection | `Rtn`, `Selection` | `Selection.SelectionIsStable`, `Selection.SampleErrorMeaning`, `Rtn.RoundtripIdempotent` |
| WAV writer and reader | `Wav` | `Wav.RoundTrip`, `Wav.ReencodeMono`, `Wav.ParseAcceptsLayout` with `Wav.ParseGivesLayout`, `Wav.PaddedScan` |
| greedy-divergence harness | `Divergence` | `Divergence.VerdictMeaning`, `Divergence.ConsistentVerdicts`, `Divergence.DiffCaptures` |

`Wrappers` holds the optional and result types the others share.

How the source is represented:

- Floats are `real`. `exp`, `tanh`, the projected position embedding (`rel`) and the
  decoding of a four-byte float (`f32`) are parameters. Of `exp` only `ExpLike` is
  used: nonnegative, one at zero, zero from -104 down, which is where a single-precision
  result rounds to zero. Of `tanh` only that it stays in [-1, 1], and that only for the
  default mask value.
- A tensor is a shape and a function from multi-indices; reshape goes through the
  row-major position, so every reshape claim is a mixed-radix fact.
- Masked logits are overwritten by the configured mask value and take part in the softmax,
  as in the code. Masking is exclusion exactly when `exp` underflows between the mask value
  and the largest logit attended (`MaskVanishes`). A mask value 104 below minus the soft cap
  always does (`DominatingMaskVanishes`); the defaults 50 and -1e9 satisfy that.
- Concurrency is a state machine: each thread advances one atomic operation at a time
  (latch, lock section, one mirror store, ...), in any order, over any number of threads and
  calls. `ConfigStore.Store` is the same store as an object, for callers that take turns.
- Hashes are natural numbers, because thirty-two bytes compare as one big-endian number.
- Directory listings, enumerated indexes, parsed TOML, the server probe, key digests and
  their hexadecimal text are inputs.

Three places where documentation or a natural reading and the code differ; the code is
modelled and the exact condition is proved:

- The harness documentation (`scripts/greedy_divergence_harness.py:50-55`) says ANOMALOUS is
  impossible when each server's short text begins its long text. It is not:
  `Divergence.DeterminismIsNotEnough` gives the texts and `Divergence.ConsistentVerdicts` the
  exact condition.
- The relative shift is an exact skew only while the padding is wide enough.
  `Blocks.RelativeShiftIsSkew` and `Blocks.RelativeShiftLeaks` are the two sides, for every
  nonempty span and context; the widths the attention uses satisfy the condition.
- The WAV reader does not skip the pad byte that RIFF puts after an odd-sized chunk. The
  data is found exactly when the padded chunks happen to read as whole chunks without pads
  (`Wav.FindsDataExactly`). When all chunks before the last one are even, that is when the
  last is even too and there are at most 256 (`Wav.PaddedScan`); an odd chunk earlier on
  can be survived (`Wav.OddChunkCanResync`).

## Model

| member | source | states |
|---|---|---|
| Tensors.UnflatFlat | src/audio/attention.rs:128-144 | multi-indices of a shape and row-major positions correspond one to one, so a reshape neither loses nor duplicates an element |
| Tensors.FlatSplit | src/audio/attention.rs:141-143 | splitting an axis of length a*k into [a, k] keeps every element's position, at any place in any shape |
| Tensors.SplitAt | src/audio/attention.rs:173-176 | which element of the original a reshape that splits an axis shows at each new index |
| Tensors.MergeAt | src/audio/attention.rs:192-226 | which element a reshape that merges two axes shows at each new index |
| Blocks.BlockCountsAgree | src/audio/attention.rs:128-177 | queries and key windows are cut into equally many blocks if and only if there is a frame or the chunk is one frame; the blocks then cover the frames with less than one chunk to spare |
| Blocks.ConvertToBlockAt | src/audio/attention.rs:128-144 | row w of block u is frame u*chunk+w, and zero past the last frame |
| Blocks.FillContextIndices | src/audio/attention.rs:161-168 | the nested loops produce, for window i and offset o, the index i*chunk+o at position i*ctx+o |
| Blocks.ContextIndicesInRange | src/audio/attention.rs:147-170 | every gathered index lies inside the padded axis, for every length and context |
| Blocks.ExtractBlockContextAt | src/audio/attention.rs:146-177 | slot c of window u is frame u*chunk+c-past, and zero outside the input on either side |
| Blocks.RelativeShiftReads | src/audio/attention.rs:192-226 | each entry of the shifted block is the padded entry at the same flattened position |
| Blocks.RelativeShiftIsSkew | src/audio/attention.rs:192-226 | row w moves right by w and is exactly zero elsewhere, so nothing leaks from a neighbouring row, whenever rows + span <= ctx + 2 |
| Blocks.RelativeShiftLeaks | src/audio/attention.rs:192-226 | otherwise, for any nonempty span and context, some row begins with the last entry of the row above: the bound is necessary |
| Attention.CausalValidMaskAt | src/audio/encoder.rs:555-574 | the product of the two triangles is exactly the band w <= c <= w + past + future |
| Attention.RelativeEmbeddingAt | src/audio/attention.rs:245-256 | entry p of the embedding is relative position past - p, for each head component |
| Attention.PositionTermAt | src/audio/attention.rs:258-265 | the product over flattened rows, reshaped back, pairs query row (u, w) with position past - p |
| Attention.RelativeLogitAt | src/audio/attention.rs:228-270 | the logit of row w and slot c is the content product plus the position product at past - (c - w) inside the span, and the content product alone outside it |
| Attention.ExtractedValidAt | src/audio/attention.rs:316-322 | a slot counts as valid exactly when it stands for a frame of the input that is not padding |
| Attention.CausalMaskAt | src/audio/attention.rs:323-327 | the band survives the reshape to five axes |
| Attention.MergeBlocksAt | src/audio/attention.rs:352-352 | merging blocks and heads puts component h of head n of row w of block u at frame u*chunk+w, column n*H+h |
| SoftmaxRows.MaskedMax | src/audio/attention.rs:337-343 | overwriting masked logits leaves the row maximum to the unmasked ones as soon as one of them is at least the mask value |
| SoftmaxRows.MaskedRowIsExclusion | src/audio/attention.rs:337-350 | the softmax-weighted sum over all slots equals the one over the unmasked slots alone whenever the mask value underflows against the row maximum, whatever the other logits |
| SoftmaxRows.ExclusionNeedsUnderflow | src/audio/attention.rs:337-350 | the converse: with a masked slot, the two sums agree for all values if and only if the mask value underflows |
| SoftmaxRows.FullyMaskedRow | src/audio/attention.rs:337-350 | a row with every slot masked is the plain mean of the window values |
| DenseAttention.ConditionAt | src/audio/config.rs:101-107 | the unmasked slots of a row are exactly the unpadded frames of the input at most context-right later, or fewer than context-left earlier |
| DenseAttention.SoftCapIsCapped | src/audio/attention.rs:332-335 | scaling by the reciprocal, tanh and scaling back is tanh(x / cap) * cap |
| DenseAttention.SlotLogit | src/audio/attention.rs:308-340 | each slot holds the capped q_t.k_s + q_t.rel(t - s) where attendable, else the mask value |
| DenseAttention.KeysInWindow | src/audio/attention.rs:146-177 | every attendable frame of a query lies in its block's window, in order and without repetition |
| DenseAttention.RowIsDense | src/audio/attention.rs:308-350 | with an attendable frame and a vanishing mask, or nothing masked, a chunked row equals the softmax and weighted sum over the attended frames only |
| DenseAttention.RowWithoutKeys | src/audio/attention.rs:337-350 | with no attendable frame, a chunked row is the mean over its block's window, padding zeros included |
| DenseAttention.ForwardIsDense | src/audio/attention.rs:272-357 | for every length >= 1, chunk, context left and right, padding mask, head and component: a frame with a key gets softmax attention over exactly those frames, with logits tanh((q.k + q.rel(t - s)) / cap) * cap, when the mask vanishes or nothing is masked; a frame without one gets the window mean |
| DenseAttention.DenseExactlyWhenMaskVanishes | src/audio/attention.rs:272-357 | for a frame with a key, the output is dense attention for all values if and only if the mask vanishes there or nothing is masked |
| DenseAttention.DominatingMaskVanishes | src/audio/config.rs:48-53 | a mask value 104 below minus the cap, as configured by default, vanishes on every frame with a key of every input |
| PageGather.BlockIdsAreTable | examples/page_gather_microbench.rs:326-341 | the generated ids run down from the top of a pool twice as large as the table, so they are distinct and inside it; the padded context covers the context with less than a block to spare |
| PageGather.GatherAAt | examples/page_gather_microbench.rs:375-390 | block-major gather: element (b, h, t, d) comes from block ids[b*nb + t/bs] at offset t % bs |
| PageGather.GatherBAt | examples/page_gather_microbench.rs:392-407 | head-major gather: the same block and offset under the head |
| PageGather.LayoutsAgree | examples/page_gather_microbench.rs:375-407 | pools with equal contents gather the same tensor in both layouts, for every block table |
| PageGather.GatherStored | examples/page_gather_microbench.rs:343-407 | block-major: gathering what was stored block by block at distinct ids gives the contiguous tensor back |
| PageGather.GatherStoredHeadMajor | examples/page_gather_microbench.rs:343-407 | the same round trip through the head-major pool |
| Levenshtein.EntryIsLowerBound | scripts/copy_precision_probe.py:305-326 | no script from one prefix to another is cheaper than the matrix entry |
| Levenshtein.BestScriptIsOptimal | scripts/copy_precision_probe.py:327-343 | the walk's script turns one prefix into the other at exactly the entry's cost, with no void substitution |
| Levenshtein.DistanceIsMinimum | scripts/copy_precision_probe.py:305-343 | the corner is the least cost over all scripts, and some script attains it |
| Levenshtein.WalkIsPreferred | scripts/copy_precision_probe.py:327-343 | against every other script of least cost, where the two first part counting from the end, the walk took the diagonal over a deletion over an insertion |
| Levenshtein.ChosenIsUnique | scripts/copy_precision_probe.py:327-343 | only one script of least cost wins every such tie, so the reported edits are determined |
| Levenshtein.FillRow | scripts/copy_precision_probe.py:321-326 | the inner loop completes one row in place and leaves every other row unchanged |
| Levenshtein.Fill | scripts/copy_precision_probe.py:315-326 | after the loops every cell holds its entry |
| Levenshtein.Walk | scripts/copy_precision_probe.py:327-343 | the backward walk terminates and its reversed edits are those of an optimal script |
| Levenshtein.Levenshtein | scripts/copy_precision_probe.py:305-343 | the result is the minimum over all scripts; the edits are those of the least-cost script that wins every tie, in order, as many as the distance, and replaying them turns target into response |
| Levenshtein.EditsReplay | scripts/copy_precision_probe.py:327-343 | replaying the reported edits of any script, with their indices, rebuilds its target |
| Levenshtein.EditListsAreLong | scripts/copy_precision_probe.py:305-343 | no in-order edit list that turns target into response is shorter than the distance |
| Levenshtein.InverseTransforms | scripts/copy_precision_probe.py:305-343 | every script has an inverse of the same cost |
| Levenshtein.ComposeTransforms | scripts/copy_precision_probe.py:305-343 | two scripts in a row fuse into one that costs no more than both |
| Levenshtein.DistanceIsMetric | scripts/copy_precision_probe.py:305-343 | zero iff equal, symmetric, triangle inequality, for all strings |
| Levenshtein.StripCuts | scripts/copy_precision_probe.py:346-353 | stripping removes white space at both ends and nothing else |
| Levenshtein.ScoreResponse | scripts/copy_precision_probe.py:346-361 | exact iff distance zero iff no edits; the positions are those of a shortest edit list |
| ConfigRuns.StepKeepsInv | src/decode_config.rs:385-518 | every atomic operation of every call keeps the invariant on tuple, mirrors, latches, threads and results |
| ConfigRuns.RunKeepsInv | src/decode_config.rs:385-518 | the invariant holds after every schedule |
| ConfigRuns.EchoesAreAttributable | src/decode_config.rs:385-455 | every echo is the tuple the version-th apply in lock order left, or the default; equal versions are equal tuples; later calls report no smaller version and later applies a larger one |
| ConfigRuns.AppliesAreTheirOwn | src/decode_config.rs:415-455 | in every run each returned apply reports the version its own change made, and no two applies report the same version, however they overlap |
| ConfigRuns.VersionsGrow | src/decode_config.rs:385-455 | the locked version never decreases along a run and results are never retracted |
| ConfigRuns.RunKeepsLock | src/decode_config.rs:415-440 | at most one thread is inside the lock section, and the tuple it will echo is the locked one |
| ConfigRuns.LockIsAwaited | src/decode_config.rs:385-417 | a reader or writer waits while the lock is held, and a reader copies the locked tuple when it is free |
| ConfigRuns.LatchIsWriteOnce | src/decode_config.rs:374-383 | both construction latches are set once, by the first latching step: the file's value from a valid reload, else the default |
| ConfigRuns.ReloadLatches | src/decode_config.rs:487-517 | whatever else runs, a valid reload past its construction keys has the fetch latch at the file's value or one set before, the fp16 latch likewise when the file carries it, and then asks to lock in the file's path and core |
| ConfigRuns.ReportsAgreeWithLatch | src/decode_config.rs:374-403 | every echo and dispatch read of a run reports the one latched value, for both latches |
| ConfigRuns.FailedReloadChangesNothing | src/decode_config.rs:457-487 | a reload with no parsed file, or with a present key that does not parse, can be left out of any run: the run without it ends with the same values, version, mirrors, latches, lock and threads, and every other call returned the same |
| ConfigRuns.OrderedMirrorsAgree | src/decode_config.rs:361-369 | if each mirror is stored in lock order, however the applies overlap, both mirrors equal the locked values whenever none is in flight |
| ConfigRuns.SerialMirrorsAgree | src/decode_config.rs:361-369 | in particular if applies never overlap, because then they store in lock order |
| ConfigRuns.MirrorsHoldSomeVersion | src/decode_config.rs:441-449 | in every run each mirror holds the value of a committed version; they agree with the lock iff those versions' values are the locked ones |
| ConfigRuns.OverlapLeavesStaleMirror | src/decode_config.rs:415-449 | two overlapping applies that store out of lock order end with nothing in flight and gathering disabled although the locked path is auto |
| ConfigSolo.SoloApply | src/decode_config.rs:415-455 | from any reachable state with the lock free, an uninterrupted apply leaves the next version, both mirrors equal to it and both latches set, and echoes exactly that |
| ConfigSolo.SoloReload | src/decode_config.rs:461-518 | likewise an uninterrupted valid reload: the file's path and core at the next version, mirrors in agreement, unset latches at the file's values or the defaults, and an echo that says so |
| ConfigSolo.SoloSnapshot | src/decode_config.rs:385-403 | an uninterrupted snapshot returns the locked tuple with both latched values and changes nothing but unset latches |
| ConfigSolo.SoloRejected | src/decode_config.rs:461-487 | a rejected file fails at once and changes nothing |
| ConfigSolo.SoloReads | src/decode_config.rs:374-376 | a dispatch read latches the default unless something latched before, and returns the latched value |
| DecodeConfig.ValidatedFields | src/decode_config.rs:468-485 | each field of a validated file is the one its word names, or the default when the key is absent |
| ConfigStore.Store.constructor | src/decode_config.rs:345-359 | a new store is at version 0 with the defaults, its mirrors in agreement, its latch unset |
| ConfigStore.Store.GatheredEnabled | src/decode_config.rs:362-364 | gathering is enabled iff the locked path is not v1 |
| ConfigStore.Store.MsaCoreSdpa | src/decode_config.rs:367-369 | the mirror says sdpa iff the locked core is |
| ConfigStore.Store.MsaFetchQmm | src/decode_config.rs:374-376 | the first read freezes the default unless something latched before; nothing else changes |
| ConfigStore.Store.Fp16OrInit | src/lib/mlxcel-core/src/cache.rs:158-172 | the process latch keeps its first value, whoever asks |
| ConfigStore.Store.Snapshot | src/decode_config.rs:385-403 | the echo is the locked tuple with both latched values |
| ConfigStore.Store.Apply | src/decode_config.rs:415-455 | one version bump; absent fields keep their values; mirrors end equal to the new tuple |
| ConfigStore.Store.ReloadFromFile | src/decode_config.rs:461-518 | all or nothing: an invalid file changes nothing, a valid one sets both runtime keys with one bump and only unset latches take its construction values |
| KeepList.Collect | src/bin/cold_store_keeplist.rs:325-341 | the reference sets are exactly the manifests of named and of unnamed sessions |
| KeepList.Classify | src/bin/cold_store_keeplist.rs:320-367 | sorted buckets that partition the manifests with multiplicity, each holding exactly its class; a manifest shared with a named session is kept |
| KeepList.BucketCounts | src/bin/cold_store_keeplist.rs:320-367 | each manifest occurs in the bucket of its class as often as it was enumerated, and nowhere else |
| KeepList.BucketsIgnoreOrder | src/bin/cold_store_keeplist.rs:320-367 | the buckets do not depend on the order of indexes or manifests |
| KeepList.GrowingKeepList | src/bin/cold_store_keeplist.rs:320-367 | naming more sessions keeps everything kept, adds nothing unprotected and leaves the unattributed bucket as it was |
| KeepList.Gather | src/bin/cold_store_keeplist.rs:476-499 | the set grows by exactly the blocks of the readable manifests, and the count by exactly the number of unreadable ones |
| KeepList.DeletionIsSafeAndMaximal | src/bin/cold_store_keeplist.rs:476-503 | deleting unprotected manifests and candidate blocks leaves every named or unattributed manifest with all its blocks, and no larger set of unprotected-reached blocks has that property |
| KeepList.CandidatesShrink | src/bin/cold_store_keeplist.rs:476-503 | naming more sessions never adds a candidate block |
| DirSize.DirBytes | src/bin/cold_store_keeplist.rs:123-143 | the stack walk terminates with the exact recursive sum, or nothing iff some entry is unreadable or irregular or the sum is at least 2^64 |
| DirSize.ListingOrder | src/bin/cold_store_keeplist.rs:123-143 | total and cleanness of a listing are kept when it and every directory below it are listed in any other order |
| DirSize.TraversalOrder | src/bin/cold_store_keeplist.rs:123-143 | the same for a whole tree, reordered at every depth |
| DirSize.PermutedListing | src/bin/cold_store_keeplist.rs:123-143 | any permutation of one listing is such a reordering |
| DirSize.SumBlocks | src/bin/cold_store_keeplist.rs:505-515 | the checked total is the exact sum over all candidate trees, absent iff one is not clean or the sum does not fit; the unsized count is exactly the number of trees without a measure |
| KeepReport.CheckIndexes | src/bin/cold_store_keeplist.rs:422-462 | passes iff every file name is a digest that agrees with its header; otherwise the first bad file decides between incomplete and refused |
| KeepReport.AgreesMeaning | src/bin/cold_store_keeplist.rs:437-456 | an index file agrees iff its stem is 64 hexadecimal digits and the text of the digest in its header |
| KeepReport.Candidates | src/bin/cold_store_keeplist.rs:476-503 | succeeds iff every classified manifest is readable, with the sorted distinct blocks that only unprotected manifests reach |
| KeepReport.RawClasses | src/bin/cold_store_keeplist.rs:422-474 | the classes of a manifest, read off the index files: listed by a file of a session on the keep list, by no file, or by files of other sessions only |
| KeepReport.Run | src/bin/cold_store_keeplist.rs:391-537 | each outcome holds exactly under the stated conditions on what was enumerated and read, and the report's buckets hold exactly the enumerated manifests of each class, as the index files have it |
| KeepReport.Program | src/bin/cold_store_keeplist.rs:615-687 | exits 0, 1, 2 and 3 each hold if and only if the stated conditions on scan, reading, matching and sizing do; a complete scan prints its byte total, and its identities exactly when every named session matched; any other run prints nothing |
| KeepReport.ReportSizes | src/bin/cold_store_keeplist.rs:501-515 | the candidates are exactly the blocks that only manifests of other sessions list; the total is known iff each has a clean directory on disk and the sum fits, and is then that sum |
| KeepReport.ReportIgnoresOrder | src/bin/cold_store_keeplist.rs:391-537 | the whole report is the same for any enumeration order and any listing order at any depth |
| KeepReport.GrowingReport | src/bin/cold_store_keeplist.rs:391-537 | over the same world, naming more sessions keeps what was kept, only shrinks the unprotected and candidate lists, and never makes a known byte total unknown or larger |
| KeepReport.ReportIsSafe | src/bin/cold_store_keeplist.rs:391-537 | a manifest that an index file of a session on the keep list lists, or that no index file lists, is not among the listed manifests and loses no block; and no larger set of blocks of other sessions' manifests has that property |
| Rtn.RoundtripError | scripts/gate_b_idx8_screen.py:135-147 | every element moves by at most half its row's step |
| Rtn.RintHalfEven | scripts/gate_b_idx8_screen.py:141-147 | rounding is to nearest, ties to even |
| Rtn.RoundtripStep | scripts/gate_b_idx8_screen.py:135-147 | a dequantized row has the step of the original, at the 1e-10 floor too |
| Rtn.RoundtripIdempotent | scripts/gate_b_idx8_screen.py:135-147 | quantizing a dequantized row changes nothing |
| Rtn.OneGroupIsRow | scripts/kvarn4_gs_sweep.py:78-99 | one group as long as the row is the per-row form |
| Rtn.GroupedError | scripts/kvarn4_gs_sweep.py:78-99 | each element moves by at most half its group's step, which never exceeds its row's |
| Selection.BlockScorePerturbed | scripts/gate_b_idx8_screen.py:150-161 | quantizing the window moves a block's maximum score by at most half the step times the query's L1 norm times the scale |
| Selection.BlockScoreBounds | scripts/gate_b_idx8_screen.py:150-161 | a block score is at least the scaled inner product of the query with each row of the block |
| Selection.BlockScoreAttained | scripts/gate_b_idx8_screen.py:150-161 | and is equal to one of them |
| Selection.SampleMargin | scripts/probe_margin_vs_perturbation.py:53-56 | the margin is the gap between the k-th and next score of a descending order of all blocks |
| Selection.FirstIsTopK | scripts/gate_b_idx8_screen.py:164-170 | the first k of a descending order are a top-k answer |
| Selection.TopKStable | scripts/gate_b_idx8_screen.py:164-170 | scores that move by less than half the margin keep their top-k set, however the partial sorts break ties |
| Selection.SampleErrorRange | scripts/gate_b_idx8_screen.py:173-179 | error and set-change rate are in [0, 1], never divide by zero, and vanish when no clean block was lost |
| Selection.SampleErrorMeaning | scripts/gate_b_idx8_screen.py:173-179 | the error is the share of clean top-k mass and the rate the share of top-k blocks that were lost: zero exactly when no mass or no block was, one when everything was |
| Selection.SumOverUnion | scripts/gate_b_idx8_screen.py:177-178 | masses of disjoint sets add up |
| Selection.SumOverOne | scripts/gate_b_idx8_screen.py:177-178 | the mass of one block is its own |
| Selection.SelectionIsStable | scripts/gate_b_idx8_screen.py:135-179 | if scale times L1 norm times largest row step is below the clean margin, clean and quantized selections are the same set and both statistics are zero |
| Wav.QuantizeError | src/audio/wav_writer.rs:80-88 | scale, round and clamp stay within one step of the clamped input |
| Wav.RoundHalfAway | src/audio/wav_writer.rs:85-85 | rounding is to nearest, ties away from zero |
| Wav.QuantizeNearest | src/audio/wav_writer.rs:85-86 | the code is the rounded scaled sample where it fits and the nearer end of the range elsewhere |
| Wav.HeaderBytes | src/audio/wav_writer.rs:61-78 | every field of the 44 bytes by offset and byte order, with RIFF size, format chunk, saturating rates and data size |
| Wav.PayloadBytes | src/audio/wav_writer.rs:80-88 | the two bytes of each sample are its code modulo 65536, low byte first |
| Wav.EncodeWavPcm16 | src/audio/wav_writer.rs:46-91 | the appended fields and loop produce the 44-byte header and two bytes per encoded sample, truncated at the RIFF limit |
| Wav.ParseWav | src/audio/feature_extractor.rs:358-476 | the consuming reader returns the specified result after at most 256 skips; an accepted file was read through exactly its header, the skipped chunks and its payload |
| Wav.Decode | src/audio/feature_extractor.rs:442-463 | only 16-bit PCM and 32-bit float are decoded, one sample per whole sample width |
| Wav.SampleValue | src/audio/feature_extractor.rs:443-450 | a PCM sample is its signed little-endian value over 32768 |
| Wav.DecodeFloat | src/audio/feature_extractor.rs:451-456 | each float sample is read from its own four bytes |
| Wav.DownmixIsAverage | src/audio/feature_extractor.rs:465-473 | each mono sample times the channels is the total of its frame's interleaved samples |
| Wav.MeanIsAverage | src/audio/feature_extractor.rs:465-473 | the same for the mean of any frame, as the round trip compares against |
| Wav.ParseOfEncode | src/audio/feature_extractor.rs:358-476 | the reader accepts the writer's output iff there is a channel, a rate and at most 500 MiB of payload |
| Wav.RoundTrip | src/audio/wav_writer.rs:46-91 | writing and reading back gives the rate, one sample per whole frame, each within 1/32768 of the mean of its clamped inputs |
| Wav.ReencodeMono | src/audio/wav_writer.rs:46-91 | any accepted mono PCM16 file with the canonical header is written again to the same bytes |
| Wav.ReencodeWritten | src/audio/wav_writer.rs:46-91 | in particular every mono file the writer produced within the reader's size limit |
| Wav.PayloadOfDecoded | src/audio/wav_writer.rs:80-88 | encoding the decoded samples of any payload of whole samples gives the payload back |
| Wav.ScanAcceptsLayout | src/audio/feature_extractor.rs:388-429 | nonempty non-data chunks within the cap, then data: the scan stops exactly at the data when there are at most 256 chunks and fails otherwise |
| Wav.ScanGivesLayout | src/audio/feature_extractor.rs:388-429 | every successful scan read such a layout |
| Wav.ParseAcceptsLayout | src/audio/feature_extractor.rs:366-475 | a file of that layout is decoded from exactly its data chunk, or rejected for its chunk count, size, truncation or format |
| Wav.ParseGivesLayout | src/audio/feature_extractor.rs:366-475 | every accepted file has that layout, and its length is header, skipped chunks and what follows the data header |
| Wav.FindsDataExactly | src/audio/feature_extractor.rs:388-429 | on every conforming RIFF stream the scan stops at the true data iff the padded chunks, read without regard for pads, are at most 256 whole chunks; the payload never matters |
| Wav.PaddedScan | src/audio/feature_extractor.rs:404-428 | so when all chunks but the last are even: iff there are at most 256 chunks and the last is even |
| Wav.ShortOddIsRejected | src/audio/feature_extractor.rs:404-428 | with an odd last chunk and a payload below 16 MiB the file is rejected rather than misread |
| Wav.OddChunkCanResync | src/audio/feature_extractor.rs:404-428 | a conforming stream with an odd first chunk whose data is still found: evenness is not necessary in general |
| Divergence.FirstDivergence | scripts/greedy_divergence_harness.py:283-300 | the first index where the texts differ, or none iff they are equal |
| Divergence.DivergenceUnique | scripts/greedy_divergence_harness.py:283-300 | only one index answers that description |
| Divergence.VerdictMeaning | scripts/greedy_divergence_harness.py:303-325 | for all four texts, each verdict if and only if: MATCH, both pairs equal; STABLE, both first differ at one index; ACCUMULATING, the long pair earlier; OBSERVED-LONG-ONLY, only the long pair differs and not within the short text; ANOMALOUS, any other way |
| Divergence.ConsistentVerdicts | scripts/greedy_divergence_harness.py:303-325 | for self-consistent servers never ACCUMULATING, and ANOMALOUS iff one short text is a strict prefix of the other and the long texts agree one character further |
| Divergence.DeterministicVerdicts | scripts/greedy_divergence_harness.py:303-325 | if neither short text is a strict prefix of the other, only MATCH, STABLE or OBSERVED-LONG-ONLY |
| Divergence.DeterminismIsNotEnough | scripts/greedy_divergence_harness.py:44-55 | self-consistent texts with an ANOMALOUS verdict |
| Divergence.DiffCell | scripts/greedy_divergence_harness.py:517-575 | HARNESS-FAIL iff an entry is unusable; a side is warned about iff its short text is not a prefix of its long text; every ACCUMULATING cell carries a warning |
| Divergence.AccumulatingIsWarned | scripts/greedy_divergence_harness.py:565-572 | whatever the four texts, an ACCUMULATING cell warns about at least one side |
| Divergence.IndexEntries | scripts/greedy_divergence_harness.py:509-514 | looking up a key and length gives the last such entry |
| Divergence.CountCells | scripts/greedy_divergence_harness.py:599-612 | each count is the number of cells with its verdicts (ANOMALOUS with ACCUMULATING, OBSERVED-LONG-ONLY with STABLE), and they add up to all cells |
| Divergence.DiffCaptures | scripts/greedy_divergence_harness.py:578-624 | rejected iff the captures do not share exactly two lengths; every key of either has its cell, with verdict and warnings of its texts; exit 0 iff all cells are benign, 2 iff some cell failed, else 3 |
| Divergence.SelfCheck | scripts/greedy_divergence_harness.py:666-686 | a capture against itself passes iff it has two lengths and usable entries everywhere |

## Left out

- Floating-point rounding, NaN and infinities, and the `f32` to `i16` cast of non-finite samples: floats are reals.
- 32-bit tensor index arithmetic: shapes and indices are unbounded naturals.
- The linear projections, per-dimension scaling, timing signal and last projection around the attention: their results are inputs or parameters.
- The encoder's layer loop, convolution subsampling, mel features and `src/audio/whisper_mel.rs`: they compute logarithms, cosines and convolutions, of which a model over reals could state bounds but no law that ties them to the attention.
- A soft cap of zero, which the code divides by.
- Attention over zero frames: `Blocks.BlockCountsAgree` shows that the block counts then differ unless the chunk is one frame, so `forward` needs at least one frame.
- Selection.SelectionIsStable: assumes a window that is a whole number of blocks and k below the number of blocks, as the script enforces or as it selects everything otherwise.
- Relaxed memory ordering beyond interleaving: each mirror is one atomic boolean, so its stores and loads are modelled as single steps.
- Lock poisoning, 64-bit wrap-around of the version, log output and the echoed file path of the decode configuration.
- A reader of the configuration holds the lock for one atomic copy in the model; contention between readers is not represented.
- TOML parsing, trimming and lower-casing of values: `norm` is a parameter.
- File system access, the `pgrep` probe, argument parsing, rendered text and pseudonyms of the keep-list report; the block directory is opened by path, so what the path itself is a link to is not distinguished.
- The block store, paged pool and key/value cache internals behind `BlockColdStore` and `KVCache`.
- Percentile and rank-correlation statistics of the selection probes, and the perplexity and timing scripts.
- Sorting is specified by its result; the library sorts and partial sorts themselves are not modelled.
- The HTTP server, model loading, generation, tokenization and the command line.
