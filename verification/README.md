# Verified model of the serving runtime's pools, streams and kernels

Dafny model and proofs of the parts of the runtime whose correctness is exact: index, slot and
state logic. `dafny verify dfyconfig.toml` checks everything.

## What is modelled

* **Expert cold pool** (`ColdPoolModel`, `ColdPoolSafety`, `ColdPoolThrash`, `ColdPoolRouting`,
  `ColdPoolRuns`, `ColdPoolAges`, `ColdPoolLayer`, `ColdPoolShrink`). A layer's expert table is cut down to its
  kept rows plus staging rows; a hook after each forward stages demanded cold experts from a host
  buffer, evicting the least recently staged. `ColdPoolModel` gives each operation as a function
  of the layer's state, `ColdPoolLayer` is the mutable pool and its router tables proved against
  it, `ColdPoolSafety` holds the representation invariant `Safe`, `ColdPoolShrink` builds the first
  safe state, `ColdPoolRuns` states what every forward sees in every reachable state, and
  `ColdPoolAges` which expert an eviction removes, told from the history of the run.
* **PLE streaming state** (`PleLayout`, `PleStream`, `PleRuns`, `PleConv`, `PleHash`, `PleBatches`, and
  `NgramShift`, `NgramHash`, `NgramHeads`). Ragged batches carry a per-slot history forward through
  extend, decode and verify forwards, with track snapshots. `PleStream` is the mutable side state,
  `PleRuns` the streaming equivalence over whole runs, `PleBatches` the two together, `PleConv` and `PleHash` what it means for the
  two consumers: the dilated short convolution and the n-gram ids.
* **QSA indexer** (`QsaPrefill`, `QsaDecode`, `QsaScores`, `BlockExpand`, `CompactSort`,
  `CausalWindow`, `BlockArith`). Kernels are loops over CTAs in any order writing one matrix; each
  is proved equal to its simple reference.
* **Slots and checkpoints** (`SlotLedger`, `MambaSlots`, `MambaRuns`, `Int8Checkpoint`,
  `ScaleTypes`, `RestoreCast`, `CheckpointPool`, `ConvWindow`, `IndexTensors`). Ownership of request and recurrent-state slots,
  the int8 checkpoint store, the deferred clear and copy, and the overlapping conv-window view.
* **Draft vocabulary** (`TokenMap`). Greedy selection and its optimality.

`Finite`, `TopSelection`, `Arith`, `RealSums` and `Wrappers` hold what several components share.

Scores and weights are exact reals, rows are byte strings or an abstract type, 64-bit arithmetic is
written out where it matters.

## Where the code and its own words differ

* `patches/expert_cold_pool.py:303-306` calls the two remap lanes symmetric. They are for ids below
  the table length only: past it the plain lane passes the id through and the packed lane clamps
  (`ColdPoolRouting.LanesAgreeIff`, `ColdPoolRouting.LanesDifferPastTheTable`).
* A layer with an empty keep list gets no bias column, so its router is not masked at all
  (`ColdPoolRouting.EmptyKeepIsNotMasked`; the exact condition is `ColdPoolRouting.AlwaysLiveIff`).
* `runtime-src/kernel.py:211` promises the Triton expansion for rows whose valid blocks precede -1. That is not
  enough: a token past the sequence before a listed one separates the two forms. The exact condition
  is `BlockExpand.TritonEqualsTorchIff`, and the indexer's own rows always meet it.
* An assertion that fails in the middle of the hybrid `alloc` leaves slots correctly owned but device
  rows not yet written; `MambaSlots.HybridPool.Alloc` promises the rows on success and when it refuses at once. An empty
  request list reaches `torch.stack` of nothing and fails.
* `free_mamba_cache` frees what the device table holds for the request, not what the request holds. For a
  request that has no request slot or no buffer they are not its own: the books or the prefix cache lose
  slots unless nothing is freed at all (`MambaSlots.HybridPool.FreeMambaCache`, and the shortest such run
  `MambaRuns.FreeAfterPrefixHit`).
* The int8 store accepts bf16, fp16 and fp32 scales (`runtime-src/mamba_checkpoint_pool.py:73-75`). With fp16,
  small columns lose their scale (`ScaleTypes.Fp16ScaleIsZeroIff`) or drift on the second store
  (`ScaleTypes.Fp16DriftsIff`, with the column of `ScaleTypes.Fp16DriftingColumn`); from 127 / 2^14 up they do
  neither (`ScaleTypes.Fp16NormalColumns`).
* `clear` does not visit request objects, so it restores a consistent pool exactly when no request
  holds anything (`MambaSlots.HybridPool.Clear`).

## Model

| member | source | states |
|---|---|---|
| `ColdPoolSafety.EvictKeepsSafe` | patches/expert_cold_pool.py:667-673 | Evicting an expert masks it first: afterwards no router pick and no remap entry leads to the row, the two owner maps stay inverse, and the row is the only one outside free list and owners. |
| `ColdPoolSafety.PickKeepsSafe` | patches/expert_cold_pool.py:676-684 | A picked row lies in [keep, keep + slots) and the pool stays safe around it; no row is found only when every staging row is protected. |
| `ColdPoolSafety.VictimIsOldest` | patches/expert_cold_pool.py:676-684 | A row is evicted only when none is free, it is not protected, no other unprotected row has an older tick, and every other resident keeps its row; otherwise the first free row is taken and nobody leaves. |
| `ColdPoolSafety.CopyParamsKeepsSafe` | patches/expert_cold_pool.py:649-660 | However far the tensor-by-tensor copy of a host row gets, every expert the router can reach still reads its own original row. |
| `ColdPoolSafety.CopyParamsWrites` | patches/expert_cold_pool.py:649-660 | A completed copy leaves the expert's original row in every tensor an entry names; what an earlier entry wrote stays. |
| `ColdPoolSafety.CopyCompletesIff` | patches/expert_cold_pool.py:649-660 | The copy completes if and only if the module has every named tensor with that row; it writes no other row, and nothing past the first one it cannot take. |
| `ColdPoolSafety.RowFromHostKeepsSafe` | patches/expert_cold_pool.py:644-664 | A successful staging gives a safe pool; a failed one leaves the row unowned and everything else safe. |
| `ColdPoolSafety.ReturnKeepsSafe` | patches/expert_cold_pool.py:245-250 | Returning the row of a failed staging makes free list and owned rows a partition of the staging rows again. |
| `ColdPoolSafety.StageOneKeepsSafe` | patches/expert_cold_pool.py:809-823 | One turn of the staging loop keeps the pool safe, whether it stages, finds the expert resident, fails or runs out of rows. |
| `ColdPoolSafety.HookTickKeepsSafe` | patches/expert_cold_pool.py:763-823 | Any demand list, with any failures, leaves the pool safe: partition, inverse owner maps, matching tables, original contents. |
| `ColdPoolThrash.NoExpertStagedInATickIsEvictedInIt` | patches/expert_cold_pool.py:763-823 | With a demand no longer than the number of staging rows and nothing protected, an expert staged in a tick is still resident, with that tick, when the tick ends. |
| `ColdPoolThrash.DemandResidentIffItFits` | patches/expert_cold_pool.py:763-823 | Distinct non-resident cold experts that all stage successfully are all resident after the tick if and only if there are at least as many staging rows. |
| `ColdPoolRouting.AlwaysLiveIff` | patches/expert_cold_pool.py:161-182 | Over every safe pool and every k > 0: routers that ask for k experts get live ones whatever their logits (closer together than the bias) if and only if the keep list is not empty and at least k experts are live, or every expert is live. |
| `ColdPoolRouting.UnmaskedPick` | patches/expert_cold_pool.py:284-294 | In a pool with an empty keep list any expert at all, live or not, is the first pick of some router. |
| `ColdPoolRouting.EmptyKeepIsNotMasked` | patches/expert_cold_pool.py:161-182 | A concrete pool with one tensor as the shrink leaves it for an empty keep list: safe, yet the router picks a cold expert and reads the uninitialised staging row for it. |
| `ColdPoolRouting.LanesAgreeIff` | patches/expert_cold_pool.py:296-323 | The packed remap equals the plain one with the low 16 bits kept exactly for ids inside the table (or an id that equals the last entry); the low half always survives. |
| `ColdPoolRouting.PaddingPassesThrough` | patches/expert_cold_pool.py:296-323 | Id -1 stays -1 in both remap lanes. |
| `ColdPoolRouting.MaskIsLowestFinite` | patches/expert_cold_pool.py:193-242 | The bias of a masked expert is minus the largest significand at the largest exponent of bf16, fp32 and fp16. |
| `ColdPoolRouting.LivePicksReadOriginals` | runtime-src/topk.py:2326-2340 | Remapped picks of live experts lead to the picked experts' own original rows in every tensor, and distinct picks to distinct rows. |
| `ColdPoolRuns.RunKeepsSafe` | patches/expert_cold_pool.py:737-823 | The pool is safe after any number of hook ticks with any demands and failures. |
| `ColdPoolRuns.EveryForwardReadsOriginals` | runtime-src/topk.py:2121-2130 | In every reachable state, every id a registered router picks from its masked logits is kept or staged, remaps to a row holding exactly that expert's original row in every tensor, and distinct picks go to distinct rows. |
| `ColdPoolRuns.EveryForwardPacksTheSameRows` | runtime-src/topk.py:2326-2340 | In every reachable state the packed lane carries the plain lane's row and keeps the low half, for every expert id. |
| `ColdPoolRuns.ShrunkLayerServesDemandIffItFits` | patches/expert_cold_pool.py:763-823 | At any time after a shrink, a tick with no failures leaves any distinct unstaged cold experts all resident if and only if they fit the staging rows. |
| `ColdPoolAges.HookTickInOrder` | patches/expert_cold_pool.py:763-823 | Staging one demand more is one more staging step from where the loop stopped; its break changes nothing. |
| `ColdPoolAges.EveryRowIsDated` | patches/expert_cold_pool.py:661-684 | In every reachable state each resident's clock entry is the tick in which it came to be resident, found from the states before, and the rows are ordered by first use. |
| `ColdPoolAges.EveryVictimIsOldest` | patches/expert_cold_pool.py:676-684 | In every reachable state an eviction removes the resident staged in the earliest tick among those not protected, the first-used row among several of that tick, only for an expert not resident and with no row free; all others stay where they are. |
| `ColdPoolRuns.RunLayer` | patches/expert_cold_pool.py:737-823 | The mutable layer pool, ticked in place, ends in the state of the modelled run. |
| `ColdPoolLayer.RouterTables.BuildTables` | patches/expert_cold_pool.py:193-208 | Builds the remap table and bias columns of a fresh layer and touches no other layer's. |
| `ColdPoolLayer.RouterTables.Mask` | patches/expert_cold_pool.py:235-242 | Bias of the id to the dtype's least value in every cached column, remap entry to 0; no other id or layer changes. |
| `ColdPoolLayer.RouterTables.Unmask` | patches/expert_cold_pool.py:222-232 | Bias of the id to 0 in every cached column, remap entry to its row; no other id or layer changes. |
| `ColdPoolLayer.LayerPool.StageOne` | patches/expert_cold_pool.py:809-823 | The in-place staging turn has exactly the modelled effect on owners, tables and rows. |
| `ColdPoolLayer.LayerPool.HookTick` | patches/expert_cold_pool.py:763-823 | The in-place hook tick has exactly the modelled effect. |
| `ColdPoolLayer.AfterForwardHook` | patches/expert_cold_pool.py:737-823 | Every layer with a stash takes its own tick, a layer without one keeps its state and clock, and no layer sees another's. |
| `ColdPoolShrink.DistinctParamsComplete` | patches/expert_cold_pool.py:570-582 | Every expert-sharded tensor of the inventory is among the distinct ones, under whatever alias it is met first. |
| `ColdPoolShrink.GateCoversEveryParameter` | patches/expert_cold_pool.py:463-483 | A module that passes the gate has no per-expert parameter that the shrink and the staging would leave behind. |
| `ColdPoolShrink.GateOutcome` | patches/expert_cold_pool.py:463-483 | The gate reports exactly the parameters with one row per expert whose first name is outside the inventory and which are not a swizzled scale bound to the scale itself. |
| `ColdPoolShrink.RowInImage` | patches/expert_cold_pool.py:583-598 | Slice and row arithmetic of the flat buffer: row i of tensor k lies at its own offset, inside the buffer. |
| `ColdPoolShrink.FillBuffer` | patches/expert_cold_pool.py:583-594 | The in-place second pass fills the buffer exactly, with adjacent disjoint slices starting at 0. |
| `ColdPoolShrink.HostRows` | patches/expert_cold_pool.py:595-598 | Every row view of every cold expert reads that expert's original bytes back. |
| `ColdPoolShrink.HostIsComplete` | patches/expert_cold_pool.py:570-598 | The host holds exactly the cold experts, and each one's original row of every distinct tensor. |
| `ColdPoolShrink.MoveRows` | patches/expert_cold_pool.py:570-607 | The shrink round trip: exactly the cold experts are on the host, with their original rows of every tensor, and GPU row i is original row keep[i], for any keep list and any aliasing of names. |
| `ColdPoolShrink.ShrinkLayer` | patches/expert_cold_pool.py:535-616 | Passed over if and only if there is no quantized table of more than one expert with an expert not kept; refused if and only if a parameter would be left behind, with exactly those names; otherwise a safe pool with nothing staged, the module's name bindings and exactly the cold experts on the host. |
| `PleLayout.RequestFound` | runtime-src/qwen4_exp.py:220-227 | searchsorted over the query starts finds a token's request, with empty requests among them. |
| `PleLayout.ScatterExtend` | runtime-src/qwen4_exp.py:210-283 | Ragged packing: padded row r starts with request r's tokens, also when the batch carries padding tokens. |
| `PleLayout.ScatterVerify` | runtime-src/qwen4_exp.py:175-283 | Verify packing: each draft row starts with its valid tokens. |
| `PleStream.SideState.ForwardExtend` | runtime-src/qwen4_exp.py:210-354 | Told from tokens, lengths and state indices: each token's window is the state of its own request's slot followed by the request's tokens up to it, a slot named by one non-empty row ends slid by that row's tokens, a track slot takes the state after min(max(aligned, 0), length) of them, and other slots stay. |
| `PleStream.SideState.ForwardDecode` | runtime-src/qwen4_exp.py:205-354 | The same for a decode forward on the padded path: live rows work on their own slot, one token each. |
| `PleStream.SideState.ForwardDecodeFast` | runtime-src/qwen4_exp.py:230-340 | The decode fast path has exactly the effect and the windows of the padded path. |
| `PleStream.SideState.ForwardVerify` | runtime-src/qwen4_exp.py:308-329 | Told from the draft rows: window and intermediate state of every valid draft token continue the state of the row's slot by the tokens up to it, steps past the valid length hold fill, and no slot changes. |
| `PleStream.SideState.Commit` | runtime-src/qwen4_exp.py:308-354 | The two scatters of the commit, in the code's order, over states gathered from the padded rows. |
| `PleRuns.StepAtSlot` | runtime-src/qwen4_exp.py:342-346 | A live row's slot ends with the last entries of its history followed by its chunk. |
| `PleRuns.StepAtSnapshot` | runtime-src/qwen4_exp.py:348-393 | A track slot ends with the state after the tracked prefix of the chunk. |
| `PleRuns.StepElsewhere` | runtime-src/qwen4_exp.py:331-354 | Slots outside the batch and its track destinations do not change. |
| `PleRuns.RunKeepsStream` | runtime-src/qwen4_exp.py:308-354 | After any run of batches a slot holds the last state_len entries of its initial history followed by its whole stream. |
| `PleRuns.EveryWindowIsOnePassOverTheWholeStream` | runtime-src/qwen4_exp.py:729-743 | Streaming equivalence: whatever the chunking and batching, each token's window is the window of one pass over initial history and whole stream. |
| `PleRuns.SnapshotIsPrefixState` | runtime-src/qwen4_exp.py:357-393 | A snapshot taken anywhere in a run equals the state after exactly the tracked prefix. |
| `PleRuns.ResumeIsUninterrupted` | runtime-src/qwen4_exp.py:357-393 | Restoring a snapshot and feeding the rest, in any batches, gives the uninterrupted state. |
| `PleRuns.ResumedWindowIsUninterrupted` | runtime-src/qwen4_exp.py:357-393 | ... and every window after the restore is the window of the uninterrupted stream. |
| `PleRuns.AcceptIsForward` | runtime-src/qwen4_exp.py:317-329 | Taking, for all rows of a verify batch at once, the intermediate states of the last accepted draft tokens is one more forward over the accepted tokens. |
| `PleRuns.AcceptedWindowIsOnePass` | runtime-src/qwen4_exp.py:729-743 | The window a verify batch computed for an accepted draft token is the one-pass window over the stream with the accepted tokens. |
| `PleConv.AcceptedConvIsOnePass` | runtime-src/qwen4_exp.py:1117-1172 | So is its short-conv output. |
| `PleHash.AcceptedIdsAreOnePass` | runtime-src/qwen4_exp.py:636-743 | So are its n-gram ids. |
| `PleBatches.FeedBatches` | runtime-src/qwen4_exp.py:140-354 | The mutable side state fed any list of extend, decode (either path) and verify batches: every slot no snapshot goes to ends with its history slid by everything the batches' own tokens, lengths, indices and accepted counts feed it, and every window returned for a fed token is that of one pass over that whole stream. |
| `PleRuns.IntermediateIsDecodeSteps` | runtime-src/qwen4_exp.py:317-329 | Verify intermediate t equals the state after t + 1 single-token decode steps. |
| `PleConv.ConvReadsWindow` | runtime-src/qwen4_exp.py:1081-1115 | A dilated causal convolution at a token depends on its window only. |
| `PleConv.ConvIsTapSum` | runtime-src/qwen4_exp.py:1081-1115 | A convolution output is the sum over the taps of weight k times the input k dilations after its column, and nothing else is. |
| `PleConv.LastTapIsTheToken` | runtime-src/qwen4_exp.py:1081-1115 | With a history of (kernel - 1) * dilation the last tap of a token's column is the token itself. |
| `PleConv.EveryConvIsOnePass` | runtime-src/qwen4_exp.py:1064-1172 | In any run every token's short-conv output equals that of one pass over the whole stream. |
| `PleConv.ResumedConvIsUninterrupted` | runtime-src/qwen4_exp.py:1064-1172 | After a restore every short-conv output is that of the uninterrupted stream. |
| `NgramShift.CummaxIsLastEos` | runtime-src/qwen4_exp.py:691-709 | The running maximum over EOS positions is the position of the last EOS so far. |
| `NgramShift.ShiftMeaning` | runtime-src/qwen4_exp.py:691-709 | Position i takes token i - n exactly when i >= n and no EOS lies in [i - n, i - 1]; otherwise EOS. |
| `NgramShift.WindowShiftIsSequenceShift` | runtime-src/qwen4_exp.py:691-709 | The last column of a window shifts as its position does in the whole sequence. |
| `NgramHash.ProductsFitIff` | runtime-src/qwen4_exp.py:547-558 | For every seed, layer, position and token below the vocabulary size, token times multiplier stays below 2^63: if and only if the vocabulary has at most 2^63 ids. |
| `NgramHash.HalfBoundIsLargest` | runtime-src/qwen4_exp.py:549-557 | The bound on multipliers is as large as the products allow: two more and the vocabulary overflows. |
| `NgramHash.SplitMixFolds` | runtime-src/qwen4_exp.py:541-545 | splitmix64 bit by bit: three folds by 30, 27 and 31 places with the two multiplications modulo 2^64 between. |
| `NgramHash.MixAtFits` | runtime-src/qwen4_exp.py:672-683 | The xor mix of those products is a non-negative signed 64-bit integer. |
| `NgramHash.HashIgnoresEarlierSegments` | runtime-src/qwen4_exp.py:672-709 | Tokens before the last EOS never reach the hash. |
| `PleHash.HashContext` | runtime-src/qwen4_exp.py:660-689 | For every order and head the id is the order's mix reduced to the head's size plus its offset, where bit k of the mix is the parity of bit k over the last tokens (EOS past a segment) times their multipliers. |
| `PleHash.BigramAndTrigramIds` | runtime-src/qwen4_exp.py:672-689 | Written out: the ids of every head of orders 2 and 3 from the tokens, multipliers, sizes and offsets. |
| `NgramHash.XorBits` | runtime-src/qwen4_exp.py:679-681 | Bit k of an exclusive or is 1 exactly when the two input bits differ. |
| `NgramHash.XorUndoes` | runtime-src/qwen4_exp.py:679-681 | Mixing a product in twice takes it out again. |
| `PleHash.ResumedIdsAreUninterrupted` | runtime-src/qwen4_exp.py:636-743 | After a restore every n-gram id is that of the uninterrupted stream. |
| `PleHash.EveryIdIsOnePass` | runtime-src/qwen4_exp.py:636-743 | In any run every n-gram id equals the id computed on initial history and whole stream. |
| `NgramHeads.FindNthPrimeAfter` | runtime-src/qwen4_exp.py:560-565 | The loop returns the n-th successor in the sequence of primes. |
| `NgramHeads.HeadSizesAreDistinctPrimes` | runtime-src/qwen4_exp.py:567-579 | Head sizes are primes not below the base and pairwise different over all heads of all PLE layers. |
| `NgramHeads.BuildHeads` | runtime-src/qwen4_exp.py:567-579 | Consecutive primes as sizes, each offset the previous one plus its size from 0, and the total. |
| `NgramHeads.HeadSizesAreConsecutivePrimes` | runtime-src/qwen4_exp.py:567-579 | Head after head and layer after layer the sizes run through the primes from the base without leaving one out. |
| `NgramHeads.IntervalsAreDisjoint` | runtime-src/qwen4_exp.py:513-516 | The intervals the heads are built with follow one another and end inside the padded table. |
| `PleHash.IdsAreInTheirIntervals` | runtime-src/qwen4_exp.py:684-689 | Every computed id lies in the interval of its head. |
| `PleHash.HeadsNeverShareIds` | runtime-src/qwen4_exp.py:684-689 | The ids the hashing computes stay below the padded table size, and two heads never produce the same id, for any tokens. |
| `QsaPrefill.SplitsCoverTiles` | runtime-src/mqa.py:160-175 | Every tile of a block's window belongs to some split. |
| `QsaPrefill.SplitsDisjoint` | runtime-src/mqa.py:160-175 | No tile belongs to two splits; an empty window's tiles to none. |
| `QsaPrefill.CtasWriteDisjointCells` | runtime-src/mqa.py:146-196 | No logits cell is written by two CTAs of the grid. |
| `QsaPrefill.WindowIsCovered` | runtime-src/mqa.py:146-196 | Every column of every row's window is written by a CTA, also for ends past the keys and in tail tiles. |
| `QsaPrefill.RunKernel` | runtime-src/mqa.py:146-196 | CTAs in any order: exactly the covered cells end with their score, all others keep their content. |
| `QsaPrefill.MaskRow` | runtime-src/mqa.py:209-217 | The strided mask loop puts minus infinity outside the window and changes nothing else. |
| `QsaScores.ScoreIsHeadSum` | runtime-src/mqa.py:53-54 | A score is the sum over heads of the larger of zero and the inner product, as a relation that leaves one value. |
| `QsaScores.ScoreLaws` | runtime-src/mqa.py:53-54 | Scores are non-negative and add over heads; a head and its negation have one zero score and differ by the inner product. |
| `QsaScores.DotIsLinear` | runtime-src/mqa.py:53 | The inner product is linear in the head. |
| `QsaScores.DotOfUnit` | runtime-src/mqa.py:53 | A unit head picks out the key's entry. |
| `QsaPrefill.Prefill` | runtime-src/mqa.py:301-354 | The launcher (padding rows, any split, any CTA order, scaling, masking) gives the reference matrix of lines 39-60: inside a row's window the head sum divided by the scale, outside it minus infinity. |
| `QsaDecode.SubPageRow` | runtime-src/mqa.py:253-270 | Row r of sub-page sp of a 64-row group is the paged position the group formula says. |
| `QsaDecode.LoadGroup` | runtime-src/mqa.py:253-280 | After packing, every tile row inside the context holds its key; the page table is never read out of range. |
| `QsaDecode.GridReaches` | runtime-src/mqa.py:376-407 | The launch grid reaches the group of every position of every context. |
| `QsaDecode.RunKernel` | runtime-src/mqa.py:245-298 | CTAs in any order: exactly the positions inside the context get their score, so stale tile rows reach no cell. |
| `QsaDecode.Decode` | runtime-src/mqa.py:357-407 | The launcher with padded heads gives the reference of lines 81-110 for every context length in the page table and every max_model_len: below the context length the head sum against row p % page_size of the page the table names, from there on minus infinity. |
| `CompactSort.SortingCompacts` | runtime-src/kernel.py:118-127 | Gathering by the argsort of the validity key is stable compaction. |
| `BlockExpand.TorchRowIsFilter` | runtime-src/kernel.py:93-127 | For any input, the Torch row is the order-preserving filter of expanded tokens followed by the tail, padded with -1. |
| `CausalWindow.RowListsExactly` | runtime-src/kernel.py:93-127 | For any blocks at all the row lists exactly the tokens of the listed blocks within the budget and those after the last complete block up to the query, inside the sequence. |
| `BlockExpand.TritonExpand` | runtime-src/kernel.py:144-233 | The launch, rows in any order, stores the modelled row of every query. |
| `BlockExpand.TritonEqualsTorchIff` | runtime-src/kernel.py:144-201 | With valid blocks first, both forms agree if and only if no token outside the sequence comes before a listed one. |
| `BlockExpand.WindowHasNoGap` | runtime-src/kernel.py:93-127 | Blocks from the window of complete blocks before the query always meet that condition. |
| `BlockExpand.FormsDifferOnAGap` | runtime-src/kernel.py:204-233 | A block past the sequence before a tail token: the two forms differ. |
| `CausalWindow.FastTopK` | runtime-src/kernel.py:38-53 | Every output row is a top-k of its own window, relative to its start, padded with -1. |
| `CausalWindow.ListedTokensAreCausalAndDistinct` | runtime-src/kernel.py:82-127 | Distinct blocks of the window list distinct tokens, none after the query, all inside the sequence. |
| `CausalWindow.CudaRowIsTorchRow` | runtime-src/kernel.py:144-201 | On rows of the indexer the Triton kernel stores exactly the Torch row. |
| `CausalWindow.ShortContextIsFullyCausalOnCuda` | runtime-src/kernel.py:144-201 | The row the CUDA path stores lists each token 0..position exactly once when all complete blocks fit the budget. |
| `CausalWindow.ShortContextIsFullyCausal` | runtime-src/kernel.py:82-127 | When all complete blocks fit the budget, each token 0..position is listed exactly once and nothing else is. |
| `SlotLedger.TransferKeepsBooks` | runtime-src/memory_pool.py:1392-1440 | One request taking or giving up slots keeps every other request's holdings and the ownership of every slot consistent. |
| `SlotLedger.BufferTaken` | runtime-src/memory_pool.py:1519-1548 | A new buffer, full or one slot and -1, owns exactly its entries. |
| `SlotLedger.EntrySwapped` | runtime-src/memory_pool.py:1550-1583 | Replacing a buffer entry moves the old slot out and the new one in, and nothing else. |
| `SlotLedger.RowsWritten` | runtime-src/memory_pool.py:1433-1439 | Writing a batch's rows brings the device tables up to date for it and leaves all others up to date. |
| `SlotLedger.GenerationTaken` | runtime-src/memory_pool.py:320-324 | The next generation of a slot makes a pair never handed out before. |
| `SlotLedger.SlotsAreConserved` | runtime-src/memory_pool.py:1392-1440 | Free, working, ping-pong and outside slots add up to the pool size. |
| `SlotLedger.NoSlotIsShared` | runtime-src/memory_pool.py:1392-1440 | No slot is reachable through two requests, two buffer entries, or a working slot and an entry. |
| `SlotLedger.FreshRequests` | runtime-src/memory_pool.py:1639-1653 | After everything is declared free, the books balance exactly when no request refers to a slot. |
| `MambaSlots.HybridPool.AllocSlots` | runtime-src/memory_pool.py:293-325 | Refused, not enough, or: the free list loses its tail, the requests without a slot get those slots in order, each under its next generation, a pair never seen since the last clear, and nobody else changes. |
| `MambaSlots.HybridPool.AllocBuffer` | runtime-src/memory_pool.py:1519-1548 | One slot and -1 with both positions 0 (lazy), or all slots with the last position at the other entry (normal), from the front of the free list, or failure without effect. |
| `MambaSlots.HybridPool.Alloc` | runtime-src/memory_pool.py:1392-1440 | Every outcome of the hybrid alloc: what each request ends with, exactly how many slots left the free list, when it fails, and that ownership is consistent even then; on success the device rows repeat the requests' own fields. |
| `MambaSlots.HybridPool.GotStatesMean` | runtime-src/memory_pool.py:1399-1428 | Field by field, what alloc leaves a request with: what it lacked of working slot and buffer from the free slots in that order, everything else as it was. |
| `MambaSlots.HybridPool.SetPingPongSlot` | runtime-src/memory_pool.py:1550-1560 | Buffer entry and device row change together; the old slot leaves the request. |
| `MambaSlots.HybridPool.Donate` | runtime-src/memory_pool.py:1562-1583 | Returns the entry at the last tracked position, now outside, and puts the new slot in its place; -1 is returned in lazy mode only. |
| `MambaSlots.HybridPool.FreeMambaCache` | runtime-src/memory_pool.py:1585-1637 | For any request: a double free is reported, and a keep index outside the buffer. For one with slot and buffer the entry at the keep index ends outside and off the free list, every other entry that is a slot ends free and on it; without a request slot the whole table is freed, or nothing. The pool's books and the prefix cache's holdings both survive if and only if the request has a request slot and a buffer, or nothing is freed. |
| `MambaSlots.HybridPool.TheirsAloneIff` | runtime-src/memory_pool.py:1593-1630 | The entries taken from the table are the request's own under just that condition. |
| `MambaRuns.FreeAfterPrefixHit` | runtime-src/memory_pool.py:1585-1637 | Arrive, prefix hit, free: in every pool with buffers this ends with slot 0 on the free list and the books broken. |
| `SlotLedger.FreeingTheirs` | runtime-src/memory_pool.py:1593-1630 | Freeing table entries in a request's name keeps the books when they are its own or held outside, each once. |
| `SlotLedger.FreeingOthers` | runtime-src/memory_pool.py:1593-1630 | ... and whenever the books balance afterwards, under any ownership, they were. |
| `MambaSlots.HybridPool.FreeSlot` | runtime-src/memory_pool.py:327-330 | The request slot returns to the end of the free list; a second free is reported. |
| `MambaSlots.HybridPool.Clear` | runtime-src/memory_pool.py:1639-1653 | All slots free again, generations and tables zeroed; the books balance exactly when no request held anything. |
| `MambaRuns.Do` | runtime-src/memory_pool.py:1392-1653 | Each step (arrival, prefill, prefix hit, fill, vacate, retrack, donate, free with or without a kept entry, request free, eviction, clear) has exactly its effect on requests, free lists, generations and cache. Freeing with keep k leaves the slot of entry k in the cache and not free, and the other entry's slot free and not in the cache. |
| `MambaRuns.Run` | runtime-src/memory_pool.py:1392-1653 | Over any run the steps have their effects one after the other, free + working + ping-pong + cache-held slots are the whole pool, none in two places, and the (request slot, generation) pairs handed out since the last clear are pairwise different. |
| `MambaRuns.DonationsAreSlots` | runtime-src/memory_pool.py:1566-1583 | In any run in which the scheduler tracks only filled entries and does not vacate the tracked one, every donation hands the cache the tracked slot, never -1. |
| `Int8Checkpoint.ErrorWithinHalfScaleIff` | runtime-src/mamba_checkpoint_pool.py:118-139 | For any positive scale an entry is reconstructed within half a scale if and only if it is at most 127.5 scales from zero. |
| `Int8Checkpoint.ReconstructionErrorIff` | runtime-src/mamba_checkpoint_pool.py:118-139 | For any scale type and any scale but zero, all entries come back within half the stored scale if and only if the largest one is at most 127.5 scales. |
| `Int8Checkpoint.ReconstructionError` | runtime-src/mamba_checkpoint_pool.py:118-139 | For a scale in the range a type stores faithfully, every entry is reconstructed within half its stored scale, and the clamp to 127 never acts. |
| `Int8Checkpoint.RestoredWithinAScale` | runtime-src/mamba_checkpoint_pool.py:138-139 | Rounded to the state's type as well, an entry still comes back less than a scale away. |
| `Int8Checkpoint.ScaleIsFixed` | runtime-src/mamba_checkpoint_pool.py:127-129 | The scale found again from reconstructed values is the stored one, floor of 1e-8 included, for every scale in the faithful range. |
| `Int8Checkpoint.QuantizeIsIdempotentIff` | runtime-src/mamba_checkpoint_pool.py:118-139 | For any column and any scale type at all, quantizing the reconstructed column gives the same levels and scale if and only if the restored largest entry has the stored scale. |
| `Int8Checkpoint.QuantizeIsIdempotent` | runtime-src/mamba_checkpoint_pool.py:118-139 | Which it does for every scale in the faithful range. |
| `Int8Checkpoint.UnroundedScale` | runtime-src/mamba_checkpoint_pool.py:127-135 | With an unrounded scale: the scale is amax / 127 or the floor's, every entry comes back within half of it, and it is found again. |
| `ScaleTypes.FormatIsFaithful` | runtime-src/mamba_checkpoint_pool.py:129 | Rounding to nearest even in any binary format of at least eight significant bits is faithful over the format's normal numbers. |
| `ScaleTypes.Bf16IsFaithful` | runtime-src/mamba_checkpoint_pool.py:129 | bf16, subnormals and finite range included, is faithful from below the floor's scale to its largest value. |
| `ScaleTypes.LargestNumbers` | runtime-src/mamba_checkpoint_pool.py:73-75 | The two formats have the finite range of bf16 and fp32: up to 255 * 2^120 and (2^24 - 1) * 2^104. |
| `ScaleTypes.Fp32IsFaithful` | runtime-src/mamba_checkpoint_pool.py:129 | So is fp32. |
| `ScaleTypes.Fp16NormalColumns` | runtime-src/mamba_checkpoint_pool.py:118-139 | fp16 columns whose largest entry is at least 127 / 2^14 come back within half a scale and do not drift. |
| `ScaleTypes.Fp16ScaleIsZeroIff` | runtime-src/mamba_checkpoint_pool.py:128-129 | An fp16 scale is stored as zero if and only if the largest entry is at most 127 / 2^25. |
| `ScaleTypes.Fp16DriftsIff` | runtime-src/mamba_checkpoint_pool.py:118-139 | For every fp16 column: a second store and restore changes nothing, in the checkpoint or in the restored values, if and only if the restored largest entry is within 63 smallest spacings of 127 scales. |
| `ScaleTypes.Fp16DriftingColumn` | runtime-src/mamba_checkpoint_pool.py:118-139 | A column whose scale is not zero and which drifts: 445, then 444, then 381 spacings. |
| `Int8Checkpoint.CheckpointsDoNotDrift` | runtime-src/mamba_checkpoint_pool.py:118-139 | Any number of store-and-restore cycles gives what one gives. |
| `CheckpointPool.SavedPool.StoreFromActive` | runtime-src/mamba_checkpoint_pool.py:275-289 | Quantized temporal state, conv rows and mirrored rows of the listed slots, and no other slot. |
| `CheckpointPool.SavedPool.LoadToActive` | runtime-src/mamba_checkpoint_pool.py:291-305 | The listed active slots take the reconstructed checkpoint; no other slot changes. |
| `CheckpointPool.ActivePool.ClearSlots` | runtime-src/memory_pool.py:937-967 | The listed slots are cleared in siblings, conv and temporal state; no other slot changes. |
| `CheckpointPool.ActivePool.CopyFrom` | runtime-src/memory_pool.py:969-1018 | The listed destinations take their sources as they were before the call, overlaps included. |
| `CheckpointPool.SavedIsLastStore` | runtime-src/mamba_checkpoint_pool.py:275-305 | After any run a checkpoint slot holds what its last store put there. |
| `CheckpointPool.RestoreGivesLastStore` | runtime-src/mamba_checkpoint_pool.py:291-305 | Restoring after any run gives the last stored conv and n-gram rows exactly, the reconstructed temporal state, and leaves other active slots alone. |
| `Int8Checkpoint.StoreOfRestoreIff` | runtime-src/mamba_checkpoint_pool.py:118-139 | With restored values rounded to the state's type, all levels are found again, and the checkpoint is the same if and only if the scale is. |
| `RestoreCast.Bf16StoreOfRestoreIff` | runtime-src/mamba_checkpoint_pool.py:118-139 | In bf16 it is if and only if the scale's significand is not 192 of 128 to 255; else it moves to 191. |
| `RestoreCast.Bf16StatesDoNotDrift` | runtime-src/mamba_checkpoint_pool.py:118-139 | Columns of bf16 values never have such a scale: stored again after a restore they give the same checkpoint and the same state. |
| `RestoreCast.RestoredAreValues` | runtime-src/mamba_checkpoint_pool.py:138-139 | What a restore leaves are bf16 values. |
| `RestoreCast.DriftsAtMostOnce` | runtime-src/mamba_checkpoint_pool.py:118-139 | Whatever a column holds, further bf16 store-and-restore cycles change nothing after the second. |
| `CheckpointPool.StoreOfRestoreIsStoredIff` | runtime-src/mamba_checkpoint_pool.py:275-305 | Storing a restored slot again gives the same checkpoint if and only if every column's scale is found again. |
| `CheckpointPool.Bf16StoreOfRestoreIsStored` | runtime-src/mamba_checkpoint_pool.py:275-305 | For bf16 states it always does. |
| `CheckpointPool.DeferredStep` | runtime-src/model_runner.py:1637-1683 | The step clears, then copies, then empties the batch fields; outside its mode it changes nothing, fields included. |
| `CheckpointPool.CopyWinsOverClear` | runtime-src/model_runner.py:1655-1683 | A slot both cleared and copied into ends with the checkpoint; one only cleared ends zero. |
| `CheckpointPool.CopyKeepsSourceIff` | runtime-src/model_runner.py:1664-1680 | Without checkpoints a copy gives its pre-step source if and only if the source is not among the cleared slots or was zero already. |
| `ConvWindow.DetectAxis` | runtime-src/memory_pool.py:409-435 | One axis of the window length shared by all shapes, or the first shape that has none or another one, all earlier ones agreeing. |
| `ConvWindow.ViewIsPhysical` | runtime-src/memory_pool.py:437-475 | A view cell and the physical cell shifted by its draft step have the same address, inside the buffer. |
| `ConvWindow.AliasIff` | runtime-src/memory_pool.py:437-475 | View cells share an element if and only if layer, slot, other index and step plus offset agree. |
| `ConvWindow.EveryElementIsInAWindow` | runtime-src/memory_pool.py:449-459 | The physical length drafts + window - 1 has no unused element. |
| `ConvWindow.Windows.StoreWindows` | runtime-src/memory_pool.py:437-475 | Windows of one sliding sequence stored cell by cell in any order all read back, and other elements stay. |
| `TokenMap.SelectIds` | scripts/build_token_map.py:10-29 | Each error under exactly its own condition; otherwise exactly size sorted distinct ids, greedy over the mandatory ones. |
| `TokenMap.BaseIsSmallest` | scripts/build_token_map.py:17 | The base ids are the base_count smallest valid ones. |
| `TokenMap.GreedyIsOptimal` | scripts/build_token_map.py:20-28 | By exchange: no set of the same size with the mandatory ids has a larger corpus count. |
| `TokenMap.SelectedIsOptimal` | scripts/build_token_map.py:10-29 | The returned list contains the mandatory ids, is within the valid ones, and its corpus count is the largest possible. |
| `TokenMap.SelectedIsUnique` | scripts/build_token_map.py:10-29 | The selection is deterministic: what is promised fixes the list. |

## Left out

- Demotion of kept experts (`_phase_b`): off by default, and `_mask` sets a demoted id's remap entry to 0 so that the code no longer recognises it as demoted; the pool invariant is not claimed for it.
- Demand scoring (`stash_demand`, moving averages, hit bands): a tick's demand is an arbitrary list of cold ids. How often the hook runs and its counters are not modelled.
- Managed-router registration: the theorems speak of routers whose logits were masked; a router the pool does not know sees the full id range.
- Capture-time fallbacks, the bias column built late for another dtype, pinned memory and non-blocking copies, RSS trimming.
- A failed staging is a set of parameter names missing or mismatched for that attempt; which hardware error caused it is not modelled.
- ColdPoolRouting.PicksAreLiveIffEnough: logits are exact reals whose spread is below the bias; rounding of the sum in a half-precision router is not modelled.
- torch.topk, torch.argsort and sympy.nextprime appear as relations or as one way of meeting them; ties are left open where the library leaves them open.
- Floating-point rounding and the softmax. Int8 quantization is over exact reals, with explicit rounding of the scale and of restored values to the state's type; that amax, the quotients and the products are themselves computed in fp32 is not modelled.
- RestoreCast.Bf16StatesDoNotDrift: about columns of which 127 scales are finite in bf16, as all but the largest hundredth of its range are; infinities and NaN are not modelled. The rounding of restored values is analysed for bf16; for the other types only the general condition is given.
- A zero fp16 scale: the code divides by zero, and which int8 levels result is not modelled; all of them are restored as zero.
- The fused Triton, TileLang and vendor kernels are assumed to do what their visible fallbacks do; out-of-range tile reads and writes are dropped.
- 32-bit overflow of block * ratio in the block expansion, and of window arithmetic for row starts far below zero in the prefill.
- PleStream.SideState.Accept: the copy of the accepted intermediate states into the slots is done by code that is not part of this model; it is represented as those assignments.
- MambaSlotAllocator, ShortConvPool and NGramPool are not part of this model; they appear only by the contract of distinct non-zero slots and of row reads, writes and resets.
- Request objects are entries of a map keyed by request: two names for one request object are not modelled, and a batch lists a request once.
- MambaSlots.HybridPool.FreeMambaCache: a request without a request slot indexes the table with None; what the allocator does with the resulting batch of rows is not visible, and it is modelled as freeing their entries.
- MambaSlots.HybridPool.SetPingPongSlot: an index outside the buffer, which raises in the code, is excluded.
- CheckpointPool.DeferredStep: the ReplaySSM ring cursors that copy_from resets are not modelled, and destinations of one copy are distinct slots.
- Tensors of the two pools are sequences reassigned by their owner; views into them held elsewhere are not modelled.
- TokenMap.SelectIds: corpus counts are non-negative; the surrounding file handling and tokenizer are not modelled.
- Padded positions past a row's length hold EOS in the n-gram history and raw inputs in the short convolution; here they hold whatever was scattered there, and no window or state reads them.
- Sealing and skipping of PLE side files, expert tiers, distributed set-up and the other attention backends.
