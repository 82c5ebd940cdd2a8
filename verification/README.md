# Verified model of the sglang-rs paged KV-cache stack

This project models, in Dafny 4.11, the parts of sglang-rs that decide where keys and values live, which kernels touch
them, which token is sampled and how work reaches the worker thread. It proves what those parts are for:

* **Paged cache management.** The page allocator, the token radix cache and the per-worker block prefix index are
  classes over a deque, a set or an owned tree. Each is proved equal to a function of its old value, and that function
  is proved to implement a simple object: an ownership map, a log of inserts, a worker/path relation. On top, the
  scheduler's requests run as a machine (admission through the cache, chunks published as they complete, decoding,
  replays, failures, aborts, flushes): in every run, an allocated slot is one that nobody refers to.
* **Layout, storage and copy kernels.** Every layout a constructor accepts tiles its buffer exactly; the byte cache is a
  map from (layer, slot) to a key and a value; scatter and gather have one outcome under every thread order, and the
  plan built from a layout scatters whole rows of that layout. On top, cached decoding of any interleaving of requests
  equals recomputation from each request's own tokens, also when requests reuse rows that others computed and when a
  batch is flattened and validated by totals only; what is recomputed is spelled out by a decoder that records its
  arguments.
* **Fast kernels against CPU references.** Online softmax against two passes, the absorbed latent-attention pipeline
  against the expanding CPU pass, the fused delta rule on a transposed pool against three in-place passes, segment
  convolutions against one concatenated step, packed int4 products against dequantize-then-linear. What both sides
  share is pinned down by itself: which query heads share a KV head, what a rotary position does to a vector, what a
  step of the delta rule does to what is read from a state.
* **Sampler and execution protocol.** Filtering is a prefix of the stable order and the draw is an inverse CDF of the
  softmax distribution; the sampled token is characterized over logits and settings without any sorting. The two-channel
  protocol is safe in every interleaving, also when the worker stops.

`f32` and `bf16` are `real` and rounding is the identity. `exp` is a parameter of which only positivity and
`e(x + y) == e(x) * e(y)` are used, and for the order of candidates that it increases; square root, cosine and sine are
parameters without any assumption, except that `Rotary` uses the addition laws. A kernel launch runs its threads one after the other in an arbitrary order
(`var t :| t in pending`), phase by phase between barriers. `usize` arithmetic is over naturals with every checked
operation compared with the 64-bit maximum; where kernels compute in 32 bits, so does the model. Each layer's
projections, norms and feed-forward are arbitrary functions.

`dafny verify dfyconfig.toml` checks the whole project. `Basics`, `Strides`, `Sums`, `Softmax`, `CpuShapes` and
`KernelLaunch` hold shared vocabulary. `RowOrigin` records which token path each row of the store belongs to;
`SharedDecode`, `WorkerBatch`, `PutBack` and `ReplayRetry` build on it, and `DecoderProbe` holds decoders that tell rows
of different origin apart. `DecoderMeaning`, `Rotary` and `SamplerMeaning` say what `CachedDecode`, `AbsorbedMla` and
`Sampler` compute. Every other file follows one component.

Some properties one might expect do not hold. Each is stated with an input that breaks it and the exact condition under
which it holds.

* Pages, unlike slots, are shared: after a chunk is published, the request's next slot lies in a page with a cached slot
  iff the published length is no multiple of the page size (`SharesCachedPageIff`, `FivePromptSharesPage`). A prefill
  writes a cached slot iff the whole prompt was matched and its last token is replayed (`PrefillWritesCachedIff`); it
  writes the row that is there already (`ReplayedToken`).
* `flush_cache` looks only at the queues. It is safe iff no forward pass under way holds slots (`FlushSafeIff`);
  otherwise, and only then, some allocation returns a slot that a request refers to (`FlushSharesIff`), and it can end
  up in the cache as well (`FlushDuringForwardShares`).
* Decode requests prepared before a later one turns out to have failed are dropped with their pages, which stay
  allocated and belong to no request until a flush (`LostPagesLeak`).
* The pass prepared for a fully matched prompt is accepted iff it is the replay of the prompt's last slot
  (`ReplayAcceptedIff`). A replay that was prepared and taken back is given a slot past its prompt next time, and then
  every decoder rejects it (`RetryTakesSlot`); `RetriedReplayFails` gives the run for every prompt of whole pages.
* A request whose batch came back with the wrong number of outputs goes to the decode queue, even in the middle of its
  prompt; so does a request of a failed batch that the worker refuses to finish. Its next pass reads the last prompt
  token as token 0. Over whole runs, a pass that succeeds returns the logits of the request's own tokens, for all
  decoders and all stores, iff the request is not in `early` (`OwnForAllIff`): the set of those that, when last put
  back without output, did not have exactly the rows before their last prompt token, or whose last prompt token is not
  0. `PutBackAfterPass` reads that off the pass just made, `PutBackIff` covers every prompt on an empty server, and a
  request that has gone astray stays so in all later passes (`EarlyPersists`). No other request and no cached row is
  affected (`SharedDecodingIsRecomputation`).
* A worker listed at a child of the block prefix index need not be listed at its parent; a removal keeps this iff the
  worker held, below the first block, only prefixes of the removed chain (`RemoveKeepsClosedIff`).
* A blocked `recv` is stuck forever iff `in_flight()` is 0 (`RecvStuckIff`, `RecvAfterSpawnIsStuck`, `RecvReturns`).
* The kernels count the components a thread takes in 32 bits. All threads of a block come to an end iff the number of
  components plus the block size is at most 2^32 (`StrideEndsIff`); the launchers do not check that
  (`EndlessShape`, `EndlessPlan`). The methods that run such loops require it.
* The int4 kernel also computes its word and scale indices in 32 bits. They wrap nowhere iff `rows * columns / 8` and
  `rows * columns / group_size` are at most 2^32 (`NoWrapIff`, `WrappingShape`); `KernelFitsIff` joins both conditions.
  The latent-attention kernels compute weight offsets and three head strides that way (`AbsorbedMla.KernelFitsIff`);
  where `nope + value` wraps to 0, every head reads the weights of head 0 (`HeadZeroOnly`, `WrappingHeads`).
* Greedy sampling returns the last of several maximal logits, whereas the candidate order puts the first one in front.
  They name the same token iff the maximum is unique (`GreedyIsFrontIff`, `EqualLogits`).

## Model

| member | source | states |
|---|---|---|
| PageAllocator.CachePageAllocator.WithPageSize | crates/sglang-srt/src/cache.rs:353-376 | accepted iff page size and capacity are positive and aligned, with the exact error otherwise; a new allocator holds every page free, in order, and is a valid partition |
| PageAllocator.CachePageAllocator.AllocateForSequence | crates/sglang-srt/src/cache.rs:397-447 | returns exactly the specified slots or error and leaves exactly the specified pool; a failure changes nothing |
| PageAllocator.CachePageAllocator.TakePages | crates/sglang-srt/src/cache.rs:434-445 | the page loop lists the first slots of the pages popped from the front of the free list and marks those pages |
| PageAllocator.CachePageAllocator.Release | crates/sglang-srt/src/cache.rs:449-467 | the released pages return to the front of the free list in the order of their first slots |
| PageAllocator.CachePageAllocator.Reset | crates/sglang-srt/src/cache.rs:469-473 | the pool is as new |
| PageAllocator.AllocateExact | crates/sglang-srt/src/cache.rs:397-447 | succeeds iff the request fits the tail remainder plus the free slots, and then returns n distinct in-range slots; the error names request and availability |
| PageAllocator.AllocatedPlaced | crates/sglang-srt/src/cache.rs:406-446 | every returned slot continues the sequence's own last page or lies, in order, in the pages at the front of the free list |
| PageAllocator.AfterAllocateValid | crates/sglang-srt/src/cache.rs:341-347 | free and allocated pages still partition the pool without duplicates |
| PageAllocator.AfterReleaseValid | crates/sglang-srt/src/cache.rs:449-467 | whatever slots are released, the partition is kept |
| PageAllocator.ReleaseUndoesAllocate | crates/sglang-srt/src/cache.rs:397-467 | releasing what an allocation returned restores the free list in order and the allocated set |
| PageOwnership.GrownSequence | crates/sglang-srt/src/cache.rs:406-447 | a sequence grown through the allocator is backed page by page, its new pages being those just taken |
| PageOwnership.StepInv | crates/sglang-srt/src/cache.rs:397-467 | growing or finishing any sequence keeps exclusive page ownership |
| PageOwnership.RunInv | crates/sglang-srt/src/cache.rs:353-473 | the ownership invariant holds after every run |
| PageOwnership.OwnershipOverRuns | crates/sglang-srt/src/cache.rs:353-473 | after any interleaving the pool is a partition, each allocated page belongs to one live sequence, and live sequences share no slot |
| RadixCache.RadixCache.Clear | crates/sglang-srt/src/cache.rs:481-483 | the tree is empty afterwards |
| RadixCache.RadixCache.Insert | crates/sglang-srt/src/cache.rs:485-504 | a length mismatch is rejected and changes nothing; otherwise exactly the non-empty prefixes of the sequence have the slots given for them, every other path is as before |
| RadixCache.RadixCache.MatchPrefix | crates/sglang-srt/src/cache.rs:506-530 | the walk returns the specified match |
| RadixCache.RadixCache.MatchPrefixPageAligned | crates/sglang-srt/src/cache.rs:532-541 | the match cut down to whole pages |
| RadixCache.InsertPageAt | crates/sglang-srt/src/cache.rs:485-504 | an insert sets the slot of every prefix of its own path and of no other path |
| RadixCache.TreeIsLog | crates/sglang-srt/src/cache.rs:481-504 | after any run, the slot of a path is the one placed by the most recent insert beginning with that path since the last clear |
| RadixCache.MatchIsLog | crates/sglang-srt/src/cache.rs:506-530 | the match is the longest query prefix that begins some logged sequence, and its i-th slot is that of the latest insert sharing the first i+1 tokens |
| RadixCache.AlignedMatchIsPrefix | crates/sglang-srt/src/cache.rs:532-541 | the aligned match returns a prefix of the plain match's slots |
| RadixCache.AlignedMatchIsLongest | crates/sglang-srt/src/cache.rs:532-541 | it is the longest match of whole pages, and what it leaves over is the rest of the query |
| PrefixReuse.GrowthKeepsAlignmentIff | crates/sglang-srt/src/cache.rs:406-447 | growing an aligned list keeps slot i congruent to i modulo the page size iff its last, partly filled page is allocated |
| PrefixReuse.MatchAligned | crates/sglang-srt/src/cache.rs:506-541 | if all inserts are aligned then so is every page-aligned match, and its length is a multiple of the page size |
| PrefixReuse.AlignedMatchTakesFreePages | crates/sglang-srt/src/cache.rs:406-446 | allocating after an aligned match reuses no tail slot, so every new slot lies in a page just taken from the free list |
| Serving.ServeSafe | crates/sglang-srt/src/scheduler.rs:533-1300 | every scheduler event, dropped decode requests included, with flushes between forward passes, keeps the invariant: pages past a request's match are its own, a cached slot in them is one it published, cached slots stand at their position modulo the page size |
| Serving.ServeAllSafe | crates/sglang-srt/src/scheduler.rs:533-1300 | so the invariant holds after every run |
| Serving.AllocatedSlotsAreUnshared | crates/sglang-srt/src/scheduler.rs:665-785 | after every run, whatever a request is allocated next, for a chunk after its match or for a decode step, is a slot that neither the cache nor any request refers to |
| Serving.AllocatedUnreferenced | crates/sglang-srt/src/scheduler.rs:773-788 | the same of one allocation in any state that meets the invariant |
| Serving.ListsAreDistinct | crates/sglang-srt/src/scheduler.rs:625-788 | no request lists a slot twice |
| Serving.ServePositioned | crates/sglang-srt/src/scheduler.rs:533-1300 | every event keeps a slot at one position, wherever it is listed or cached |
| Serving.PrefillWritesCachedIff | crates/sglang-srt/src/scheduler.rs:648-697 | a prefill writes a slot the cache holds iff its prompt was matched completely and is replayed |
| Serving.ChunkIsHeld | crates/sglang-srt/src/scheduler.rs:1181-1190 | after a completed chunk the cache holds every slot of the request at its own tokens |
| Serving.SharesCachedPageIff | crates/sglang-srt/src/scheduler.rs:1181-1190 | the next slot then shares a page with a cached slot iff the published length is no multiple of the page size |
| Serving.FivePromptSharesPage | crates/sglang-srt/src/scheduler.rs:773-788 | five tokens on pages of four: the first decode slot 5 lies beside the cached slot 4 |
| Serving.FlushSafeIff | crates/sglang-srt/src/scheduler.rs:533-545 | a flush that passes the queue check keeps the invariant iff no live request holds slots |
| Serving.FlushSharesIff | crates/sglang-srt/src/scheduler.rs:533-545 | after such a flush some allocation for an arriving request returns a slot a request refers to iff a request holds slots |
| Serving.FlushDuringForwardShares | crates/sglang-srt/src/scheduler.rs:533-545 | a flush during a forward pass after which slot 0 is cached and allocated again |
| Serving.LostPagesLeak | crates/sglang-srt/src/scheduler.rs:840-897 | a decode request that was prepared before a later one turned out to have failed is dropped; its pages stay allocated and no request owns them |
| BlockPrefixIndex.KvBlockPrefixIndex.Insert | crates/sglang-srt/src/cache.rs:179-185 | the worker is added at exactly the non-empty prefixes of the chain, no other path changes, and the tree stays pruned |
| BlockPrefixIndex.KvBlockPrefixIndex.Remove | crates/sglang-srt/src/cache.rs:187-189 | the worker is dropped at exactly the non-empty prefixes of the chain, whatever is pruned on the way back, and the tree stays pruned |
| BlockPrefixIndex.KvBlockPrefixIndex.ClearWorker | crates/sglang-srt/src/cache.rs:191-193 | the worker is dropped at every path and nothing else changes; the tree stays pruned |
| BlockPrefixIndex.KvBlockPrefixIndex.MatchPrefix | crates/sglang-srt/src/cache.rs:195-213 | on every index the class builds: the longest prefix held by some worker, itself or through an extension, and the workers listed at exactly that prefix |
| BlockPrefixIndex.InsertWorkers | crates/sglang-srt/src/cache.rs:179-185 | inserting adds the worker at exactly the non-empty prefixes of the chain |
| BlockPrefixIndex.RemoveWorkers | crates/sglang-srt/src/cache.rs:306-323 | removing drops the worker at exactly the non-empty prefixes of the chain, and pruning drops nothing else |
| BlockPrefixIndex.ClearWorkers | crates/sglang-srt/src/cache.rs:325-332 | clearing drops the worker at every path and nothing else |
| BlockPrefixIndex.TreeIsLog | crates/sglang-srt/src/cache.rs:178-193 | after any run the tree denotes the relation updated prefix by prefix |
| BlockPrefixIndex.RunPruned | crates/sglang-srt/src/cache.rs:306-332 | after any run every non-root node carries a worker or leads to one |
| BlockPrefixIndex.WorkerBelow | crates/sglang-srt/src/cache.rs:306-332 | below every kept node there is a worker |
| BlockPrefixIndex.Canonical | crates/sglang-srt/src/cache.rs:306-340 | pruned trees that denote the same relation are equal |
| BlockPrefixIndex.SameRelationSameTree | crates/sglang-srt/src/cache.rs:178-193 | two runs that leave the same relation leave the same tree |
| BlockPrefixIndex.LiveIffFound | crates/sglang-srt/src/cache.rs:195-213 | a path is found exactly when some worker holds it or an extension of it |
| BlockPrefixIndex.RemoveShorterChainBreaksClosure | crates/sglang-srt/src/cache.rs:315-320 | a run after which a worker is listed at a child but not at its parent |
| BlockPrefixIndex.InsertKeepsClosed | crates/sglang-srt/src/cache.rs:179-185 | inserting keeps every worker listed at all non-empty prefixes of its paths |
| BlockPrefixIndex.ClearKeepsClosed | crates/sglang-srt/src/cache.rs:325-332 | so does clearing a worker |
| BlockPrefixIndex.RemoveKeepsClosedIff | crates/sglang-srt/src/cache.rs:306-323 | removing keeps that property iff the worker held, below the first block, only prefixes of the removed chain |
| KvLayout.AcceptedNested | crates/sglang-srt/src/kv_cache.rs:448-586 | an accepted layout has exactly nested page, layer, tensor and token sizes |
| KvLayout.RangeExact | crates/sglang-srt/src/kv_cache.rs:653-700 | the byte range of every in-range coordinate is reported without overflow and lies inside the buffer |
| KvLayout.RangeErrors | crates/sglang-srt/src/kv_cache.rs:653-700 | an out-of-range coordinate is reported by its first index that is too large, with its bound |
| KvLayout.UnevenReported | crates/sglang-srt/src/kv_cache.rs:448-586 | sizes that do not divide evenly are reported with what was to be divided and by how much |
| KvLayout.MismatchReported | crates/sglang-srt/src/kv_cache.rs:448-586 | a wrong page size, and a tensor pair that does not add up, are reported with both sizes |
| KvLayout.GeometryErrors | crates/sglang-srt/src/kv_cache.rs:615-777 | tensor sizes and copy geometries name the index that is too large, or the two unequal rows |
| KvLayout.RangesCover | crates/sglang-srt/src/kv_cache.rs:653-700 | every byte of the buffer lies in some coordinate's range |
| KvLayout.RangesDisjoint | crates/sglang-srt/src/kv_cache.rs:653-700 | ranges of different coordinates do not meet |
| KvLayout.LayoutTilesPool | crates/sglang-srt/src/kv_cache.rs:448-720 | every byte of an accepted layout belongs to exactly one (page, layer, tensor, token) |
| KvLayout.SlotRanges | crates/sglang-srt/src/kv_cache.rs:702-720 | a slot's range is that of its page and token, and out-of-range slots are errors |
| KvLayout.CopyGeometryAddresses | crates/sglang-srt/src/kv_cache.rs:738-777 | the copy geometry's device address formula equals the slot's byte range, for keys and values |
| ModelGeometry.TokenSizeExact | crates/sglang-srt/src/kv_cache.rs:145-199 | the token size is the exact product; without one, the error is the missing byte width or the overflow, whichever is met first |
| ModelGeometry.TensorPairBuilt | crates/sglang-srt/src/kv_cache.rs:105-132 | an accepted tensor pair has positive widths, so its layout meets the assumptions of the layout theorem |
| ModelGeometry.MultiTensorBuilt | crates/sglang-srt/src/kv_cache.rs:89-103 | a multi-tensor layout with non-zero sizes meets the same assumptions |
| ModelGeometry.PackedMlaBuilt | crates/sglang-srt/src/kv_cache.rs:201-224 | an accepted packed MLA layout has the width nope + 2 rope + nope / 64 + 1 and meets the assumptions of the layout theorem |
| ModelGeometry.TensorPairIff | crates/sglang-srt/src/kv_cache.rs:105-132 | a tensor pair is accepted iff both widths are positive and fit a word; overflow is reported before an empty tensor |
| ModelGeometry.PackedMlaIff | crates/sglang-srt/src/kv_cache.rs:201-224 | packed MLA is accepted iff the unrotated part comes in blocks of 64 and the row fits a word |
| ModelGeometry.PairRowBytes | crates/sglang-srt/src/kv_cache.rs:105-132 | a layout built for a tensor pair keeps key rows of keyHeads * keyDim and value rows of valueHeads * valueDim elements, of 2, 4 or 1 bytes by dtype |
| ModelGeometry.UniformRowBytes | crates/sglang-srt/src/kv_cache.rs:89-103 | one built for several tensors keeps rows of heads * dim elements in each |
| ModelGeometry.PackedRowBytes | crates/sglang-srt/src/kv_cache.rs:201-224 | one built for packed MLA keeps one row of nope + 2 rope + nope / 64 + 1 bytes |
| ModelGeometry.LayoutForModelIff | crates/sglang-srt/src/backend_model.rs:350-387 | for a non-zero model and page-aligned capacity, construction fails only on overflow or a dtype without a byte width, and the slot count equals the capacity |
| ModelGeometry.AllocatedSlotsAddressBytes | crates/sglang-srt/src/backend_model.rs:350-387 | every slot the allocator hands out for that capacity addresses valid bytes in every layer and tensor |
| KvStorage.CpuReferenceKvCache.Create | crates/sglang-srt/src/cpu_reference.rs:766-798 | accepted iff the layout stores f32 in at least two tensors of whole words; the cache then starts valid with the layout's widths |
| KvStorage.CpuReferenceKvCache.Write | crates/sglang-srt/src/cpu_reference.rs:800-832 | writing changes exactly the entry of (layer, slot), or nothing on an error |
| KvStorage.CpuReferenceKvCache.Gather | crates/sglang-srt/src/cpu_reference.rs:834-865 | gathering returns the concatenated keys and values of the listed slots |
| KvStorage.RangesApart | crates/sglang-srt/src/cpu_reference.rs:800-832 | different entries occupy disjoint bytes |
| CachedDecode.RunLayer | crates/sglang-srt/src/cpu_reference.rs:259-319 | a layer on the byte cache writes the token's row, gathers, attends, adds the residual, feeds forward and adds again, as specified on the store, errors included |
| CachedDecode.RunToken | crates/sglang-srt/src/cpu_reference.rs:125-188 | a token step on the byte cache is the specified step on the store, with the source's checks in order |
| CachedDecode.RunChunk | crates/sglang-srt/src/cpu_reference.rs:200-235 | the tokens of one request in order, each at the position and slot listed for it, stopping at the first error |
| CachedDecode.HiddenCausal | crates/sglang-srt/src/cpu_reference.rs:444-548 | the recomputed hidden state at a position depends only on the tokens up to it |
| CachedDecode.LayersAreRecomputation | crates/sglang-srt/src/cpu_reference.rs:259-319 | a pass over a cache that holds the earlier rows computes the recomputed hidden state and extends the rows |
| CachedDecode.TokenIsRecomputation | crates/sglang-srt/src/cpu_reference.rs:125-188 | a token step returns the logits recomputed from the token prefix |
| CachedDecode.ChunkIsRecomputation | crates/sglang-srt/src/cpu_reference.rs:200-235 | a prompt chunk returns the recomputed logits of its last token, however the prompt was cut |
| CachedDecode.RunInv | crates/sglang-srt/src/cpu_reference.rs:200-235 | after any interleaving, each request's slots hold its own recomputed rows |
| CachedDecode.CachedDecodingIsRecomputation | crates/sglang-srt/src/cpu_reference.rs:125-235 | every successful call in any interleaving over disjoint slot lists returns a pure causal function of that request's own tokens |
| DecoderMeaning.LogitsAreRecorded | crates/sglang-srt/src/cpu_reference.rs:125-319 | the recomputed logits of a decoder that records its arguments spell out the whole computation, for every depth and token sequence: embedding, each layer's attention over all keys and values up to the position, both residuals and the feed-forward block, head |
| DecoderMeaning.EmbeddingPassesThrough | crates/sglang-srt/src/cpu_reference.rs:304-318 | where attention and feed-forward add nothing, the logits are the head of the last token's embedding, at any depth |
| CachedDecode.HistoriesDoNotMatter | crates/sglang-srt/src/cpu_reference.rs:125-235 | two different histories give a request the same logits for the same tokens |
| SharedDecode.PrivateSlot | crates/sglang-srt/src/scheduler.rs:1181-1190 | a slot past what a request has published is in no cache path and in no other request's list |
| RowOrigin.ChunkSound | crates/sglang-srt/src/cpu_reference.rs:200-235 | whatever a chunk computes and however it fails, every recorded slot holds the row of its token path in every layer |
| RowOrigin.ChunkOverOwnRows | crates/sglang-srt/src/cpu_reference.rs:200-235 | over the rows of the tokens before it, a chunk that succeeds returns the recomputed logits and leaves its own rows |
| RowOrigin.ReplayedToken | crates/sglang-srt/src/scheduler.rs:648-680 | computing a token whose row is there already leaves the store as it is |
| SharedDecode.CallComputes | crates/sglang-srt/src/model_executor.rs:171-290 | a forward pass that succeeds for a request that has not gone astray returns the logits recomputed from the request's own tokens up to where the pass ends |
| SharedDecode.StepGood | crates/sglang-srt/src/scheduler.rs:533-1300 | every scheduling step and forward pass, failed or not, keeps each cached slot at the row of its path and each request's slots at its own rows, as far as it has come |
| SharedDecode.RunGood | crates/sglang-srt/src/scheduler.rs:533-1300 | so does every run, and every recorded row is in the store |
| SharedDecode.SharedDecodingIsRecomputation | crates/sglang-srt/src/scheduler.rs:625-1115 | after any run over shared prefixes, replays included, a successful pass returns the logits of the request's own tokens, unless it was put back before its prompt was done and lost track of it, and every cached slot holds the row of its path in every layer |
| WorkerBatch.MismatchRejected | crates/sglang-srt/src/cpu_reference.rs:139-144 | a request of a batch with too many or too few slots fails the slot check before it writes anything, whatever the requests after it bring |
| WorkerBatch.ForwardIsOneByOne | crates/sglang-srt/src/cpu_reference.rs:208-235 | if the totals of a batch match, cutting the flattened lists by token counts yields the logits and the store of passes of single requests, up to the first that fails |
| WorkerBatch.BatchIsOneByOne | crates/sglang-srt/src/model_executor.rs:228-270 | a batch succeeds iff the passes of its requests one by one all do, with the same logits and store; with unequal totals it leaves the store as it was |
| WorkerBatch.BatchIsRecomputation | crates/sglang-srt/src/model_executor.rs:141-270 | after any run, a successful batch returns for each request the logits of its own tokens, unless it lost track of them |
| WorkerBatch.CompletionWaits | crates/sglang-srt/src/scheduler.rs:1045-1115 | completing a request before or after another one's pass leads to the same pass and the same state |
| DecoderProbe.TotalToken | crates/sglang-srt/src/cpu_reference.rs:125-188 | a decoder that accepts every input accepts a token iff its output slot is the one its position names |
| DecoderProbe.ChunkFollows | crates/sglang-srt/src/cpu_reference.rs:200-235 | after any chunk, some probe decoder shows every slot that does not hold the row of a given path |
| PutBack.OwnForAllIff | crates/sglang-srt/src/model_executor.rs:205-226 | after any run, a pass that succeeds returns the logits of the request's own tokens, for all decoders that accept every input and all stores, iff the request is not one of those put back that lost track |
| PutBack.EarlyGoesWrong | crates/sglang-srt/src/model_executor.rs:205-226 | for every pass of such a request a decoder whose logits on the same run differ from those of the request's tokens |
| PutBack.PutBackAfterPass | crates/sglang-srt/src/scheduler.rs:1050-1059 | put back after its pass succeeded, a request stays on its way iff the pass ended one token before the end of the prompt and that token is 0 |
| PutBack.PutBackIff | crates/sglang-srt/src/scheduler.rs:1136-1139 | every prompt of two or more tokens, any page size: put back after all but its last token were prepared, its next pass is accepted, and the request is on its way iff those tokens were computed and the last one is 0 |
| PutBack.EarlyPersists | crates/sglang-srt/src/model_executor.rs:205-226 | once it has output, a request that lost track never recovers |
| PutBack.RunSame | crates/sglang-srt/src/scheduler.rs:533-1300 | under decoders that accept every input the schedule alone decides which passes succeed and which rows they leave |
| ReplayRetry.ReplayAcceptedIff | crates/sglang-srt/src/scheduler.rs:648-680 | the pass prepared for a fully matched prompt has a valid batch and matching slots iff it is the replay of the last slot |
| ReplayRetry.OnlyAccepted | crates/sglang-srt/src/cpu_reference.rs:139-144 | no decoder lets a pass succeed whose batch is invalid or whose slots do not match |
| ReplayRetry.RetryTakesSlot | crates/sglang-srt/src/scheduler.rs:648-720 | a replay taken back and prepared again goes to a new slot and every decoder rejects it |
| ReplayRetry.RetriedReplayFails | crates/sglang-srt/src/scheduler.rs:648-720 | every prompt of whole pages served, sent again, prepared, taken back and prepared: the first preparation is accepted, the second rejected |
| KvCopyKernels.AcceptedSound | crates/sglang-kernel/src/cuda_kv_kernels.rs:167-264 | an accepted plan has disjoint tensor regions inside the page, exact byte counts and enough threads |
| KvCopyKernels.AcceptedIff | crates/sglang-kernel/src/cuda_kv_kernels.rs:167-264 | a plan is accepted iff its regions, row strides and sizes fit, for every page stride of a machine word |
| KvCopyKernels.PlanErrors | crates/sglang-kernel/src/cuda_kv_kernels.rs:167-213 | why a plan is rejected, in order of the checks, with the sizes at fault |
| KvCopyKernels.LaunchExact | crates/sglang-kernel/src/cuda_kv_kernels.rs:212-258 | an accepted plan has eight index bytes per row and just enough blocks of 256 threads |
| KvCopyKernels.PoolBound | crates/sglang-kernel/src/cuda_kv_kernels.rs:220-234 | every pool access for an in-range slot lies below the required bytes |
| KvCopyKernels.PoolBoundTight | crates/sglang-kernel/src/cuda_kv_kernels.rs:220-234 | the required bytes are the exact extent: the last one is accessed |
| KvCopyKernels.RowBound | crates/sglang-kernel/src/cuda_kv_kernels.rs:687-696 | every row access lies below the strided row bytes |
| KvCopyKernels.PoolInjective | crates/sglang-kernel/src/cuda_kv_kernels.rs:11-52 | different (tensor, slot, byte) triples have different pool addresses |
| KvCopyKernels.Scatter | crates/sglang-kernel/src/cuda_kv_kernels.rs:11-52 | under every thread order each row byte is at its address, other bytes are kept, and the flag says whether a slot was out of range |
| KvCopyKernels.Gather | crates/sglang-kernel/src/cuda_kv_kernels.rs:54-99 | under every thread order the row buffers hold the pool bytes of their slots, and the bytes outside the rows are kept |
| KvCopyKernels.ScatterDeterminesPool | crates/sglang-kernel/src/cuda_kv_kernels.rs:11-52 | any two schedules leave the same pool |
| KvCopyKernels.GatherAfterScatter | crates/sglang-kernel/src/cuda_kv_kernels.rs:11-99 | gathering the scattered slots returns the rows that were written |
| KvCopyKernels.ScatterThenGather | crates/sglang-kernel/src/cuda_kv_kernels.rs:471-539 | the two launches in sequence are the identity on the rows |
| DeviceCache.PlanForIff | crates/sglang-srt/src/cuda/kv_cache.rs:469-491 | the plan built from a layout's copy geometry is accepted iff the row buffers and the launch fit the machine word |
| DeviceCache.AddressInRange | crates/sglang-srt/src/cuda/kv_cache.rs:476-483 | the plan's addresses of a row are the layout's byte range of its slot, for keys and values |
| DeviceCache.ScatterRows | crates/sglang-srt/src/cuda/kv_cache.rs:469-491 | scattering through that plan, in any thread order, puts the buffers' rows at the listed slots of the layer and keeps every other row of the layout; it is refused exactly when there is no geometry or the buffers do not fit |
| DeviceCache.AllRowsPut | crates/sglang-kernel/src/cuda_kv_kernels.rs:11-52 | from bytes to rows: the kernel's byte-level outcome is that row-level one |
| Sums.BlockSum | crates/sglang-kernel/src/cuda_attention.rs:123-136 | strided thread sums with a 32-bit counter and the halving tree give the plain sum, for every power-of-two block size that fits with the count and every order |
| Strides.StrideEndsIff | crates/sglang-kernel/src/cuda_w4a16.rs:24 | every thread of a block leaves its strided loop iff the count plus the block size is at most 2^32 |
| Strides.Visited | crates/sglang-kernel/src/cuda_mla.rs:44-45 | together the threads take exactly the indices below the count |
| Strides.VisitedOnce | crates/sglang-kernel/src/cuda_mla.rs:44-45 | no index is taken twice |
| CpuAttention.GroupedQueryAttention | crates/sglang-kernel/src/cpu.rs:445-520 | accepted exactly for matching shapes, and every output component is the softmax-weighted mean over the keys and values of the head's own group: query heads kv * group to kv * group + group - 1 share KV head kv |
| CpuAttention.KvHeadIff | crates/sglang-kernel/src/cuda_attention.rs:87-88 | a query head shares a KV head iff it is one of the consecutive ones of its group |
| CpuAttention.SharersCounted | crates/sglang-kernel/src/cpu.rs:475-479 | every KV head is shared by exactly queryHeads / kvHeads query heads |
| CpuAttention.KvHeadsAscend | crates/sglang-kernel/src/cpu.rs:475-479 | from one query head to the next the shared head is the same or the next |
| CpuAttention.AttendHead | crates/sglang-kernel/src/cpu.rs:475-518 | maximum, shifted exponentials, normalization and accumulation give the softmax mean |
| PagedAttention.OnlineLoop | crates/sglang-kernel/src/cuda_attention.rs:93-160 | running maximum, denominator and rescaled accumulator give the softmax mean, or stop at the first invalid token |
| PagedAttention.AttendBlock | crates/sglang-kernel/src/cuda_attention.rs:37-161 | a block outputs the mean over the sequence's pages iff metadata and slots are valid, otherwise raises bit 1, 2 or 4 |
| PagedAttention.SlotsValidIff | crates/sglang-kernel/src/cuda_attention.rs:93-105 | the slots of a valid sequence are valid iff the listed ones from its start on are below the slot count |
| PagedAttention.Attend | crates/sglang-kernel/src/cuda_attention.rs:37-161 | the launch over all queries and heads, in any order into one output: a valid query's part is its attention, an invalid one's part is kept, and the flag is the union of the bits raised |
| PagedAttention.KernelIsReference | crates/sglang-kernel/src/cuda_attention.rs:78-160 | on gathered rows the kernel's output equals the CPU's, for every grouping of heads and every page mapping |
| PagedAttention.CompareWithReference | crates/sglang-kernel/src/cpu.rs:445-520 | after the launch, each query whose blocks are valid has the reference's vector for every head and dimension; the reference is Ok iff the head dimension is positive, the query row has the right length and the sizes fit the machine word |
| AttentionPlan.AcceptedSound | crates/sglang-kernel/src/cuda_attention.rs:277-440 | an accepted plan has the shape the kernel relies on, regions that fit their page and exact byte counts |
| AttentionPlan.AcceptedIff | crates/sglang-kernel/src/cuda_attention.rs:277-462 | a plan is accepted iff its shape, page regions and sizes fit, for every page stride of a machine word |
| AttentionPlan.ShapeErrors | crates/sglang-kernel/src/cuda_attention.rs:292-340 | what a rejected shape is rejected for, in order of the checks; a wrong row size comes with the right one |
| AttentionPlan.LoopsEndIff | crates/sglang-kernel/src/cuda_attention.rs:422-426 | under an accepted plan all loops over value components end, and all loops end iff the key dimension plus 256 is at most 2^32 |
| AttentionPlan.EndlessPlan | crates/sglang-kernel/src/cuda_attention.rs:124-126 | an accepted plan whose key loop thread 0 never leaves |
| AttentionPlan.ReadsInBounds | crates/sglang-kernel/src/cuda_attention.rs:106-121 | every key and value read for an in-range slot lies below the pool's required bytes |
| AttentionPlan.BoundTight | crates/sglang-kernel/src/cuda_attention.rs:392-418 | that bound is the exact extent |
| AttentionPlan.VectorsInBounds | crates/sglang-kernel/src/cuda_attention.rs:154-160 | query reads and output writes lie below their required bytes |
| AbsorbedMla.RotateInPlace | crates/sglang-kernel/src/rotary.rs:216-236 | the in-place loop rotates every pair of the original vector |
| AbsorbedMla.RotateKernel | crates/sglang-kernel/src/cuda_mla.rs:56-79 | the kernel's pairs, in any order, rotate the same vector |
| AbsorbedMla.RotatedUnique | crates/sglang-kernel/src/rotary.rs:216-236 | both rotations give one result, for both pairings |
| Rotary.StartIsScaled | crates/sglang-kernel/src/rotary.rs:216-236 | at position 0 a pair is only scaled by the magnitude |
| Rotary.NextTurns | crates/sglang-kernel/src/rotary.rs:229-234 | one position more turns a pair once more by its own frequency |
| Rotary.PairProductShifted | crates/sglang-kernel/src/cuda_mla.rs:67-74 | the product of a pair at one position and a pair at another depends on the distance only |
| Rotary.RelativePositions | crates/sglang-kernel/src/cuda_mla.rs:56-79 | so does the product of two whole rotated vectors, for both pairings |
| Rotary.SkipKeeps | crates/sglang-kernel/src/cuda_mla.rs:65-67 | without rotary embedding the vector stays as it is |
| AbsorbedMla.PrepareQuery | crates/sglang-kernel/src/cuda_mla.rs:14-80 | one block absorbs the key half of the weights into the query and rotates the rest, with the kernel's 32-bit strides, offsets and counters; if they fit, with the head's own weights |
| AbsorbedMla.KeyOffsetsFitIff | crates/sglang-kernel/src/cuda_mla.rs:44-54 | no product of dimension and rank in the key half wraps iff the last one, (nope - 1) * rank, is below 2^32 |
| AbsorbedMla.KernelFitsIff | crates/sglang-kernel/src/cuda_mla.rs:34-57 | no 32-bit product or sum of the three kernels wraps and all their loops end iff the last product, the three head strides and the three loop counts fit |
| AbsorbedMla.HeadZeroOnly | crates/sglang-kernel/src/cuda_mla.rs:34-42 | where the expanded head stride wraps to zero, both kernels read head 0's weights for every head |
| AbsorbedMla.WrappingHeads | crates/sglang-kernel/src/cuda_mla.rs:34-42 | dimensions that fit 32 bits, with products that do not wrap, for which it does |
| AbsorbedMla.NormalizeRow | crates/sglang-kernel/src/cpu.rs:26-33 | the CPU's root-mean-square normalization of a latent |
| AbsorbedMla.UnitMeanSquare | crates/sglang-kernel/src/cpu.rs:26-33 | without epsilon and weights a normalized row has mean square 1 |
| AbsorbedMla.PrepareCache | crates/sglang-kernel/src/cuda_mla.rs:82-154 | the kernel's key and value rows begin with the same normalized latent, the key row ends with the rotated key |
| AbsorbedMla.CpuCacheRow | crates/sglang-srt/src/cpu_hybrid.rs:1054-1093 | the CPU writes a cache row of its compressed row: normalized latent, then the rotated key |
| AbsorbedMla.CacheRowUnique | crates/sglang-srt/src/cpu_hybrid.rs:1054-1093 | a compressed row has one cache row, so kernel and CPU store the same |
| AbsorbedMla.ExpandOutput | crates/sglang-kernel/src/cuda_mla.rs:156-189 | the latent attention is multiplied by the value half at the kernel's 32-bit head stride, component by component; if the stride fits, by the head's own half |
| AbsorbedMla.ExpandedHead | crates/sglang-srt/src/cpu_hybrid.rs:1099-1138 | the CPU's result for one head: the softmax mean of the expanded values |
| AbsorbedMla.AbsorbOrExpand | crates/sglang-kernel/src/cuda_mla.rs:44-54 | absorbing weights into the query or expanding the latent gives the same product |
| AbsorbedMla.SameScore | crates/sglang-srt/src/cpu_hybrid.rs:1104-1129 | a prepared query scores a cached row as the CPU scores the expanded one |
| AbsorbedMla.ExpandTheMean | crates/sglang-kernel/src/cuda_mla.rs:178-188 | expanding the mean of the latents is the mean of the expanded values |
| AbsorbedMla.SameOutput | crates/sglang-kernel/src/cuda_mla.rs:14-189 | attention over latents followed by expansion is the attention over expanded values |
| MlaPipeline.PrepareQueries | crates/sglang-kernel/src/cuda_mla.rs:14-80 | the launch over all rows and heads, in any order, reading and storing at the kernel's addresses, prepares every block, if the 32-bit values fit |
| MlaPipeline.QueryAddress | crates/sglang-kernel/src/cuda_mla.rs:37-38 | the kernel's flat query address, with its 32-bit stride, is the component of the token's own row, if the strides fit |
| MlaPipeline.AttendAndExpand | crates/sglang-kernel/src/cuda_mla.rs:156-189 | paged attention and expansion give the head's output, or the attention kernel's error bits |
| MlaPipeline.KernelRow | crates/sglang-kernel/src/cuda_mla.rs:14-189 | query preparation for all rows, paged attention and expansion give the head's output on the pool's rows, if the 32-bit values of the kernels fit |
| MlaPipeline.StoresAgree | crates/sglang-kernel/src/cuda_mla.rs:82-154 | two caches filled from the same compressed rows hold the same keys and latents, each key beginning with its latent |
| MlaPipeline.CpuForward | crates/sglang-srt/src/cpu_hybrid.rs:1064-1138 | the CPU pass computes every head's output in place |
| MlaPipeline.GatheredInOrder | crates/sglang-srt/src/cpu_hybrid.rs:1094-1103 | gathered rows are read in the order they are appended |
| MlaPipeline.CompareRow | crates/sglang-srt/src/cpu_hybrid.rs:1022-1140 | with pool and CPU cache filled from the same compressed rows, the absorbed pipeline equals the expanding CPU pass for every row, head, dimension, position and page mapping, under the model's rotary embedding, if the kernels' 32-bit products, strides and counters fit |
| DeltaRule.KeyGatedStep | crates/sglang-kernel/src/cpu.rs:333-434 | three in-place passes move every column of every head by one step of the rule; a rejected call changes nothing |
| DeltaRule.NextColumnIs | crates/sglang-kernel/src/cpu.rs:395-433 | a stepped column is the decayed one plus beta times what it misses at the key, along the key |
| DeltaRule.SteppedRead | crates/sglang-kernel/src/cpu.rs:395-433 | read along any vector, a step adds beta * (value - decayed read at the key) times the vector's product with the key |
| DeltaRule.UnitKeyStores | crates/sglang-kernel/src/cpu.rs:410-424 | with beta 1 and a unit key the stepped column, read at the key, is the value |
| DeltaRule.OrthogonalKept | crates/sglang-kernel/src/cpu.rs:410-424 | read along a vector orthogonal to the key, it is the decayed column |
| DeltaRule.OutputIs | crates/sglang-kernel/src/cpu.rs:425-432 | the output is what the step leaves, read at the query |
| DeltaRule.RowsInOrder | crates/sglang-kernel/src/cpu.rs:395-409 | row after row is driven by the next components of every input |
| DeltaRule.GuardStateIndices | crates/sglang-kernel/src/cuda_linear_attention.rs:13-34 | under every order the guard passes iff indices are in range and distinct, range errors first |
| DeltaRule.FusedColumn | crates/sglang-kernel/src/cuda_linear_attention.rs:152-176 | two fused loops step one column and touch nothing else |
| DeltaRule.TasksDistinct | crates/sglang-kernel/src/cuda_linear_attention.rs:136-150 | distinct slots give distinct threads distinct columns |
| DeltaRule.FusedKernel | crates/sglang-kernel/src/cuda_linear_attention.rs:123-177 | every thread order steps each addressed column once, writes its output and keeps the rest |
| DeltaRule.KeyGatedDecode | crates/sglang-kernel/src/cuda_linear_attention.rs:724-859 | the launch happens iff the guard passes, otherwise the pool is unchanged |
| DeltaRule.FusedIsCpu | crates/sglang-kernel/src/cuda_linear_attention.rs:123-177 | each addressed slot stays the transpose of the CPU state and the outputs are equal |
| DeltaRule.OtherSlotsKept | crates/sglang-kernel/src/cuda_linear_attention.rs:123-177 | slots no row names keep every element |
| DeltaRule.CompareItem | crates/sglang-kernel/src/cpu.rs:395-433 | both calls on one item agree in state and output |
| CausalConv.Step | crates/sglang-kernel/src/cpu.rs:172-215 | every channel is convolved with its history, which then moves up; a kernel of size one is rejected |
| CausalConv.Stream | crates/sglang-kernel/src/cpu.rs:196-214 | from a zero state, any number of steps gives the direct causal convolution at every position and channel |
| CausalConv.LaunchSegment | crates/sglang-kernel/src/cuda_linear_attention.rs:77-121 | under every order each lane of the segment steps once, all other lanes stay |
| CausalConv.LaunchSegments | crates/sglang-kernel/src/cuda_linear_attention.rs:77-121 | consecutive segment launches each see and change only their own channels |
| CausalConv.SegmentsAreWhole | crates/sglang-srt/src/cpu_hybrid.rs:1195-1252 | segment launches equal one CPU step on the concatenated channels, in state and outputs |
| CausalConv.CompareItem | crates/sglang-srt/src/cpu_hybrid.rs:1241-1252 | both on one item agree |
| Int4Gemv.NibbleOfPacked | crates/sglang-srt/src/compressed_tensors.rs:106-108 | extracting nibble k of a packed word gives back value k |
| Int4Gemv.PackOfUnpacked | crates/sglang-srt/src/compressed_tensors.rs:106-108 | every word is the packing of its nibbles |
| Int4Gemv.ExtractionInvertsPacking | crates/sglang-srt/src/compressed_tensors.rs:104-108 | the element at (row, column) is the value packed there, for every valid shape |
| Int4Gemv.DecodeOfEncoded | crates/sglang-srt/src/compressed_tensors.rs:141-155 | decoding the little-endian bytes of words returns the words |
| Int4Gemv.EncodeOfDecoded | crates/sglang-srt/src/compressed_tensors.rs:89-94 | re-encoding decoded words returns the bytes |
| Int4Gemv.IndicesInRange | crates/sglang-kernel/src/cuda_w4a16.rs:20-31 | every element's word and scale index is in range |
| Int4Gemv.ScaleOfGroup | crates/sglang-srt/src/compressed_tensors.rs:100-114 | the columns of a group, and only they, share a scale, group after group and row after row |
| Int4Gemv.ScalesOfRows | crates/sglang-srt/src/compressed_tensors.rs:100-114 | elements of different rows share no scale |
| Int4Gemv.NoWrapIff | crates/sglang-kernel/src/cuda_w4a16.rs:20-31 | no 32-bit index of the kernel wraps iff both index counts are at most 2^32 |
| Int4Gemv.KernelFitsIff | crates/sglang-kernel/src/cuda_w4a16.rs:20-32 | no index wraps and every thread of a block ends iff both index counts are at most 2^32 and so is columns plus block size |
| Int4Gemv.EndlessShape | crates/sglang-kernel/src/cuda_w4a16.rs:24 | a shape the launcher accepts, with indices that fit, on which thread 0 never ends |
| Int4Gemv.WrappingShape | crates/sglang-kernel/src/cuda_w4a16.rs:175-200 | a shape the launcher accepts on which row 0x80000 reads the words of row 0 |
| Int4Gemv.Dequantize | crates/sglang-srt/src/compressed_tensors.rs:100-114 | row-major quantized value times group scale |
| Int4Gemv.Linear | crates/sglang-kernel/src/cpu.rs:73-108 | accepted exactly for matching shapes; every entry is the dot product plus bias |
| Int4Gemv.BiasShifts | crates/sglang-kernel/src/cpu.rs:73-108 | every feature is the dot product, shifted by its own bias if there is one |
| Int4Gemv.Gemv | crates/sglang-kernel/src/cuda_w4a16.rs:20-43 | every row is the sum of its packed terms at the kernel's wrapped indices, whatever the order and block size, for columns on which the loops end |
| Int4Gemv.PackedRowIsLinear | crates/sglang-kernel/src/cuda_w4a16.rs:24-31 | the packed row product is the dot product with the dequantized row, for all shapes whose indices do not wrap |
| Int4Gemv.CompareWithLinear | crates/sglang-kernel/src/cuda_w4a16.rs:20-43 | kernel and `linear` on dequantized weights return equal vectors, for all shapes whose indices and counters fit |
| Sampler.Argmax | crates/sglang-srt/src/model_executor.rs:645-652 | the last of the maximal logits, or an error for an empty vocabulary |
| Sampler.FrontIsFirst | crates/sglang-srt/src/model_executor.rs:542 | in front of the candidate order stands the first of the maximal logits, for every increasing exp |
| Sampler.GreedyIsFrontIff | crates/sglang-srt/src/model_executor.rs:520-542 | the greedy token is the candidate in front iff the maximal logit is unique |
| Sampler.EqualLogits | crates/sglang-srt/src/model_executor.rs:645-652 | two equal logits: greedy takes token 1, the order puts token 0 in front |
| Sampler.SortCorrect | crates/sglang-srt/src/model_executor.rs:542 | the order is a permutation by descending probability, ties in token order |
| Sampler.OrderedUnique | crates/sglang-srt/src/model_executor.rs:542 | it is the only such arrangement |
| Sampler.Filter | crates/sglang-srt/src/model_executor.rs:565-575 | what is kept is a prefix: the shorter of the shortest prefix reaching top_p and the candidates meeting min_p |
| Sampler.RestBelow | crates/sglang-srt/src/model_executor.rs:572-574 | no candidate after the min_p prefix meets the minimum |
| Sampler.KeptNonEmpty | crates/sglang-srt/src/model_executor.rs:551-575 | something is kept iff top_p is positive and min_p at most one |
| Sampler.BoundedUnit | crates/sglang-srt/src/model_executor.rs:601-608 | the draw lies in [0, 1), also for non-finite random values |
| Sampler.Draw | crates/sglang-srt/src/model_executor.rs:586-598 | the drawn candidate's cumulative interval contains the target; the last element is the answer only for a target at or above the total |
| Sampler.HitUnique | crates/sglang-srt/src/model_executor.rs:587-593 | at most one candidate's interval contains the target |
| Sampler.DrawKept | crates/sglang-srt/src/model_executor.rs:577-598 | with a draw below one the fallback is never taken |
| Sampler.ShiftScales | crates/sglang-srt/src/model_executor.rs:524-533 | subtracting the maximum scales all candidates alike and keeps their order |
| Sampler.ChoiceScaled | crates/sglang-srt/src/model_executor.rs:551-593 | scaling all probabilities changes neither what is kept nor what is drawn |
| Sampler.SampleRow | crates/sglang-srt/src/model_executor.rs:502-599 | errors exactly as stated, greedy settings pick the last maximum, and otherwise the token is the one the draw hits among the filtered softmax candidates, which SampledIffDrawn characterizes over the logits |
| SamplerMeaning.SampledIffDrawn | crates/sglang-srt/src/model_executor.rs:519-599 | said of logits and settings alone: the sampled token is the one into whose share of the kept weight the draw falls, where kept are the admitted tokens whose predecessors weigh less than top_p of all admitted and that weigh at least min_p of any other |
| SamplerMeaning.CandidatesAreAdmitted | crates/sglang-srt/src/model_executor.rs:544-549 | the candidates are the topK tokens with fewest ahead, or the whole vocabulary if topK is absent, not positive or not below its size |
| SamplerMeaning.SampledWithinTopK | crates/sglang-srt/src/model_executor.rs:544-549 | with a positive topK fewer tokens than that are ahead of the sampled one |
| SamplerMeaning.NearestUnit | crates/sglang-srt/src/model_executor.rs:601-608 | the draw is the nearest value to the random one from 0 to 1 - 2^-24, or 0 if that is not finite |
| Sampler.UnitsInTheLastPlace | crates/sglang-srt/src/model_executor.rs:519-520 | temperatures up to 2^-23 are greedy, and the largest draw is 1 - 2^-24 |
| Sampler.SampledTokenUnique | crates/sglang-srt/src/model_executor.rs:519-599 | that token is unique |
| Sampler.DrawnInProportion | crates/sglang-srt/src/model_executor.rs:585-593 | a candidate is drawn for exactly an interval of draws as long as its share of the kept mass |
| ExecutionProtocol.StepInv | crates/sglang-srt/src/execution_engine.rs:54-132 | every call and worker step keeps the accounting of accepted, executed, lost and delivered commands |
| ExecutionProtocol.ProtocolSafe | crates/sglang-srt/src/execution_engine.rs:54-124 | in every run received identifiers are an in-order prefix of the accepted ones and in_flight is accepted minus received |
| ExecutionProtocol.NeverSaturates | crates/sglang-srt/src/execution_engine.rs:103-122 | the saturating subtraction never saturates |
| ExecutionProtocol.DropDrains | crates/sglang-srt/src/execution_engine.rs:126-132 | without a worker stop, a finished drop has executed every accepted command and shut the worker down once |
| ExecutionProtocol.ShutdownAfterDrain | crates/sglang-srt/src/execution_engine.rs:64-71 | shutdown comes only after everything accepted was executed, with or without other events |
| ExecutionProtocol.DropProgresses | crates/sglang-srt/src/execution_engine.rs:126-132 | until the join some step is possible and every step brings the join closer |
| ExecutionProtocol.DropEnds | crates/sglang-srt/src/execution_engine.rs:126-132 | whatever is going on, closing the sender and letting the worker move ends in the join |
| ExecutionProtocol.RecvStuckIff | crates/sglang-srt/src/execution_engine.rs:99-122 | after any run, no sequence of worker steps lets a blocked receive return iff `in_flight()` is 0 |
| ExecutionProtocol.RecvReturns | crates/sglang-srt/src/execution_engine.rs:114-122 | with something in flight, some run of worker steps, no longer than the remaining work, ends the wait of a receive |
| ExecutionProtocol.WorkerStepShrinks | crates/sglang-srt/src/execution_engine.rs:63-72 | every worker step brings that end closer, so no run of worker steps goes on without it |
| ExecutionProtocol.RecvAfterSpawnIsStuck | crates/sglang-srt/src/execution_engine.rs:114-122 | a receive right after spawning is stuck |
| ExecutionProtocol.StoppedMeansDelivered | crates/sglang-srt/src/execution_engine.rs:103-122 | a stopped report means every executed command was delivered and exactly the lost ones remain counted |
| ExecutionProtocol.IdsDistinct | crates/sglang-srt/src/execution_engine.rs:84-97 | accepted identifiers are distinct as long as the 64-bit counter has not wrapped |
| ExecutionEngine.Engine.Submit | crates/sglang-srt/src/execution_engine.rs:84-97 | accepted iff the worker holds its receiver; the identifier advances either way |
| ExecutionEngine.Engine.TryRecv | crates/sglang-srt/src/execution_engine.rs:103-112 | delivers the oldest completion, whose identifier is that of the next accepted command; errors only when nothing is left |
| ExecutionEngine.Engine.Recv | crates/sglang-srt/src/execution_engine.rs:114-122 | the same for the blocking call |
| ExecutionEngine.Engine.WorkerStep | crates/sglang-srt/src/execution_engine.rs:63-72 | each step of the worker thread is a protocol step; it stops only when executing yields no outcome |
| ExecutionEngine.Engine.Drop | crates/sglang-srt/src/execution_engine.rs:126-131 | terminates whatever the worker does, and drains unless the worker stops |

## Left out

- Rounding, NaN, infinities and `bf16` conversion: all arithmetic is over the reals, so the finiteness checks of the source have no counterpart.
- Trees and nodes are values held by their class; the source's in-place node updates and entry API are not modelled as heap objects.
- Block hashing (SHA-256) and cache-aware worker selection: expressions without state, only easy members.
- Serving.ServeSafe: queues, batch forming and budgets are events with arbitrary arguments; disaggregated requests, the disabled prefix cache and event publishing are not modelled.
- Serving.ServeAllSafe: runs whose flushes fall between forward passes; FlushSafeIff says that no other flush is safe.
- PutBack.OwnForAllIff: stated for decoders that accept every input; which passes fail under one that rejects tokens depends on the decoder, and the passes that succeed under it are covered by SharedDecode.SharedDecodingIsRecomputation.
- WorkerBatch.BatchIsOneByOne: a decode request without prompt and output is not a member of a batch, since the builder's position would be -1.
- CachedDecode: projections, norms, rotary embedding, attention and feed-forward of the dense decoder are arbitrary functions of their inputs.
- Hybrid decoder state on a failed token step: layers change recurrent state before the position advances, so no claim is made.
- PagedAttention.CompareWithReference: the CPU reference has one head dimension, so the comparison is for equal key and value dimensions; unequal dimensions are covered by MlaPipeline.CompareRow.
- MlaPipeline.CompareRow: the output projection and the query projection around the attention are not modelled.
- DeltaRule.KeyGatedStep: the scalar-gated variant `gated_delta_rule_step` is not modelled.
- CausalConv: the activation after the convolution and the L2 normalization of heads are not modelled.
- PagedAttention.Attend: launches whose 32-bit counters do not fit are left to AttentionPlan.LoopsEndIff, as those of the other kernels are to their own conditions; a method cannot state what a launch that never ends computes.
- Int4Gemv.Dequantize: tensor loading, names and safetensors metadata are not modelled; the host is little-endian.
- Sampler.SampleRow: token penalties are applied before the modelled function; token numbers are not truncated to 32 bits.
- ExecutionProtocol.ProtocolSafe: `in_flight` is unbounded rather than a 64-bit count; channel memory is unbounded.
- Device alignment, allocation and argument passing, cuBLAS, NCCL and NVRTC, CUDA graph runner, transfer and disaggregation control, gRPC, HTTP, CLI and router: foreign calls and wiring.
