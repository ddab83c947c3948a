# A verified model of vllm-ascend's host-side planning code

This project models the parts of vllm-ascend where a mistake would silently corrupt results, and
proves what they promise for every input and every run.

**The LRU resident planner.** Sparse attention keeps the KV data of a request in a host pool and
caches the tokens it selects in a few device slots per request. In every decode step a planner maps
each logical row of the batch to a physical row that still belongs to its request, finds which
selected tokens are resident, evicts the least recently used slots for the others and writes a copy
plan. It runs on several threads with scratch memory that is not cleared between steps.

| file | content |
|---|---|
| `Lists.dfy` | filters, permutations, scattered writes |
| `Resident.dfy` | one row step as a function of the row and the query |
| `ResidentLaws.dfy` | what one step guarantees |
| `ResidentRuns.dfy` | any number of steps and owners: where hits come from, least recently used |
| `ResidentCoherence.dfy` | the device data agree with the host pool in every run |
| `RowStep.dfy` | the row step on arrays, with the epoch-stamped table, proved equal to the function |
| `RequestLaws.dfy` | the row step in the caller's terms: the lengths and tokens of a request and its row |
| `RowAssignment.dfy` | logical to physical rows, as a specification and as the two passes of loops |
| `Schedule.dfy` | any interleaving of threads that share only a partition of the work |
| `RowProgram.dfy` | the row step as a program of atomic steps, one for each turn of its loops |
| `Batch.dfy` | batches, runs of batches seen from one physical row, and who owns the rows |
| `BatchCoherence.dfy` | many requests with a pool each: every plan reads its own request's data |
| `Planner.dfy` | the whole planner on memory, one thread or many |

**Other parts.** `PayloadRegistry.dfy`: who owns the payload of a planner callback, eager or
captured in a graph. `Translate.dfy`, `Markdown.dfy` and `Documents.dfy`: the documentation
translator, from code spans to the whole document. `Transpose.dfy`: the layout checks and fused
launches of the KV cache transpose. `Bgmv.dfy`: the tiled LoRA expand kernel against the plain dot
product. `KdaChunks.dfy`: chunk indices of packed sequences. `CpuBinding.dfy`: sharing CPUs among
NPUs across processes.

Three promises do not hold of the code as it stands. For each there is a failing input and the exact
condition under which it holds.

- No token is resident twice: false for a query that repeats a token (`RepeatedResident`). It holds
  exactly when every repeated position comes too late to get a slot (`UniqueExactly`).
- An accepted chunk list names every chunk once: false for a list that repeats one
  (`RepeatAccepted`). It holds exactly when no pair occurs twice (`AcceptedIsPermutation`).
- The expand kernel adds the LoRA product to the whole slice: false for rank 8 and a slice of 9,
  where the last output gains what the buffer held before (`StaleOutput`), and for a slice of 4097,
  where it gains the slice's own first output (`LongSliceWrong`). It holds for all inputs exactly
  when the weights of the slice fill whole vector repeats (`RightExactly`).

## Model

| member | source | states |
|---|---|---|
| `ResidentLaws.SlotHoldsToken` | csrc/torch_binding.cpp:2333-2399 | every slot handed out belongs to a visible position and holds, after the step, the token of that position |
| `ResidentLaws.HitsKept` | csrc/torch_binding.cpp:2343-2399 | a slot hit in a step is not evicted in it and keeps its token |
| `ResidentLaws.SlotsDistinct` | csrc/torch_binding.cpp:2343-2399 | two positions never share a slot, even if the query repeats a token |
| `ResidentLaws.HitsAndMisses` | csrc/torch_binding.cpp:2341-2380 | hits and misses together number exactly the visible positions |
| `ResidentLaws.NoMissDropped` | csrc/torch_binding.cpp:2371-2399 | every visible position gets a slot if and only if there are at most as many as resident slots |
| `ResidentLaws.OrderKept` | csrc/torch_binding.cpp:2401-2413 | the rewritten LRU order is again a permutation of the slots |
| `ResidentLaws.DistinctKeepsUnique` | csrc/torch_binding.cpp:2383-2399 | without repeated selections no token becomes resident twice |
| `ResidentLaws.UniqueExactly` | csrc/torch_binding.cpp:2333-2399 | tokens stay unique if and only if, for every position that repeats a token, the positions shown before it and those reused after it number at least as many as the slots |
| `ResidentLaws.RepeatedResident` | csrc/torch_binding.cpp:2371-2399 | an empty row with two slots, asked twice for one token, ends up with it in both |
| `ResidentLaws.StepKeepsRow` | csrc/torch_binding.cpp:2322-2413 | the row invariant (permutation, token range, uniqueness) survives a step, resets included |
| `ResidentLaws.PlanDecodes` | csrc/torch_binding.cpp:2360-2395 | a plan code is 0 exactly without a slot, otherwise encodes it; it is negative exactly when the slot did not hold the token and the token is not the current one |
| `ResidentLaws.CurrentSlotHolds` | csrc/torch_binding.cpp:2330-2415 | the reported slot holds the current token, or is the reserved one, and that exactly when no position of the current token got a slot |
| `ResidentLaws.SurvivorsStable` | csrc/torch_binding.cpp:2349-2353 | what a scan leaves in a row belongs to its request and lies below the stable prefix |
| `ResidentLaws.StepSorted` | csrc/torch_binding.cpp:2401-2413 | an order sorted by last use is sorted again once the used slots are dated by this step |
| `ResidentLaws.VictimsFirst` | csrc/torch_binding.cpp:2382-2399 | no victim was used later than a slot that is neither hit nor evicted |
| `ResidentRuns.RunValid` | csrc/torch_binding.cpp:2284-2417 | the row invariant holds in every reachable state |
| `ResidentRuns.StaleDropped` | csrc/torch_binding.cpp:2349-2353 | in every run, what survives a scan lies below that step's stable prefix and belongs to its request |
| `ResidentRuns.ResidentsHeld` | csrc/torch_binding.cpp:2322-2399 | every resident token was put in its slot by a miss of the present owner and has stayed there |
| `ResidentRuns.HitProvenance` | csrc/torch_binding.cpp:2322-2399 | a hit goes back to an earlier miss of the same request; since then the row was not reset, the slot not reassigned and the token always below the stable prefix |
| `ResidentRuns.OrderIsLru` | csrc/torch_binding.cpp:2401-2413 | in every reachable state the order array lists the slots by their last use |
| `ResidentRuns.LastUsedExactly` | csrc/torch_binding.cpp:2401-2413 | the last use of a slot is the last step that used it for the present owner |
| `ResidentRuns.VictimsAreOldest` | csrc/torch_binding.cpp:2382-2413 | every victim of every run was last used no later than any slot left alone |
| `ResidentCoherence.OneWriter` | csrc/torch_binding.cpp:2360-2395 | no two codes of a plan name the same slot |
| `ResidentCoherence.StepCoherent` | csrc/torch_binding.cpp:2341-2415 | carrying out a plan leaves every resident slot with the pool's data of its token |
| `ResidentCoherence.RunCoherent` | csrc/torch_binding.cpp:2322-2415 | in every run whose host changes data only past the stable prefix, the device agrees with the pool after each step |
| `ResidentCoherence.AttentionReadsPool` | vllm_ascend/distributed/kv_transfer/sparse_kv_offload/sparse_kv_offload_manager.py:1453-1475 | with the current token injected at its reported slot, each slot of a plan holds the pool's present data of its token |
| `BatchCoherence.BatchRunGood` | csrc/torch_binding.cpp:2419-2534 | in every run of batches of distinct requests each row agrees with the pool its owner had when it last ran, and the owner has not run since |
| `BatchCoherence.BatchReadsPool` | vllm_ascend/distributed/kv_transfer/sparse_kv_offload/sparse_kv_offload_manager.py:1453-1475 | in every such run each slot of each logical row's plan holds the present data of that row's own request, whose pool may change from its stable prefix length onwards; a position has a slot only if its token is below the visible length, and then always if the row has a slot for every such position |
| `RowStep.Workspace.NextEpoch` | csrc/torch_binding.cpp:2272-2282 | the new epoch stamps no entry, whether or not the table had to be cleared |
| `RowStep.Workspace.Stamp` | csrc/torch_binding.cpp:2332-2339 | whatever was in the table, afterwards it marks exactly the wanted tokens, each with its first position |
| `RowStep.EpochCycles` | csrc/torch_binding.cpp:2272-2282 | the epochs run through 1 to 2^30 - 1 over and over, so no 32-bit overflow occurs |
| `RowStep.PhysicalRow.Reset` | csrc/torch_binding.cpp:2264-2270 | the row becomes the empty row; the reserved slot is untouched |
| `RowStep.PlanRow.Clear` | csrc/torch_binding.cpp:2309-2320 | the plan is blank and exactly the three control cells are rewritten |
| `RowStep.ClaimRow` | csrc/torch_binding.cpp:2322-2326 | the row is handed over, emptied exactly when it belonged to another request |
| `RowStep.Visit` | csrc/torch_binding.cpp:2344-2368 | one slot of the scan extends tokens, hit list, evictable list, slot table, codes and current slot as specified |
| `RowStep.Scan` | csrc/torch_binding.cpp:2341-2369 | the in-place scan computes live tokens, hits, evictable slots, located positions and current slot |
| `RowStep.CollectMisses` | csrc/torch_binding.cpp:2371-2380 | the visible positions without a slot and their tokens are listed, the rest padded with -1 |
| `RowStep.AssignMisses` | csrc/torch_binding.cpp:2382-2399 | the misses get the least recently used evictable slots, in tokens, slot table, codes, miss slots and current slot |
| `RowStep.RewriteOrder` | csrc/torch_binding.cpp:2401-2413 | the order becomes kept, then refilled, then hit slots |
| `RowStep.ProcessRow` | csrc/torch_binding.cpp:2284-2417 | the step on arrays yields the specified row, plan and control cells, whatever the scratch memory held; a row without resident slots is left alone |
| `RequestLaws.BoundsOf` | csrc/torch_binding.cpp:2327-2329 | the visible length bounds what may be selected, the stable prefix length what may be reused, and the newest visible token is the current one |
| `RequestLaws.PlanAnswers` | csrc/torch_binding.cpp:2322-2399 | a position gets a slot only for a visible token; the slot that keeps the token of this request below its stable prefix if there is one, the latest of several, without a copy; else a copy, except for the newest token |
| `RequestLaws.FindsOnce` | csrc/torch_binding.cpp:2341-2366 | without repeated tokens a position finds its token in one slot only |
| `RequestLaws.AllServed` | csrc/torch_binding.cpp:2371-2399 | every visible position gets a slot if and only if there are at most as many as slots |
| `RequestLaws.NoSlotIdle` | csrc/torch_binding.cpp:2371-2399 | no visible position is left out while a slot is free |
| `RequestLaws.SlotAfter` | csrc/torch_binding.cpp:2322-2399 | afterwards a slot holds the token it was given for, else the token it keeps for this request, else nothing |
| `RequestLaws.MissesListed` | csrc/torch_binding.cpp:2361-2396 | the miss lists hold the tokens of the missed positions in order and the slots of the first missCount of them, exactly those that got one, and -1 beyond |
| `RequestLaws.OrderAfter` | csrc/torch_binding.cpp:2382-2413 | the misses get the least recently used slots the request finds nothing in, in that order; the new order is the slots left alone, the refilled ones and the found ones, each in their old order |
| `RequestLaws.NewestPlace` | csrc/torch_binding.cpp:2330-2416 | the slot reported for the newest token is one given to a position that selects it, or the reserved one exactly if none was |
| `RequestLaws.GivenFor` | csrc/torch_binding.cpp:2341-2395 | a slot hits with a token, or is refilled with it, exactly if a position selecting it is given the slot and the slot held it, or did not |
| `RequestLaws.UsedExactly` | csrc/torch_binding.cpp:2341-2395 | a slot counts as used exactly if some position is given it, and as a victim exactly if it is refilled |
| `RowAssignment.RowsFor` | csrc/torch_binding.cpp:2464-2499 | every logical row gets a physical row and no two the same |
| `RowAssignment.UntakenExists` | csrc/torch_binding.cpp:2479-2496 | while a logical row is unplaced an untaken physical row exists, so the search never gives up |
| `RowAssignment.ReturningKeepsRow` | csrc/torch_binding.cpp:2466-2474 | a logical row works on a foreign row only if each row of its own request serves another of its logical rows |
| `RowAssignment.ActiveRowNotGivenAway` | csrc/torch_binding.cpp:2466-2499 | a row of a request in the batch goes elsewhere only if that request's logical rows have rows of their own |
| `RowAssignment.ReclaimedLast` | csrc/torch_binding.cpp:2480-2493 | a row of another request is reclaimed only when every empty row is taken |
| `RowAssignment.ReturnsToLowest` | csrc/torch_binding.cpp:2466-2474 | a returning logical row gets the lowest row of its request that no earlier one got |
| `RowAssignment.TakesLowest` | csrc/torch_binding.cpp:2475-2499 | one that cannot return gets the lowest empty row left, and only without any the lowest row left |
| `RowAssignment.OwnersStayUnique` | csrc/torch_binding.cpp:2464-2499 | a batch of distinct requests leaves no request with two rows, and a request that owns a row gets it |
| `RowAssignment.StickyPass` | csrc/torch_binding.cpp:2464-2474 | the first loop computes the sticky assignment and flags exactly the taken rows |
| `RowAssignment.FillGaps` | csrc/torch_binding.cpp:2475-2499 | the second loop fills every gap as specified or stops at the first that cannot be filled |
| `RowAssignment.AssignRows` | csrc/torch_binding.cpp:2461-2500 | it succeeds exactly when all rows can be placed, always so with enough rows, with the specified mapping |
| `Schedule.ChooseThreads` | csrc/torch_binding.cpp:2229-2242 | the largest number of threads within the rows, the workspaces and the number asked for, where positive; a single one exactly for at most one row, one workspace or one requested thread |
| `Schedule.StridesPartition` | csrc/torch_binding.cpp:2525-2532 | every row is on exactly one thread's list, exactly once |
| `Schedule.RunOk` | csrc/torch_binding.cpp:2517-2533 | in every state of every interleaving each thread has done its finished tasks and touched no later one |
| `Schedule.InterleavingIrrelevant` | csrc/torch_binding.cpp:2517-2533 | when all threads are done each listed cell holds what its task computes alone and every other cell is untouched |
| `RowProgram.ProgramComputes` | csrc/torch_binding.cpp:2284-2417 | the row step taken apart into one atomic step per turn of each of its loops, clearing, reset, table clear and order rewriting included, run on any valid scratch memory, yields the specified row and plan and leaves the scratch memory valid |
| `RowProgram.ProgramMeets` | csrc/torch_binding.cpp:2517-2533 | so every task of a strided batch program does what its row step is specified to do |
| `Batch.Projection` | csrc/torch_binding.cpp:2419-2534 | seen from one physical row, every run of batches is a run of row steps |
| `Batch.BatchAnswers` | csrc/torch_binding.cpp:2419-2534 | each logical row's plan answers its own request from the row assigned to it, which steps accordingly; every other row rests |
| `Batch.BatchKeepsOwners` | csrc/torch_binding.cpp:2464-2534 | a planned batch of distinct requests keeps one row per request, and a request that owns a row works on it |
| `Batch.RunKeepsOwners` | csrc/torch_binding.cpp:2419-2534 | in every run of batches of distinct requests no request ever owns two rows |
| `Batch.ReturnsToItsRow` | csrc/torch_binding.cpp:2466-2474 | a request that comes back after any number of batches works on the row it had, if no other request was given that row in between |
| `Batch.BatchHitProvenance` | csrc/torch_binding.cpp:2419-2534 | in every run of batches a hit goes back to a miss of the same request on the same physical row |
| `Batch.BatchOrderIsLru` | csrc/torch_binding.cpp:2419-2534 | in every run of batches every physical row keeps its slots in order of last use |
| `Batch.PlanFitsInt16` | csrc/torch_binding.cpp:2544-2551 | under the checked limits no code or control cell is changed by its cast to 16 bits |
| `Batch.CurrentTokenPlace` | csrc/torch_binding.cpp:2414-2416 | a current token is written inside its own physical row, to the slot that holds the newest visible token of its request, or to the reserved one |
| `Batch.CurrentTokensDistinct` | csrc/torch_binding.cpp:2414-2416 | different logical rows write their current tokens to different places, which fit 32 bits |
| `Planner.AnyScheduleGivesBatch` | csrc/torch_binding.cpp:2501-2533 | threads striding over the rows, the loop turns of all rows interleaved in any way, leave the rows and plans of the sequential batch |
| `Planner.RunSequential` | csrc/torch_binding.cpp:2504-2515 | the single-thread loop plans every logical row on its physical row and disturbs no other |
| `Planner.RunStrided` | csrc/torch_binding.cpp:2517-2533 | on memory, whichever thread runs its next row at each turn, every logical row is planned once with its thread's scratch memory and the result is the batch's |
| `Planner.Compact` | csrc/torch_binding.cpp:2419-2534 | the planner leaves the specified rows, plans, current-token slots and control cells for any number of threads, and the rows unchanged for an empty batch or rows without resident slots |
| `PayloadRegistry.StepKeeps` | csrc/torch_binding.cpp:2608-2729 | every action keeps: each payload has exactly one owner, each registry is bound to its graph, and a callback deletes its payload exactly when the stream and not a registry owns it |
| `PayloadRegistry.RunInv` | csrc/torch_binding.cpp:2592-2729 | the ownership invariant holds in every reachable state, graph handles being reused or not |
| `PayloadRegistry.SafeToReplay` | csrc/torch_binding.cpp:2622-2659 | a payload recorded in a graph stays in its registry, unreleased through any number of replays, until the graph is destroyed |
| `PayloadRegistry.ReplayKeeps` | csrc/torch_binding.cpp:2646-2659 | a replay plans with every recorded payload, in order, and changes nothing else: it releases none, because their callbacks are flagged not to |
| `PayloadRegistry.NoUseAfterRelease` | csrc/torch_binding.cpp:2646-2659 | in every run no callback, eager or replayed, runs on a released payload; an eager one releases its own and a replayed one does not |
| `PayloadRegistry.PlansWith` | csrc/torch_binding.cpp:2646-2660 | a callback plans with its own payload, a replay with every payload recorded in its graph, in order, and no other action plans |
| `PayloadRegistry.EagerAtMostOnce` | csrc/torch_binding.cpp:2646-2660 | in every run an eager payload is planned with at most once |
| `PayloadRegistry.SafeToRun` | csrc/torch_binding.cpp:2646-2659 | an eager payload stays on the stream, unreleased, until its own callback runs |
| `PayloadRegistry.LaunchedIsSafe` | csrc/torch_binding.cpp:2691-2729 | in every run a payload launched outside a capture stays on the stream, unreleased, until its own callback has run |
| `PayloadRegistry.CapturedIsSafe` | csrc/torch_binding.cpp:2691-2729 | in every run a payload launched in a capture stays recorded and held, unreleased, until its graph is destroyed |
| `PayloadRegistry.ReleasedForGood` | csrc/torch_binding.cpp:2608-2659 | a released payload never comes back |
| `PayloadRegistry.NothingLeaks` | csrc/torch_binding.cpp:2608-2729 | once the stream is drained and all graphs are gone, every payload ever made was released exactly once |
| `PayloadRegistry.Host.RetainPayload` | csrc/torch_binding.cpp:2622-2644 | the payload joins its graph's registry, a new one being bound first; a failed binding leaves no registry |
| `PayloadRegistry.Host.EnqueuePlan` | csrc/torch_binding.cpp:2680-2729 | a payload enqueued outside a capture goes to the stream if launched, else it is released; in a capture it goes to the graph's registry, recorded in the graph if launched, and without a registry it is released; and exactly when the call succeeds |
| `PayloadRegistry.Host.RunEager` | csrc/torch_binding.cpp:2646-2659 | the stream's callback takes its payload off the stream, runs it and keeps the invariant |
| `PayloadRegistry.Host.RunCallback` | csrc/torch_binding.cpp:2646-2659 | the callback deletes its payload exactly when its flag says so |
| `PayloadRegistry.Host.ReplayGraph` | csrc/torch_binding.cpp:2646-2659 | every recorded callback runs once, in order, and nothing is released |
| `PayloadRegistry.Host.DestroyGraph` | csrc/torch_binding.cpp:2608-2620 | destroying a graph releases exactly its registry's payloads |
| `Translate.ExactMatches` | tools/generate_zh_docs.py:181-189 | the matches read the msgid and do not overlap, and wherever the text reads the msgid one of them has begun |
| `Translate.Merge` | tools/generate_zh_docs.py:131-137 | the merged ranges cover the same characters and are separated by gaps |
| `Translate.FullyProtectedMeaning` | tools/generate_zh_docs.py:198-201 | a match is skipped if and only if all its characters are protected |
| `Translate.InsertionPoint` | tools/generate_zh_docs.py:209-217 | the binary search finds where a start belongs |
| `Translate.NeighboursSuffice` | tools/generate_zh_docs.py:218-221 | testing the two neighbours detects an overlap with any selected candidate |
| `Translate.Select` | tools/generate_zh_docs.py:204-223 | the fast selection holds exactly what the plain greedy one takes, in text order without overlaps |
| `Translate.LeftOutFor` | tools/generate_zh_docs.py:203-223 | a candidate left out overlaps a chosen one at least as long |
| `Translate.Render` | tools/generate_zh_docs.py:225-232 | each span's translation stands where the span stood, moved by the length changes of the earlier ones, every other character stands at its moved place, and there is nothing else |
| `Translate.ApplyCandidates` | tools/generate_zh_docs.py:203-232 | every candidate is chosen or shares a character with a chosen one that comes before it (longer, else earlier in the text, else earlier in the list); the chosen ones do not overlap and are replaced as `Render` states |
| `Translate.AllDecided` | tools/generate_zh_docs.py:203-224 | the greedy choice from the sorted list decides every candidate in that order |
| `Markdown.FindCloser` | tools/generate_zh_docs.py:107-119 | the first later run of exactly the opener's length, or none |
| `Markdown.InlineCodeRanges` | tools/generate_zh_docs.py:91-121 | the ranges are exactly the code spans of section 6.1 of CommonMark 0.31.2, escapes aside, and the scan terminates |
| `Markdown.CodeSpansUnique` | tools/generate_zh_docs.py:91-121 | a text has only one such list of code spans |
| `Markdown.SplitByCodeBlocks` | tools/generate_zh_docs.py:46-88 | nothing is lost; code segments are exactly the blocks from an opening fence to the first bare fence of its character, and no fence starts in a text segment |
| `Documents.ProtectedRanges` | tools/generate_zh_docs.py:124-137 | the merged ranges cover exactly the characters of code spans and links |
| `Documents.EntrySpans` | tools/generate_zh_docs.py:178-196 | the spans of an entry: none if blank, its exact occurrences, or the reflowed ones of a safe msgid without any |
| `Documents.Collect` | tools/generate_zh_docs.py:175-201 | the candidates are exactly the matches not inside one protected range, entry by entry in order of their spans |
| `Documents.ApplySegment` | tools/generate_zh_docs.py:168-232 | the replaced matches are those the order longest, then earliest, then first entry decides for, among the matches with a character outside code spans and links; each is replaced by its translation in place and every other character stays |
| `Documents.ApplyTranslations` | tools/generate_zh_docs.py:235-261 | the document is split exactly into fenced code and text; code is kept and each text segment is translated as `ApplySegment` states, with the entries of the longest msgid first and equally long ones in their old order |
| `Documents.UntranslatedUnchanged` | tools/generate_zh_docs.py:235-261 | a document in whose text no match is eligible comes back unchanged |
| `Transpose.CheckCache` | csrc/torch_binding.cpp:722-738 | the check accepts exactly the caches with dense inner strides, singletons aside, and far enough block strides |
| `Transpose.AcceptedExactly` | csrc/torch_binding.cpp:722-738 | it accepts a cache if and only if its blocks are dense and do not run into each other |
| `Transpose.EmptyAccepted` | csrc/torch_binding.cpp:734-737 | a cache without blocks is accepted if and only if no block is asked for and the same cache with one block would be |
| `Transpose.AcceptedInjective` | csrc/torch_binding.cpp:722-738 | no two elements of an accepted cache share a place |
| `Transpose.DenseOrder` | csrc/torch_binding.cpp:728-733 | the dense layout orders the elements of a block by row, then head, then place in the head |
| `Transpose.NormalizedStride` | csrc/torch_binding.cpp:752-756 | the normalised block stride addresses every element correctly, passes the overlap check and is the dense block length for a single block |
| `Transpose.GroupLayers` | csrc/torch_binding.cpp:757-771 | the fused launches do what one launch per layer would, in order, and no two neighbours could be fused |
| `Transpose.TransposeByBlock` | csrc/torch_binding.cpp:700-772 | it fails exactly if a check on some layer or size fails, launches nothing without blocks, and otherwise puts each layer in one launch, in order, whose strides address every element of its two caches, with no two neighbouring launches fusible |
| `Bgmv.Reduce` | csrc/kernels/bgmv_expand.cpp:252-280 | folding groups is right even in place, and every other element keeps its value |
| `Bgmv.CascadeFolds` | csrc/kernels/bgmv_expand.cpp:252-280 | for each rank the cascade leaves the sum of each run of rank products |
| `Bgmv.TileComputes` | csrc/kernels/bgmv_expand.cpp:235-281 | a run of weights yields plain dot products and leaves earlier outputs alone |
| `Bgmv.CopyInX` | csrc/kernels/bgmv_expand.cpp:179-198 | the register holds copies of x |
| `Bgmv.AddOut` | csrc/kernels/bgmv_expand.cpp:216-233 | a tile of y gains the output buffer, and the buffer keeps the sums |
| `Bgmv.ProcessToken` | csrc/kernels/bgmv_expand.cpp:110-164 | every element of the slice gains what the specified kernel computes from the inputs, the old outputs and the former buffers, nothing outside it changes, and the buffers end as specified |
| `Bgmv.CoveredGain` | csrc/kernels/bgmv_expand.cpp:110-164 | an output whose weights lie in whole repeats gains the plain dot product, whatever y and the buffers held |
| `Bgmv.CoveredExactly` | csrc/kernels/bgmv_expand.cpp:132-164 | all outputs have their weights in whole repeats if and only if the slice's weights fill whole repeats |
| `Bgmv.UnreadWeights` | csrc/kernels/bgmv_expand.cpp:132-164 | the weights past the last whole repeat influence nothing the token gains |
| `Bgmv.RightExactly` | csrc/kernels/bgmv_expand.cpp:92-164 | the gain is the LoRA product for all inputs, old outputs and buffers if and only if the slice's weights fill whole repeats |
| `Bgmv.NinthOutput` | csrc/kernels/bgmv_expand.cpp:132-164 | for rank 8 and a slice of 9 the last output gains what the output buffer held before, which then holds that plus the old output |
| `Bgmv.PastWholeTile` | csrc/kernels/bgmv_expand.cpp:110-164 | for rank 8 and a slice of 4097 the last output gains the first output of the slice, old value included |
| `Bgmv.StaleOutput` | csrc/torch_binding.cpp:525-541 | the wrapper accepts these sizes, and with zero weights the kernel can add one where it should add zero |
| `Bgmv.LongSliceWrong` | csrc/torch_binding.cpp:525-541 | the wrapper accepts a slice of 4097, and with zero weights the kernel can add one to its last output whatever the buffers held |
| `Bgmv.OneCoreEach` | csrc/kernels/bgmv_expand.cpp:94-99 | every token is on exactly one of the launched cores |
| `Bgmv.RunCore` | csrc/kernels/bgmv_expand.cpp:92-123 | a core finishes its own tokens and changes no other row |
| `Bgmv.Launch` | csrc/kernels/bgmv_expand.cpp:350-362 | every token's row gains its kernel result exactly once, computed from its old row and some contents of the buffers; so each output with weights in whole repeats gains the sum of x[t * rank + r] * weights[lora * hidden * rank + o * rank + r], and tokens without a LoRA keep their row |
| `Bgmv.FinishedToken` | csrc/kernels/bgmv_expand.cpp:100-122 | element by element over the launch's own arrays, a finished row is the old one plus the token's own LoRA times its own x on the slice, for outputs whose weights lie in whole repeats |
| `KdaChunks.CheckCuSeqlens` | csrc/attention/kda_torch_adpt_common.h:27-45 | it accepts exactly the non-decreasing lists from 0 to the token count |
| `KdaChunks.AcceptedIsRunning` | csrc/attention/kda_torch_adpt_common.h:27-45 | accepted are exactly the running sums of the lengths of one or more sequences, empty ones included |
| `KdaChunks.CheckChunkIndices` | csrc/attention/kda_torch_adpt_common.h:47-76 | it accepts exactly the lists with the right number of pairs, all in range |
| `KdaChunks.AcceptedMeans` | csrc/attention/kda_torch_adpt_common.h:56-75 | an accepted list alternates a sequence and one of its chunks, as many times as there are chunks |
| `KdaChunks.TotalChunks` | csrc/attention/kda_torch_adpt_common.h:78-97 | counted from the lengths or from any accepted list, the total is the number of chunks the builder makes; without lengths it is the fewest that hold the sequence |
| `KdaChunks.BuildChunkIndices` | csrc/attention/kda_torch_adpt_common.h:99-116 | the chunks of all sequences in order, each as its sequence followed by its chunk number |
| `KdaChunks.BuiltAccepted` | csrc/attention/kda_torch_adpt_common.h:47-116 | what the builder builds the checker accepts, and the totals agree |
| `KdaChunks.ChunksTile` | csrc/attention/kda_torch_adpt_common.h:107-114 | the chunks' token ranges are non-empty, meet end to end and fill the sequences |
| `KdaChunks.OneChunkEach` | csrc/attention/kda_torch_adpt_common.h:99-116 | every token of an accepted batch is in exactly one built chunk |
| `KdaChunks.AcceptedIsPermutation` | csrc/attention/kda_torch_adpt_common.h:65-75 | an accepted list rearranges the built one if and only if it repeats no pair |
| `KdaChunks.RepeatAccepted` | csrc/attention/kda_torch_adpt_common.h:65-75 | a list that repeats one chunk and omits another is accepted, and the omitted chunk's tokens are in no listed chunk |
| `KdaChunks.QuotientTruncates` | csrc/attention/kda_torch_adpt_common.h:14-17 | division truncates toward zero, for negative lengths too |
| `CpuBinding.SlicesTile` | vllm_ascend/cpu_binding.py:473-510 | the slices follow one another, fill the CPUs and differ in length by at most one |
| `CpuBinding.SlicesDisjoint` | vllm_ascend/cpu_binding.py:503-510 | the slices of two NPUs share no CPU |
| `CpuBinding.SlicesCover` | vllm_ascend/cpu_binding.py:503-510 | every allowed CPU is in some slice |
| `CpuBinding.CpuAlloc.BuildGlobalSlices` | vllm_ascend/cpu_binding.py:442-515 | with known logical NPUs it fails exactly if there are fewer CPUs than the minimum for each or a visible id is foreign, and likewise for the fallbacks; else each visible NPU gets its slice and other pools stay |
| `CpuBinding.ResolveLogicId` | vllm_ascend/cpu_binding.py:131-144 | a resolved id is one the mapping gives the line, and the lookup fails exactly when it gives none |
| `CpuBinding.RunningNpus` | vllm_ascend/cpu_binding.py:146-178 | the running NPUs are exactly the visible ones some line resolves to; it fails exactly if a line cannot be resolved or there is no such NPU |
| `CpuBinding.AllLogicNpus` | vllm_ascend/cpu_binding.py:87-99 | the logical NPUs are exactly the logical ids of the mapping, in increasing order |
| `CpuBinding.StartProcess` | vllm_ascend/cpu_binding.py:60-66 | a process that starts sees, in increasing order, its running NPUs, some of the logical NPUs and at least one; it fails to start exactly when `RunningNpus` fails |
| `CpuBinding.StartedNeverOverlap` | vllm_ascend/cpu_binding.py:442-515 | whatever NPUs two started processes see, they never give one CPU to different NPUs, and an NPU both see has the same slice |
| `CpuBinding.HostShared` | vllm_ascend/cpu_binding.py:465-510 | with enough CPUs for logical NPUs 0, 1, ... every started process gets slices for all it sees, as even as can be with the larger ones first, each at least the minimum |
| `CpuBinding.EveryCpuGiven` | vllm_ascend/cpu_binding.py:465-510 | every allowed CPU is in the slice of some logical NPU |
| `CpuBinding.SharesInOrder` | vllm_ascend/cpu_binding.py:498-510 | across processes, smaller ids get smaller CPUs |
| `CpuBinding.NeverOverlapExactly` | vllm_ascend/cpu_binding.py:465-510 | the slicing function alone, on devices no process starts with as well: slices are disjoint if and only if the number of NPUs is known or there are too few CPUs for two |
| `CpuBinding.CpuAlloc.AllocateDefaultRoles` | vllm_ascend/cpu_binding.py:603-620 | it fails exactly when a pool is too small, else each pool is reserved, main, acl and release CPUs in that order |
| `CpuBinding.RolesDisjoint` | vllm_ascend/cpu_binding.py:603-620 | the roles of a pool share no CPU with one another or with those kept for interrupts |
| `CpuBinding.RolesNeverShared` | vllm_ascend/cpu_binding.py:603-620 | whatever two started processes see, no CPU has a role for an NPU of one and a different NPU of the other |
| `CpuBinding.SplittableExactly` | vllm_ascend/cpu_binding.py:529-533 | a pool has room for the reserved CPUs, the two threads and a main part if and only if it has the minimum |
| `CpuBinding.CpuAlloc.BuildClusters` | vllm_ascend/cpu_binding.py:375-440 | it succeeds exactly under the stated conditions, then gives each visible NPU its cluster; it raises exactly when the first NPU without a node has an unmapped CPU; otherwise it gives up, and in both cases the pools are unchanged |
| `CpuBinding.GroupByNode` | vllm_ascend/cpu_binding.py:393-406 | the NPUs are grouped by node in order, or the first without a single node decides between giving up and an error |
| `CpuBinding.UnmappedIs` | vllm_ascend/cpu_binding.py:328-334 | an NPU raises the error exactly if some allowed CPU close to it has no node |
| `CpuBinding.AssignClusters` | vllm_ascend/cpu_binding.py:408-430 | it fails exactly when a node has too few clusters, else every candidate gets its own |
| `CpuBinding.CandidatesAgree` | vllm_ascend/cpu_binding.py:386-391 | plans that succeed compete among the same NPUs, whatever each process sees |
| `CpuBinding.ClusterSound` | vllm_ascend/cpu_binding.py:408-430 | a cluster is full, on the NPU's node, allowed and off the uvb CPUs |
| `CpuBinding.SucceedsExactly` | vllm_ascend/cpu_binding.py:375-440 | a plan is made if and only if there is a topology, all visible NPUs are known, every competing NPU sits on one node and no node has fewer free CPUs than its competitors' clusters need |
| `CpuBinding.ClusterExactly` | vllm_ascend/cpu_binding.py:408-430 | a CPU goes to an NPU if and only if it is free on the NPU's node and lies, counted among the free CPUs there, in the cluster numbered by the competitors before the NPU |
| `CpuBinding.ClustersAgree` | vllm_ascend/cpu_binding.py:375-440 | across processes an NPU always gets the same cluster and different NPUs disjoint ones |

## Left out

- Planner modes without stable rows: both exported entry points refuse null workspace, plan and length pointers, so those branches cannot be reached.
- The entry points' argument checks (capacities within 16 bits, plan stride, enough physical rows) are preconditions of the planner's members.
- Flat pointer buffers: each row, plan and thread has arrays of its own; that pointer arithmetic keeps them apart is the layout precondition `Planner.Shape`.
- Planner.AnyScheduleGivesBatch: a step sees only its thread's scratch memory and its row's cell, which is the layout `Planner.Shape` describes; the steps are loop turns, not machine instructions, and the three control cells of a plan, which `Planner.RunStrided` covers, are not among them.
- The team size OpenMP actually grants, and the warm-up of its threads.
- ResidentCoherence.AttentionReadsPool: the attention operator and the host pool appear as rules (a negative code copies one token, the current token is injected at its slot, data below the stable prefix do not change), not as device code.
- RequestLaws.AllServed: for rows without repeated tokens, as all rows of runs with distinct selections are.
- The upper token bound is the same in all steps of a run, as the scratch memory is allocated for it.
- Locks, allocation failure and the runtime's graph capture are actions of the payload state machine, not modelled code.
- Documents.ApplySegment: what regular expressions find (URLs, link targets, reflowed occurrences) and which characters are white space are parameters.
- BatchCoherence.BatchReadsPool: takes batches of distinct requests; for several logical rows of one request `ResidentCoherence.AttentionReadsPool` covers each physical row.
- Markdown.SplitByCodeBlocks: the fence lines found by a regular expression are an input, and fence lengths are not compared because the code does not compare them, unlike section 4.5 of CommonMark 0.31.2.
- Bgmv.Launch: exact arithmetic without rounding or casts, one core after the other, no queues or double buffering, ranks 8, 16, 32 and 64 only.
- Transpose.TransposeByBlock: the device-side transpose itself and the device and dtype checks of its tensors; the block ids count only by their number.
- CpuBinding.CpuAlloc.BuildClusters: the cluster size is an input.
- CPU pools by topology affinity, thread and interrupt binding, and everything read from tools and files.
- Model definitions, attention kernels, schedulers, quantisation and operator registration.
