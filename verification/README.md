# Verification of the swarm

This project models the inference swarm and proves properties of the model: a language model is cut into slices of
consecutive layers, each slice lives on one node, and an orchestrator sends every call through the nodes in turn. The
parts are proved one by one and then put together: a generation served by the swarm returns, call by call, the
logits of one causally masked pass of the undivided model over the whole prefix, exactly as far as the undivided model
serves the call and its hidden states fit the wire.

| module | source | subject |
|---|---|---|
| `Wrappers` | | options, results, machine-integer bounds |
| `RangeReader` | `src/remote.rs` | buffered seekable reader over HTTP range requests |
| `HandOff` | `src/candle_backend.rs`, `src/crypto.rs` | hidden state on the wire: codec and envelope |
| `Attention`, `Transformer` | `src/quantized_llama.rs` | softmax attention; layers with key/value caches, as functions |
| `CacheCoherence` | `src/quantized_llama.rs` | caches agree with recomputation |
| `Reference` | `src/quantized_llama.rs` | what the model computes, written out from the weights without cache or mask; shift invariance |
| `LlamaModel` | `src/quantized_llama.rs` | the stateful layer and model objects, proved against `Transformer` |
| `Backend` | `src/candle_backend.rs`, `src/executor.rs` | one node's backend and executor, as functions |
| `CandleBackend` | `src/candle_backend.rs`, `src/executor.rs` | the backend and executor objects, proved against `Backend` |
| `SplitModel` | `src/executor.rs` | slices chained through the hand-off compute the whole model |
| `MixtureOfExperts` | `src/quantized_llama.rs` | top-k expert dispatch |
| `Capacity`, `Lifecycle` | `src/compute/`, `src/node/state.rs` | scoring; node states and hysteresis |
| `Allocation` | `src/orchestrator.rs` | proportional layer allocation |
| `Registry` | `src/node/registry.rs` | node entries and the serving order |
| `Pipeline` | `src/pipeline.rs` | tasks in flight over a list of stages |
| `Orchestrator` | `src/orchestrator.rs` | all operations over registry and pipeline |
| `Traffic` | `src/orchestrator.rs` | many tasks in flight over one registry |
| `TwoNodes` | `src/orchestrator.rs` | a swarm of two nodes, for the concrete runs |
| `StaleStages` | `src/orchestrator.rs` | three runs after which stages and registry are out of step |
| `Sweep` | `src/orchestrator.rs` | the whole swarm, end to end |
| `Premises` | `src/orchestrator.rs`, `src/executor.rs` | the premises of the end-to-end theorem are met together |

## How it is modelled

Everything the code changes step by step exists twice: as functions on values (`Transformer.LayerForward`,
`Backend.RunTask`, `Pipeline.Step`, `Orchestrator.Step`, `RangeReader.Step`), about which the theorems over runs are
proved, and as classes whose methods follow the source statement by statement and are proved equal to those functions.

- Tensor elements are 32-bit words with uninterpreted arithmetic. The only laws used are that adding zero changes
  nothing and that zero absorbs under product and quotient (`Attention.ZeroLaws`). Norms, projections, rotary
  embedding, feed-forward blocks and the output head are uninterpreted functions on rows.
- Shares, scores and expert weights are exact reals instead of `f32`.
- Clocks, nonces, status samples and whether the network gets a request through are inputs.
- The compressor and the cipher are exact inverses up to the decompression cap (`HandOff.Ideal`).
- That these premises can be met together, on a swarm that came about by announcements, is shown in `Premises`.
- Every orchestrator operation holds its locks throughout, so it is one atomic step.

Where the code does not have a property, the project shows where it fails and proves exactly when it holds:

- A batch after position zero is accepted only as long as no cache holds a key, and then the caches hold the batch
  alone; otherwise it is refused, and leaves caches changed (`LateBatchRefused`).
- A single token in mid-sequence is answered whatever the caches hold (`PositionUnchecked`); its logits are the
  prefix's only while they hold the prefix (`CachedRunIsRecomputation`). After a slice is reloaded they hold nothing
  (`SwitchingForgets`).
- A task without input for a later stage is not refused: its layers run on what they put out last
  (`EmptyInputRerunsOutput`).
- A prefetch whose end lies beyond 64 bits succeeds and leaves the buffer empty (`PrefetchCovers`).
- The executor's loop ends at the first task that fails (`LoopEndsAtFirstError`). The loop owns its backend, which goes
  with it. The theorems about runs of requests go on after a failed one, so they assume a driver that executes each
  task by itself and keeps the backend.
- A result does not name its stage, so a duplicate skips one (`DuplicateIsNextResult`).
- The head of the order need not be the first stage (`HeadDriftsFromFirstStage`, `StartsAtFirstStage`); a start goes to
  the head all the same (`StartGoesToBest`, `StartMissesFirstStage`).
- Rounding can leave a capable last node without layers (`ErrorBoundIsSharp`); the scores say when it does not
  (`NoneLeftOut`). A node without layers is asked for layer zero (`SpanIsSlice`).
- Draining the last node leaves its stage behind (`LastDrainLeavesStages`, `StagesAreRegistered`).
- Nodes that are no peers are dealt layers that no stage holds (`NonPeerHoldsLayer`, `StagesTileModel`).
- Of two nodes without capacity the second gets more layers when their number is odd (`SecondOfTwoGetsMore`,
  `FirstOfTwoNoFewer`).
- A hidden state whose encoding exceeds the decompression cap is lost (`HandOffRoundTrip`), and with it a call that
  the undivided model would serve (`PromptAboveCapIsLost`, `SplitIsWhole`).
- The documented ceiling of 0.80 for a Desktop holds for its processor score, but for the composite only up to
  10 GiB of memory (`DesktopAboveCeiling`, `DesktopHeadroom`).

The scoring formula follows `src/compute/capacity.rs`, which is not the formula of the repository's own README.

## Model

| member | source | states |
|---|---|---|
| RangeReader.StepRefinesPlainFile | src/remote.rs:58-121 | any read, seek or prefetch keeps the buffer a slice of the file and acts on the cursor as on a plain local file: a read returns the file's bytes at the cursor and returns none exactly when none are wanted or the cursor is at or past the end; seeks fail exactly outside the signed range |
| RangeReader.RunCoherent | src/remote.rs:58-121 | from a fresh reader, after any run of operations, the buffer equals the file slice at `buf_start` |
| RangeReader.RunRefinesPlainFile | src/remote.rs:58-121 | each operation of any run behaves as on a plain file, from the cursor the earlier ones left |
| RangeReader.ReadAmount | src/remote.rs:62-106 | a read inside the buffer delivers all that is wanted and left there, and requests nothing; one outside it requests the rest of the file or at least what is wanted and 256 KiB, and delivers all that is wanted or left in the file |
| RangeReader.PrefetchCovers | src/remote.rs:58-83 | a prefetch fails only offline, and then if there is anything to fetch; a successful one has the range buffered, unless its end lies beyond 64 bits |
| RangeReader.PrefetchServes | src/remote.rs:54-106 | after a successful prefetch any run of seeks and of reads inside the range requests nothing, and every read delivers all that it wants, online or not |
| RangeReader.ReadLoopDelivers | src/remote.rs:86-106 | a read-exact loop ends: unless a read fails, with exactly the wanted bytes or exactly those left in the file; after a failure with the bytes up to there and the cursor just after them; reads fail only when the server is out of reach |
| RangeReader.TrafficBound | src/remote.rs:20-83 | over any run, bytes pulled are at most bytes delivered plus bytes prefetched plus 256 KiB for every jump and one more |
| RangeReader.ScanFetchesOnce | src/remote.rs:62-106 | with reads only, the requested ranges follow on from one another, so no byte is fetched twice |
| RangeReader.ScanCoalesces | src/remote.rs:15-83 | however small its reads, a scan makes at most one request per read-ahead window of the file, and one more |
| RangeReader.HttpRangeReader.constructor | src/remote.rs:38-52 | a fresh reader is at position zero with an empty buffer and nothing fetched |
| RangeReader.HttpRangeReader.Fetch | src/remote.rs:63-83 | the object's state after a fetch is that of the step function; a failed request changes nothing |
| RangeReader.HttpRangeReader.DoPrefetch | src/remote.rs:58-60 | the prefetch step on the object |
| RangeReader.HttpRangeReader.Fill | src/remote.rs:91-95 | a read requests data only when the buffer does not cover the position, and then covers it |
| RangeReader.HttpRangeReader.CopyOut | src/remote.rs:96-104 | the output array begins with the bytes delivered and is otherwise unchanged |
| RangeReader.HttpRangeReader.DoRead | src/remote.rs:86-106 | the object's state, the count returned and the output array are those of the step function |
| RangeReader.HttpRangeReader.DoSeek | src/remote.rs:108-121 | the object's state and answer are those of the step function; seeking before the start fails and changes nothing |
| HandOff.CodecRoundTrip | src/candle_backend.rs:142-189 | decoding what was encoded restores any tensor, of any dimensions, bit for bit |
| HandOff.WireFormat | src/candle_backend.rs:142-189 | the encoding byte by byte: tag zero, the three dimensions and the element count in eight bytes each, and the elements in four, least significant byte first |
| HandOff.OthersCannotOpen | src/crypto.rs:77-118 | as far as the cipher refuses another key or other authenticated data, a state sealed for one task is refused under another task id or key |
| HandOff.HandOffRoundTrip | src/candle_backend.rs:153-189 | encoded, sealed, opened and decoded by nodes sharing key and task id, a hidden state is restored exactly if its encoding fits the decompression cap, and otherwise decompression fails |
| HandOff.WordsRoundTrip | src/candle_backend.rs:174-188 | the float payload survives little-endian serialisation |
| Attention.MaskIsPrefix | src/quantized_llama.rs:152-156 | filling scores with minus infinity before the softmax equals attending to the unmasked prefix only |
| Attention.SoftmaxIgnoresMasked | src/quantized_llama.rs:225-235 | masked positions get weight zero and do not change the weights of the others |
| Transformer.RunLayersAppend | src/quantized_llama.rs:611-624 | running two stacks of layers one after the other equals running their concatenation: results, errors and caches |
| CacheCoherence.RestartLayer | src/quantized_llama.rs:169-241 | a call at position zero computes the causal rows and leaves exactly their keys and values, whatever was cached |
| CacheCoherence.AppendLayer | src/quantized_llama.rs:205-216 | one token at the next position extends the cache to that of the longer sequence and computes its next causal row |
| CacheCoherence.RestartStack | src/quantized_llama.rs:611-624 | the same for a whole stack of layers, by induction over layers |
| CacheCoherence.AppendStack | src/quantized_llama.rs:611-624 | one more token through a whole stack: the new causal row and caches, and the earlier rows do not change |
| CacheCoherence.RefusedCall | src/quantized_llama.rs:159-163 | a call with unknown tokens or past the rotary tables fails and leaves all caches as they were |
| CacheCoherence.CallHolds | src/quantized_llama.rs:597-637 | one call keeps the caches in step with the context, succeeds exactly when it can be served, and answers as a recomputation |
| CacheCoherence.CachedRunIsRecomputation | src/quantized_llama.rs:597-637 | over every run of prompts at position zero and single tokens at consecutive positions, each served call returns the logits of one causally masked pass over the whole prefix from empty caches |
| Reference.ForwardIsReference | src/quantized_llama.rs:157-241 | a prompt at position zero, whatever is cached, gets the logits that the reference definition writes out from the weights alone, and leaves in every layer the values of its inputs and their keys, each rotated by its own position |
| Reference.RecomputeIsReference | src/quantized_llama.rs:597-637 | so the causal pass that all the theorems about runs compare with is that definition |
| Reference.PromptServed | src/quantized_llama.rs:159-163 | a prompt is answered if and only if it has at most 4096 tokens and their ids, read as unsigned, are in the vocabulary |
| Reference.ShiftInvariance | src/quantized_llama.rs:157-165 | if scores depend on the distance of two positions only, a batch on caches without keys gives the same rows at any offset as at zero, through any stack of layers |
| CacheCoherence.LateBatchRefused | src/quantized_llama.rs:205-235 | whatever is cached, a servable call succeeds if and only if it restarts, brings one token or finds no key in any cache; otherwise it stops at the first layer with keys, whose cache has grown by the batch, while those before hold the batch alone and those after are unchanged |
| CacheCoherence.LateBatchAfterContext | src/quantized_llama.rs:205-235 | with a context cached, a batch after position zero is refused by the first layer, and only its cache has grown |
| CacheCoherence.PositionUnchecked | src/quantized_llama.rs:205-216 | a single token is answered at any position within the tables, whatever the caches hold, and every cache grows by one; on empty caches it is answered without its prefix |
| LlamaModel.AttendMaskedIsAttend | src/quantized_llama.rs:225-235 | applying the square mask matrix to the scores is masking by position |
| LlamaModel.LayerIsAttentionThenFinish | src/quantized_llama.rs:611-624 | a layer is its attention block on all rows followed, row by row, by residual and feed-forward block |
| LlamaModel.FeedForward | src/quantized_llama.rs:616-623 | residual, norm, feed-forward block and residual computed batch by batch give each row's own result |
| LlamaModel.LayerWeights.ExtendCache | src/quantized_llama.rs:200-216 | the layer's cache is replaced at position zero or when empty, and otherwise extended, by the values and by the keys, each rotated by its own position (`Reference.ForwardIsReference`) |
| LlamaModel.LayerWeights.ForwardAttn | src/quantized_llama.rs:169-241 | outputs, errors and cache of the attention block, also when the position or the mask does not fit |
| LlamaModel.LayerWeights.Forward | src/quantized_llama.rs:611-624 | result and new cache of a layer equal the layer function's |
| LlamaModel.ModelWeights.constructor | src/quantized_llama.rs:376-549 | loads exactly the clamped slice, with empty caches, the embeddings if it starts at layer zero, and norm and head if it reaches the end |
| LlamaModel.ModelWeights.MaskOf | src/quantized_llama.rs:551-562 | whether found in the memo table or built, the mask of a side is the causal one |
| LlamaModel.ModelWeights.RunLoop | src/candle_backend.rs:237-257 | the layer loop gives the result, error and caches of the stack function on the visited layers and leaves the other caches alone |
| LlamaModel.ModelWeights.RunHeldLayers | src/candle_backend.rs:237-257 | the loop bounds computed from the requested range and the offset select exactly the visited layers |
| LlamaModel.ModelWeights.Forward | src/quantized_llama.rs:597-637 | the forward object method gives the answer, error and caches of the function on whatever part of a model is held, with or without embeddings and head |
| LlamaModel.ForwardOfSlice | src/quantized_llama.rs:597-637 | on a whole model that function is the undivided model's; a part without the first layer refuses every call and keeps its caches |
| LlamaModel.ForwardWithoutExit | src/quantized_llama.rs:597-637 | a part with the first layer but not the last never answers, and its caches become the undivided model's caches of those layers |
| Backend.LoadedSliceRuns | src/candle_backend.rs:206-280 | for any requested range, the loop over the slice loaded for it visits every held layer once and in order, inside bounds, and the embeddings, norm and head the range needs are there |
| Backend.PartsLoaded | src/quantized_llama.rs:425-455 | a node holds the embeddings if and only if its slice starts the model, and norm and head if and only if it ends it |
| Backend.AnyRangeRuns | src/candle_backend.rs:191-285 | whatever range a loaded node is asked for, in order or not, past the end or not: it runs the clamped slice of the model, answers with logits exactly if the range reaches the end, and keeps its output as its state |
| Backend.FailedRunUsesUp | src/candle_backend.rs:210-227 | away from the entry a failed run uses up the received state: the next run finds none and fails without touching the caches |
| Backend.NothingWithoutSource | src/candle_backend.rs:78-133 | without a source every task for a slice that is not resident fails and changes nothing |
| Backend.ReceptionReplaces | src/candle_backend.rs:153-172 | a received state replaces the stored one if and only if it is not empty and decodes; otherwise the node is as it was |
| Backend.SealedAfresh | src/executor.rs:103-117 | as far as the cipher tells nonces apart, two executions of a task differ in what they send and in nothing else |
| Backend.SwitchingForgets | src/candle_backend.rs:78-133 | a slice asked for again keeps its caches; with another slice loaded in between it comes back without caches and without a received state |
| Backend.TilingLoadsModel | src/quantized_llama.rs:425-455 | slices loaded for a tiling concatenate to the full layer list, with the first as the only entry and the last as the only exit |
| Backend.FlattenRoundTrip | src/candle_backend.rs:174-177 | flattening a hidden state and cutting it up again by its dimensions restores the rows |
| CandleBackend.CandleBackend.constructor | src/candle_backend.rs:33-42 | a new backend holds no model, no source and no state |
| CandleBackend.CandleBackend.SetModelSource | src/candle_backend.rs:60-64 | registering a source drops the resident slice and keeps the received state |
| CandleBackend.CandleBackend.EnsureLayers | src/candle_backend.rs:78-133 | keeps the resident slice if it is the one asked for; otherwise loads it with empty caches and drops the received state; fails without a source |
| CandleBackend.CandleBackend.SetState | src/candle_backend.rs:153-172 | stores the decoded tensor; empty input changes nothing; undecodable input fails and changes nothing |
| CandleBackend.CandleBackend.GetState | src/candle_backend.rs:174-189 | the encoding of the stored state, or nothing |
| CandleBackend.CandleBackend.TakeInput | src/candle_backend.rs:210-227 | the entry embeds the tokens and keeps the stored state; every other node takes the stored state, even if the run then fails |
| CandleBackend.CandleBackend.RunLoop | src/candle_backend.rs:229-257 | the layer loop changes nothing of the node but its caches, and those as the stack function does |
| CandleBackend.CandleBackend.KeepOutput | src/candle_backend.rs:259-280 | the new hidden state is stored, and projected to logits only at the exit |
| CandleBackend.CandleBackend.RunLayers | src/candle_backend.rs:191-285 | answer and new state of the backend equal the function on values, on every path |
| CandleBackend.Executor.Receive | src/executor.rs:76-101 | the slice is ensured before the received state is opened and injected; the first error stops |
| CandleBackend.Executor.RunAndSeal | src/executor.rs:103-117 | the new state is extracted after the run and sealed under the task id |
| CandleBackend.Executor.RunTask | src/executor.rs:59-120 | executing a task message on the backend object equals the function on values that the split-model theorems are about |
| CandleBackend.Executor.RunLoop | src/executor.rs:42-56 | the loop sends what the function on values sends, and leaves its node and error |
| Backend.LoopEndsAtFirstError | src/executor.rs:48-56 | the loop sends one result for each task up to the first that fails, for all of them if and only if none fails |
| SplitModel.SealedStateOpens | src/executor.rs:85-117 | a sealed hidden state that fits the cap opens, under the same key and task id, to what was sealed |
| SplitModel.SealedStateLost | src/crypto.rs:70-73 | a sealed hidden state that does not fit cannot be received |
| SplitModel.StageReceives | src/executor.rs:76-101 | receiving a task loads its slice and makes its rows available without touching the caches |
| SplitModel.ResidentRuns | src/candle_backend.rs:191-285 | a resident slice computes exactly its layers of the model on the rows it received |
| SplitModel.EmptyInputRerunsOutput | src/executor.rs:80-101 | a task without input for a resident later slice is executed, on the output of the run before |
| SplitModel.ExecutorMeets | src/executor.rs:59-120 | for every node and fitting task the executor runs exactly the slice asked for, a layer's error is the answer's error, and the output opens to the slice's result or, if that does not fit, cannot be received; a task that brings an unreceivable state or unknown tokens is refused and changes no cache |
| SplitModel.ChainIsRest | src/executor.rs:59-120 | from any stage on, the chain of slices computes what the rest of the undivided model computes, if there is one stage or the states fit |
| SplitModel.LostAfterFirst | src/executor.rs:85-96 | if they do not, the chain ends with the first stage's error or the second's refusal; only the first stage's caches have moved |
| SplitModel.SplitIsWhole | src/candle_backend.rs:153-285 | for every cut into non-empty slices, every node state and every call with tokens: answer and caches are those of the split model's function; the call succeeds if and only if the undivided model's does, its initial state can be received and its hidden states fit the wire or have none to cross; when it gets through, errors and caches are the monolithic forward's too |
| SplitModel.PromptAboveCapIsLost | src/crypto.rs:70-73 | a prompt of 4096 tokens at width 16384 is served by the undivided model and lost by every split of it |
| SplitModel.SplitRunKeepsCaches | src/candle_backend.rs:153-285 | after every run of calls, refused, lost or delivered, the slices' caches concatenate to those of the split model's function |
| SplitModel.DeliveredCallsAreWhole | src/candle_backend.rs:153-285 | if all calls get through, those are the undivided model's caches after the same calls |
| SplitModel.SplitCallHolds | src/candle_backend.rs:153-285 | one call keeps the slices' caches in step with their context, which a call refused at the entry leaves alone and a lost call empties, and answers as a recomputation |
| SplitModel.DeliveredContext | src/candle_backend.rs:153-285 | if all calls get through, that context is the undivided model's |
| SplitModel.SplitRunIsRecomputation | src/candle_backend.rs:153-285 | after any run of calls that restart or append one token to what the slices hold, the next is answered if and only if it is servable and gets through, and then with the logits of one causal pass of the undivided model over the whole prefix |
| MixtureOfExperts.TopK | src/quantized_llama.rs:79-82 | selected experts are distinct, no unselected expert outweighs a selected one, and ties go to the lower index |
| MixtureOfExperts.SharesSumToOne | src/quantized_llama.rs:81-92 | for k at least one, each row's normalised weights sum to one |
| MixtureOfExperts.RowsIncreasing | src/quantized_llama.rs:76-87 | each expert's row list is strictly increasing |
| MixtureOfExperts.RowsExact | src/quantized_llama.rs:76-87 | each expert's row list holds exactly the rows that select it |
| MixtureOfExperts.WeightsAligned | src/quantized_llama.rs:82-92 | the weight at an index of an expert's list is the normalised weight of the row at that index |
| MixtureOfExperts.EntriesTotal | src/quantized_llama.rs:76-87 | over all experts the lists have rows times min(k, experts) entries |
| MixtureOfExperts.SumsAgree | src/quantized_llama.rs:98-117 | accumulating by expert index gives the weighted sum by rank |
| MixtureOfExperts.RankExperts | src/quantized_llama.rs:79-80 | the stable sort yields the ranking whose order and completeness are proved |
| MixtureOfExperts.Route | src/quantized_llama.rs:76-93 | the two passes over every row build, for every expert, its row list and its aligned weight list |
| MixtureOfExperts.PushRow | src/quantized_llama.rs:81-87 | the first pass sums the selected weights and appends the row to the selected experts' lists, and to no other |
| MixtureOfExperts.PushWeights | src/quantized_llama.rs:88-92 | the second pass appends the normalised weight to the selected experts' lists, and to no other |
| MixtureOfExperts.RunExpert | src/quantized_llama.rs:111-115 | gathering an expert's rows and scaling its outputs gives each listed row's weighted output |
| MixtureOfExperts.IndexAdd | src/quantized_llama.rs:116-116 | scattering adds each result to its row and changes no other row |
| MixtureOfExperts.AddExpert | src/quantized_llama.rs:99-117 | one expert's turn, skipped when no row selects it, keeps the accumulator the partial sum by expert index |
| MixtureOfExperts.Forward | src/quantized_llama.rs:58-121 | for any rows, experts and k, every output row is the sum over its top-k experts of normalised weight times the expert's output on that row alone, the average that `MoeRowIsAverage` describes |
| MixtureOfExperts.MoeRowIsAverage | src/quantized_llama.rs:81-117 | for k at least one, every coordinate of an output row times the sum of the selected weights is the sum of the selected experts' coordinates times their weights, and it lies between any bounds of those coordinates |
| Capacity.CompositeIsFraction | src/compute/capacity.rs:102-137 | the composite lies between zero and one, for all inputs |
| Capacity.CompositeMonotone | src/compute/capacity.rs:102-137 | the composite never rises with processor use, latency, heat or reservations and never falls with free memory |
| Capacity.HeatCosts | src/compute/status.rs:89-96 | of the score at a nominal temperature a warm device keeps 85%, a throttling one 40% and a critical one nothing |
| Capacity.LatencyCosts | src/compute/capacity.rs:102-137 | every millisecond of latency costs a two-thousandth of the score, up to a second, which halves it |
| Capacity.WorthOfEach | src/compute/capacity.rs:102-137 | without a reservation an idle processor alone is worth 0.6 and free memory alone 0.4, each in proportion |
| Capacity.ReservationCapsScore | src/compute/capacity.rs:11-26 | the reserved processor share caps both scores, and the memory offered is what the reservation leaves of the free memory, so the user keeps headroom |
| Capacity.CeilingNeedsMemory | src/compute/capacity.rs:102-137 | the composite stays at or below the unreserved processor share, for every plausible status, if and only if at least the same share of the memory is reserved |
| Capacity.DeviceHeadroom | src/compute/capacity.rs:41-64 | for each type of device, the processor score that it reaches when idle and never exceeds, and the size of memory up to which that is also a ceiling for the composite |
| Capacity.DesktopHeadroom | src/compute/capacity.rs:24-25 | a Desktop's processor score never exceeds 0.80; its composite does not either, for every plausible status, if and only if it has at most 10240 MB of memory |
| Capacity.DesktopAboveCeiling | src/compute/capacity.rs:24-25 | an idle Desktop with 204800 MB of free memory has a composite of 0.876 |
| Capacity.CustomHeadroom | src/compute/capacity.rs:67-72 | a custom reservation is between 0 and 95% of the processor and keeps its ceiling on the same terms |
| Lifecycle.SwitchesCost | src/node/registry.rs:110-121 | from any score, every switch after the first costs at least the distance between the thresholds |
| Lifecycle.HysteresisBound | src/node/registry.rs:110-121 | over any list of scores, k switches by the two thresholds need a total variation of at least 0.05 (k - 1) |
| Lifecycle.StateAfterScores | src/node/registry.rs:110-121 | after any run of scores a node is degraded if and only if one was below 0.1 and none since reached 0.15, or it was degraded before and none reached 0.15 |
| Lifecycle.LegalLife | src/node/state.rs:75-90 | on every legal path from Joining: Joining comes first only, serving states only after Ready, Degraded only just after Active, Left only at the end, and from Draining if the node was ever ready |
| Lifecycle.LivesGoOn | src/node/state.rs:75-90 | every state but Left leads to Left, through Draining once the node was ready; and a degraded node may become active again |
| Allocation.BoundariesMonotone | src/orchestrator.rs:268-294 | slices start at zero, never go back, and end with the model |
| Allocation.EndBeforeClamping | src/orchestrator.rs:286-289 | before clamping a slice ends at most at twice the layer count, so the 32-bit sum cannot wrap for models below 2^31 layers |
| Allocation.BoundaryError | src/orchestrator.rs:280-294 | despite rounding and clamping the i-th boundary is within i/2 layers of its ideal |
| Allocation.LastCountError | src/orchestrator.rs:283-294 | the last node's count is within (n - 1)/2 layers of its ideal share |
| Allocation.ErrorBoundIsSharp | src/orchestrator.rs:280-294 | for every n there are scores that reach the bound: the last node, due (n - 1)/2 layers, gets none |
| Allocation.HigherScoreNoFewerLayers | src/orchestrator.rs:280-294 | outside the fallback, among nodes before the last a higher score never gets fewer layers |
| Allocation.FirstOfTwoNoFewer | src/orchestrator.rs:242-294 | of two nodes the first gets no fewer layers if and only if there is some capacity or the number of layers is even |
| Allocation.SecondOfTwoGetsMore | src/orchestrator.rs:243-266 | of three layers and two nodes without capacity the second gets two |
| Allocation.BoundaryIsRounded | src/orchestrator.rs:280-294 | clamping slice after slice is clamping the sum of the rounded shares once |
| Allocation.NoneLeftOut | src/orchestrator.rs:242-294 | every node gets a layer if and only if each before the last is due at least half a layer and their rounded shares do not use up the model, or, without any capacity, there is a layer for each |
| Allocation.FallbackNearlyEqual | src/orchestrator.rs:243-266 | without any capacity all counts are equal except for the remainder, below n, at the last node |
| Registry.InsertRanked | src/node/registry.rs:171-181 | inserting a node by score, then id, keeps a list ranked |
| Registry.OrderUnique | src/node/registry.rs:171-181 | a set of nodes has only one serving order, however the map enumerates it |
| Registry.StrLessIsLexicographic | src/node/registry.rs:171-181 | ids with equal scores are compared at the first position where they differ, or by length |
| Registry.NodeRegistry.constructor | src/node/registry.rs:49-53 | a new registry is empty |
| Registry.NodeRegistry.DoRegister | src/node/registry.rs:59-79 | the entry starts from scratch in Joining, with the default reservation and no layers |
| Registry.NodeRegistry.DoMarkReady | src/node/registry.rs:82-93 | legal only from Joining; stores the status and its capacity; an error changes nothing |
| Registry.NodeRegistry.DoUpdateStatus | src/node/registry.rs:97-125 | new status, time, capacity and state, and whether the score moved by more than 0.15, which is what makes the orchestrator rebalance (`Orchestrator.ServedAfter`) |
| Registry.NodeRegistry.DoHeartbeat | src/node/registry.rs:128-132 | only the time of a known node changes |
| Registry.NodeRegistry.Remove | src/node/registry.rs:135-137 | exactly that node is gone |
| Registry.NodeRegistry.DoAssignLayers | src/node/registry.rs:184-200 | only that node's layers change, and Ready becomes Active |
| Registry.NodeRegistry.SortedByCapacity | src/node/registry.rs:171-181 | the nodes that accept tasks, each once, by descending score and then ascending id |
| Pipeline.Independence | src/pipeline.rs:63-169 | over fixed stages a task's replies and record are those of a run with its own events only, in any interleaving |
| Traffic.Independence | src/orchestrator.rs:298-373 | the same for requests and results at the orchestrator, over a fixed registry from which the layer ranges come |
| Traffic.AcceptedWhenRegistered | src/orchestrator.rs:347-373 | a result is accepted if and only if its task is in flight under that sequence number and the next stage's node, if any, is registered; otherwise nothing changes |
| Pipeline.InterleavingsAgree | src/pipeline.rs:63-169 | two interleavings with the same events of a task give it the same replies |
| Pipeline.RejectedChangesNothing | src/pipeline.rs:120-169 | a result is accepted if and only if its task is in flight under that sequence number; others change nothing |
| Pipeline.DuplicateIsNextResult | src/pipeline.rs:132-166 | the same result handled twice is accepted again if and only if a stage follows; it then passes for that stage's result, and the stage after it gets the old output |
| Pipeline.AcceptedUsesOneStage | src/pipeline.rs:120-169 | every accepted result lowers the sum of remaining stages over active tasks by exactly one |
| Pipeline.NResultsFinish | src/pipeline.rs:63-169 | with n stages, n - 1 results yield the next stages in order with unchanged tokens, and the n-th finishes the task with its logits |
| Pipeline.TicketAgrees | src/pipeline.rs:20-24 | the ticket sent with a task points at the node it is sent to and names the same next peer as the pipeline will |
| Pipeline.InferencePipeline.constructor | src/pipeline.rs:53-55 | no stages, no tasks |
| Pipeline.InferencePipeline.UpdateStages | src/pipeline.rs:58-60 | replaces the stages and keeps the tasks in flight |
| Pipeline.InferencePipeline.DoStartSequence | src/pipeline.rs:63-105 | message and new record equal those of the step function; without stages nothing happens |
| Pipeline.InferencePipeline.DoGetNextPeer | src/pipeline.rs:108-116 | the stage after the task's current one, if any |
| Pipeline.InferencePipeline.DoHandleTaskResult | src/pipeline.rs:120-169 | answer and new record equal those of the step function, on every path |
| Orchestrator.RebalanceTiles | src/orchestrator.rs:228-295 | after a rebalance the serving nodes' layers, in order, are exactly 0..total-1, each once, and the stages are those nodes that are peers |
| Orchestrator.RebalancedEntries | src/orchestrator.rs:228-295 | a rebalance changes entries only in their layers, and from Ready to Active |
| Orchestrator.OrderAfterRebalance | src/orchestrator.rs:228-295 | a rebalance does not change the serving order |
| Orchestrator.RebalanceServesNow | src/orchestrator.rs:228-295 | after a rebalance the stages are exactly the peers among the nodes then Active, which were Active or Ready before, in descending order of score, and the Active nodes hold every layer of the model, each at exactly one of them |
| Orchestrator.RebalanceKeepsIdle | src/node/registry.rs:160-162 | a rebalance leaves a node that is neither Active nor Ready, so also a Degraded one, exactly as it was |
| Orchestrator.RebalancesExactly | src/orchestrator.rs:70-206 | an operation rebalances if and only if a node announces itself, a report moves a score by more than 0.15, a drain leaves somebody, or a prune removes some nodes and leaves some |
| Orchestrator.ServedAfter | src/orchestrator.rs:70-206 | after each of these operations stages and layers are those of the nodes then Active, as after a rebalance |
| Orchestrator.DegradedAreLeftOut | src/node/state.rs:92-94 | after any run, a node that was Degraded at the last rebalance is no stage, and holds the layers that it held before it |
| Orchestrator.RunKeeps | src/orchestrator.rs:70-206 | after any run of operations every node is Active or Degraded, Degraded implies a score below 0.15, stored capacities are those of the stored inputs, and, unless the registry is empty, the stages come from an order whose layers tile the model |
| Orchestrator.RunFollows | src/orchestrator.rs:70-206 | after any run, while a node is registered, nodes, stages and layers are those of the last rebalance, which the operations alone determine |
| Orchestrator.StagesTileModel | src/orchestrator.rs:228-295 | after any run, while a node is registered, the stages are the peers in the order of the last rebalance, distinct and registered, and their layers in stage order are exactly the model's if and only if that rebalance dealt no layer to a node that is not a peer |
| Orchestrator.RebalanceServesAll | src/orchestrator.rs:228-295 | after a rebalance every serving node holds a layer if and only if the scores leave none out |
| Orchestrator.RunServesAll | src/orchestrator.rs:70-206 | after any run the nodes of the last rebalance all hold layers if and only if its scores left none out |
| Orchestrator.PeerStagesTileModel | src/orchestrator.rs:70-206 | while a node is registered, and all registered ids are peer ids, non-empty stages always tile the model |
| Orchestrator.StagesAreRegistered | src/orchestrator.rs:156-160 | after any run the stages name registered nodes if and only if a node is registered or there are no stages |
| Orchestrator.LegalTransitions | src/node/state.rs:75-90 | from before to after any operation, a node that stays registered and does not announce itself anew changes its state legally or not at all |
| Orchestrator.AnnouncedStepByStep | src/orchestrator.rs:81-86 | the announcing node passes from Joining to Ready to Active within the operation, each change legal |
| Orchestrator.RunHysteresis | src/node/registry.rs:97-125 | over any stretch of any run in which a node stays registered, k switches between Active and Degraded need a total variation of its reported scores of at least 0.05 (k - 1) |
| Orchestrator.JoinedIsActive | src/orchestrator.rs:70-98 | an announced node is registered, active and scored by its own profile and status, whatever it was before |
| Orchestrator.EntryAfterRun | src/node/registry.rs:97-125 | as long as a node stays registered after an announcement, its profile and reservation are those of the announcement, its score that of the last status it sent, and it is Degraded if and only if one of its reported scores was below 0.1 and none since reached 0.15 |
| Orchestrator.SmallReportMovesNothing | src/orchestrator.rs:107-138 | a report that moves a node's score by at most 0.15 moves no layers and no stages, and touches no other node |
| Orchestrator.ReplyCarriesChange | src/orchestrator.rs:107-138 | the reply to a report carries layers if and only if the node's stored layers differ before and after, and then the new ones; only an unknown node is an error, and changes nothing |
| Orchestrator.RegisteredWhileHeard | src/orchestrator.rs:70-206 | after any run a node is registered if and only if it announced itself and was since neither drained nor pruned as silent, and its last news is what the operations say |
| Orchestrator.PrunedWhenSilent | src/orchestrator.rs:177-206 | however much happens to others in between, a node is pruned if and only if more than the timeout in whole seconds has passed since its last announcement, report or heartbeat |
| Orchestrator.LargerScoreServesMore | src/orchestrator.rs:228-295 | a strictly larger score serves earlier and, outside the fallback, gets at least as many layers as any non-last node below it |
| Orchestrator.StartGoesToBest | src/orchestrator.rs:298-344 | whatever the stages are, a start sends a task to the Active or Ready node that no other such node is ahead of, for exactly the layers that it holds; without stages nothing starts, and a node that is no peer is an error |
| Orchestrator.NothingStarts | src/orchestrator.rs:302-310 | without an Active or Ready node nothing starts and nothing changes |
| Orchestrator.RunConsecutive | src/orchestrator.rs:243-294 | after any run every node, serving or not, holds consecutive layers, so the range of a start names exactly those |
| Orchestrator.OrchestratorNode.constructor | src/orchestrator.rs:53-64 | an empty registry and pipeline |
| Orchestrator.OrchestratorNode.ParsePeers | src/orchestrator.rs:274-277 | keeps the ids that are peer ids, in order |
| Orchestrator.OrchestratorNode.ShareEqually | src/orchestrator.rs:243-266 | the running counter assigns the slices between the fallback boundaries |
| Orchestrator.OrchestratorNode.EndLayer | src/orchestrator.rs:281-289 | rounding, last-node remainder and clamping land on the next boundary |
| Orchestrator.OrchestratorNode.ShareInProportion | src/orchestrator.rs:268-294 | the loop over the running layer assigns the slices between the boundaries |
| Orchestrator.OrchestratorNode.RebalanceLayers | src/orchestrator.rs:228-295 | registry and stages afterwards are those of the rebalance function, so the Active nodes hold the model and their peers are the stages (`RebalanceServesNow`) |
| Orchestrator.OrchestratorNode.HandleAnnounce | src/orchestrator.rs:70-98 | the announce step, which never fails here, and a reply with the layers the node was given |
| Orchestrator.OrchestratorNode.HandleStatusUpdate | src/orchestrator.rs:107-138 | the report step; unknown nodes fail; a reply carries new layers exactly when a significant change moved them |
| Orchestrator.OrchestratorNode.HandleHeartbeat | src/orchestrator.rs:166-174 | the heartbeat step |
| Orchestrator.OrchestratorNode.HandleDrain | src/orchestrator.rs:143-163 | the node is removed whatever its state, and the rest rebalanced unless nobody is left |
| Orchestrator.OrchestratorNode.PruneDeadNodes | src/orchestrator.rs:177-206 | exactly the expired nodes are removed, with one rebalance if some went and some are left |
| Orchestrator.OrchestratorNode.DoStartSequence | src/orchestrator.rs:298-344 | the task goes to the head of the current order, stage or not, for exactly its layers, sealed under the task id (`StartGoesToBest`) |
| Orchestrator.OrchestratorNode.DoHandleTaskResult | src/orchestrator.rs:347-373 | the next task carries the layers registered for the next stage's node; an unregistered next node drops the result |
| StaleStages.HeadDriftsFromFirstStage | src/orchestrator.rs:314-327 | for any two peers, a run after which the head of the order is not the first stage |
| StaleStages.StartMissesFirstStage | src/orchestrator.rs:314-343 | on that run, with a model of two layers, a start goes to the second stage for the second layer |
| StaleStages.LastDrainLeavesStages | src/orchestrator.rs:156-160 | for any peer, a run after which nobody is registered but a stage remains |
| StaleStages.NonPeerHoldsLayer | src/orchestrator.rs:274-293 | for any peer and any id that is none, a run after which a layer is held by no stage |
| Sweep.StartsAtFirstStage | src/orchestrator.rs:298-344 | a started sequence goes to the first stage for its slice if and only if the head of the order is still the first stage |
| Sweep.HeadAfterRebalance | src/orchestrator.rs:228-295 | right after a rebalance over peers that condition holds |
| Sweep.SpanIsSlice | src/orchestrator.rs:360-362 | a node is asked for exactly the slice it owns if and only if it holds a layer; otherwise for layer zero |
| Sweep.TilingAligns | src/orchestrator.rs:268-294 | distinct stages that each hold a layer and tile the model own consecutive non-empty slices |
| Sweep.NextOnItsWay | src/orchestrator.rs:347-373 | a result sends the next stage its slice, the same tokens and what the last stage sealed; after the last stage it finishes |
| Sweep.SweepIsChain | src/orchestrator.rs:347-373 | from any stage the sweep visits the remaining stages once each, in order, for their slices, and ends as the chain of those stages |
| Sweep.SealedOffers | src/orchestrator.rs:329-333 | the first stage can receive a sealed initial state if and only if that is empty, or decodes and fits the cap |
| Sweep.ServeIsWhole | src/orchestrator.rs:298-373 | a request with tokens, served end to end, gives the split model's answer and leaves its caches; logits come back if and only if the undivided model answers, the initial state can be received and the hidden states get from stage to stage; then the tasks cover the layers in order at the nodes that own them |
| Sweep.ServeAllIsRun | src/orchestrator.rs:298-373 | serving requests one after another keeps the swarm in service and takes its nodes through the run of the split model |
| Sweep.SwarmGenerates | src/orchestrator.rs:298-373 | after any run of requests that restart or append one token to what the nodes hold, refused, lost or delivered, the next is answered with logits if and only if the undivided model can serve it and it gets through, and they are those of one causal pass over the whole prefix, as the reference definition writes them out |
| Sweep.TilingInService | src/orchestrator.rs:298-344 | distinct registered stages that tile the model form a swarm in service if and only if the head of the order is the first stage and each stage holds a layer |
| Sweep.RunIsInService | src/orchestrator.rs:70-206 | after any run with peer ids only, whose stages' nodes reach the model, the swarm is one to which those theorems apply if and only if the head of the order is still the first stage and the scores of the last rebalance left no node without layers |
| Premises.ExecutorsAreDutiful | src/executor.rs:59-120 | the executors of nodes sharing a key meet, in every round, the duty that the swarm theorems ask for, and echo task and sequence |
| Premises.TwoNodesInService | src/orchestrator.rs:70-98 | any two peers announced one after the other share a model of two layers and form a swarm in service |
| Premises.TwoNodesGenerate | src/orchestrator.rs:298-373 | on that swarm, with those executors, any prompt and any token after it are answered with the undivided model's logits on both |
| Premises.ToyGenerates | src/orchestrator.rs:298-373 | one instance with a concrete envelope, model, world, prompt and token, and no premise left but that two peers join |

## Left out

- Rounding of `f32` in scores, shares and expert weights (exact reals), and NaN and signed zeros in attention (`Attention.ZeroLaws`).
- Numeric kernels, rotary tables, quantised products and the Metal attention kernel: uninterpreted functions on rows. The dense block and the expert block are one uninterpreted `ffn`; that the expert block acts row by row is `MixtureOfExperts.Forward`.
- MixtureOfExperts.Forward: as many routing weights as experts; the code panics on a selected expert that does not exist.
- Batches other than one sequence, and calls without tokens, on which the code underflows or fails inside the tensor library.
- One cache per node: theorems about inference are for one sequence at a time, as the position of a call is its sequence number.
- Reading GGUF and GGML files, tensor names and missing tensors: a model source is the list of its layers, and loading a slice of it does not fail. `load_model`, which loads all layers at once, is not modelled.
- The `Q8_0` and tuple encodings that `set_state` also accepts: not written by `get_state`; decoding them is an error here.
- The inside of zstd and AES-GCM, and failures of compression and encryption: `HandOff.Ideal` is a premise.
- HTTP beyond exact range answers: short replies, redirects, servers that ignore ranges; the length is that of the file, below 2^63.
- Wrap-around of the diagnostic counter of fetched bytes and of the 32-bit layer sums; for the latter `Allocation.EndBeforeClamping` gives the bound. Overflow panics of debug builds: additions that can overflow wrap as in release builds.
- Stages replaced while tasks are in flight: theorems about a task from start to finish assume fixed stages.
- Id parsing: a node id either is a peer id, printed as itself, or is none.
- Locks and their poisoning, channels, logging, `src/p2p.rs`, `src/transport.rs`, `src/llama_backend.rs`, `src/wgpu_backend.rs`, and sampling of device status.
- Degraded nodes keep the layers they had when others are reassigned: tiling is about the nodes in the stage list.
