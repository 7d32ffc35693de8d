# Kestrel-Q: a verified model of the inference engine's state

Kestrel-Q runs one quantised language model on a CPU, in C. What is hard in it is not the arithmetic
but the state: every layer carries caches, shift registers and recurrent matrices across calls, every
call may fail half-way, and whatever is computed one token at a time must be what would have been
computed all at once. This project models that state and the algorithms around it, and proves

* that decoding after a prefill gives the logits and the layer states of a prefill of the longer
  prompt, although a prefill goes layer by layer and a decode goes token by token;
* that a decode step is all or nothing whichever layer, selector or tokenizer step fails, that a
  failed prefill poisons the state, and that every run of calls with failures anywhere keeps all layers
  in step;
* that a layer run stage by stage over all tokens, and a model run layer by layer, are the run of one token
  after the other through all stages and all layers, failures included;
* that each streaming operator (sparse attention, gated delta rule, n-gram addresses, embedding
  values) agrees with a specification over the whole history, however its input is cut into calls;
* that the sampler scales, sorts, truncates and draws as documented, and that its generator moves by one step
  on success and not at all on failure;
* that three of the four selection algorithms meet one specification of "top k", and exactly when the
  fourth, the router's, does;
* that the GGUF parser accepts exactly the encodings of well-formed directories, and that the tensor
  spans it hands out are disjoint and inside the file;
* that the streaming hash is SHA-256, and that in the one block of scratch memory of a call the buffers
  of model, layer and operator and the decoded weights never overlap and never leave the computed size.

## How to read it

The engine's floats are a type of bit patterns; projections, norms, attention, gating and experts are
kernels, that is arbitrary deterministic functions that may fail. A theorem about state therefore holds
for any arithmetic. Where a property is about numbers (the delta rule, the cuts of the sampler, the
routing weights) it is proved over exact reals.

Code that changes state is a class with the fields of the C structure (`StreamState`, `ValueState`,
`GdnState`, `QsaState`, `LayerState`, `ModelState`, `SampleContext`, `RngState`, `Context`, `Reader`) or a method over
arrays, with the loops of the source. Each is proved against a specification function, and the
theorems are lemmas about those functions. `Streaming.Run` is the common shape of the operator
specifications: one step per token, failing as a whole.

| file | what it models |
|---|---|
| `Foundation`, `Streaming`, `FlatIndex`, `Totals` | shared definitions, runs of a step function, flat indices, sums of reals |
| `Selection`, `MoeSelection`, `MoeTies`, `MoeRoute` | top-k selection in its four forms, routing weights and the mixture of experts |
| `ShiftRegister`, `PleAddress`, `PleStream`, `PleValue`, `PleHistory` | shift registers; n-gram addresses and values, and both from the whole token sequence |
| `Gdn`, `GdnHistory`, `GdnReal` | gated delta-rule recurrence, its outputs from the whole sequence, and its bounds over the reals |
| `Qsa`, `QsaHistory`, `QsaState` | sparse attention: what is attended, the outputs from the whole sequence, and the committed and pending caches |
| `Layer`, `LayerState`, `Model`, `Delivery`, `ModelExec` | the two-slot layer, the end of a call, and the transactional model executor |
| `LayerTokens`, `ModelTokens` | layer and model written a second time, token by token, and that both are the same |
| `Rng`, `MergeSort`, `Truncation`, `Categorical`, `Sampler`, `SamplerLaws`, `Selectors` | the sampler, what its distribution means for the logits, and both selectors as the executor sees them |
| `Example` | one small model: the premises of the main theorem can be met, and a failed prefill can leave text behind |
| `Utf8`, `GgufFormat`, `GgufDirectory`, `GgufLayout`, `GgufReader`, `GgufFile` | the GGUF file format byte by byte, and its reader |
| `Sha256`, `Sha256Known` | the hash, and the standard's example |
| `Regions`, `OperatorScratch`, `ScratchLayout` | scratch memory: regions, the operators' sizes and workspaces, the layout of a whole call |

## What a caller might not expect

* **A greedy prefill relies on sound counters to be all or nothing for its caller.** It decodes the chosen
  token straight into the caller's buffer (src/kq_model_exec.c:861-864) before checks of the weight
  provider's counters (878-898). The text buffer of a failed call is overwritten exactly when the call was
  admitted, got through layers, logits, selection and both tokenizer requests, and then failed those checks
  (`ModelExec.ModelState.PrefillSelect`); `Example.FailedPrefillLeavesText` is a run with such counters. The
  engine's own provider only ever adds to its counters (src/kq_weight_provider.c:161-180), so with it the
  text changes exactly with success. The logits are never touched by a failure, and decode steps and sampled
  calls stage their text.
* **When a failed sampled prefill resets.** It does so only once it is past its own argument and
  generator checks (src/kq_model_exec.c:1303-1318); `ModelExec.ModelState.SampledPrefill` states both cases.
* **The router's ties.** Of two equal experts the router evicts the lower id, where the engine's stable
  top k keeps it. They agree on the ids exactly when no expert above the boundary value comes after
  k experts that reach it (`MoeTies.SameIdsExactlyWhen`).

## Model

| member | source | states |
|---|---|---|
| `Model.DecodingEqualsRecomputation` | src/kq_model_exec.c:957-1195 | Prefilling p and decoding any number of tokens ts ends in the state, logits, token, text and generator of prefilling p + ts with the generator as it was before the last step, whenever both are within capacity |
| `Model.DecodesAreOneForward` | src/kq_model_exec.c:1053-1084 | After a prefill and any decodes every layer holds, and the last logits come from, one layer-major pass over the whole token sequence |
| `Model.ForwardAppend` | src/kq_model_exec.c:786-835 | A layer-major pass over a + b is a pass over a followed by one over b, rows and states alike |
| `Model.StackAppend` | src/kq_model_exec.c:786-835 | The same for the first n layers, by induction over layers although each layer consumes all tokens first |
| `Model.StackAdvances` | src/kq_model_exec.c:786-835 | A pass moves every layer that was at one position to that position plus the number of tokens |
| `Model.RoomToSpare` | src/kq_model_exec.c:852-865 | A step that fits the staging buffer ends the same way with any buffer at least as large, so the two text paths agree |
| `Model.BranchesStartEqual` | src/kq_model_exec.c:762-775 | Each of the four residual branches of a token's first row is its embedding |
| `Model.ReachedExactly` | src/kq_model_exec.c:836-870 | The end of a call is reached exactly when mix, head and selector deliver, the token exists and its text fits; then logits, token, text and generator are theirs and the flag marks the two tokens that end a generation |
| `ModelTokens.StackIsTokenByToken` | src/kq_model_exec.c:786-835 | Running the layers one after the other over all rows is sending every token through all layers before the next one starts; it succeeds exactly when every layer lets the call in and every token gets through |
| `ModelTokens.ForwardIsTokenByToken` | src/kq_model_exec.c:762-835 | The same for embedding and layers: a prompt pushed through layer by layer is its tokens one by one |
| `ModelTokens.LayersAreOneRun` | src/kq_model_exec.c:786-835 | All tokens through n layers and then all rows through the next is every token through n + 1 layers, failures included |
| `ModelExec.ModelState.constructor` | src/kq_model_exec.c:302-337 | A new model is at position 0, not poisoned, every layer fresh |
| `ModelExec.ModelState.Reset` | src/kq_model_exec.c:348-357 | A reset gives the state of a new model, from any state |
| `ModelExec.ModelState.AdmitPrefill` | src/kq_model_exec.c:713-749 | Exactly which prefills are let in, and that a pending reset happens even when a later check refuses |
| `ModelExec.ModelState.RunPrefill` | src/kq_model_exec.c:756-910 | The prefill proper succeeds exactly when its specification does, commits that state, is poisoned exactly when it fails, and says what the caller's two buffers hold |
| `ModelExec.ModelState.PrefillSelect` | src/kq_model_exec.c:678-915 | The whole call: success, result, new state, poison flag; the caller's logits change only with success, its text buffer exactly when the text was decoded |
| `ModelExec.ModelState.RollbackDecode` | src/kq_model_exec.c:935-955 | Undoing a decode that committed any number of layers restores every layer, never fails and keeps the original error |
| `ModelExec.ModelState.RunDecode` | src/kq_model_exec.c:1053-1195 | The decode proper succeeds exactly when its specification does; otherwise view, logits and text are as before |
| `ModelExec.ModelState.DecodeSelect` | src/kq_model_exec.c:957-1195 | All or nothing: success advances every layer and the model by one and fills the caller's buffers; a failure at any stage leaves layers, position, flag, logits and text unchanged |
| `ModelExec.ModelState.SampledPrefill` | src/kq_model_exec.c:1281-1354 | Succeeds exactly when the specification with the sampler's own choice does; record, logits and text change only with success, the record by one step; a failure from position 0 past the call's own checks leaves a fresh model |
| `ModelExec.ModelState.SampledDecode` | src/kq_model_exec.c:1401-1460 | The same for a sampled decode, refused after an end of generation; a failure changes nothing of model, record, logits or text |
| `ModelExec.ValidMeansInStep` | src/kq_model_exec.c:348-357 | A poisoned state is at position 0; otherwise every layer position, attention length and PLE position equals the model position, at most the capacity |
| `ModelExec.RunCommands` | src/kq_model_exec.c:678-1460 | Every run of reset, prefill, decode and sampled calls, failing anywhere, keeps the state valid |
| `ModelExec.RunStack` | src/kq_model_exec.c:786-835 | The layer loop succeeds exactly when the stack specification does, and on failure says which layers moved and what their older slots hold |
| `ModelExec.RollbackLayers` | src/kq_model_exec.c:935-955 | Unwinding the layers that moved puts every layer back and no rollback fails |
| `ModelExec.AdvanceStack` | src/kq_model_exec.c:786-835 | From layers in step, a pass computes the specification and leaves layers in step, or a state that can be taken back |
| `ModelExec.RestoreStack` | src/kq_model_exec.c:935-955 | Taking back restores every slot and position |
| `ModelExec.ResetLayers` | src/kq_model_exec.c:127-136 | Every layer is fresh and at position 0 afterwards |
| `ModelExec.EmbedAll` | src/kq_model_exec.c:762-775 | Embedding succeeds exactly when every token's does, in order |
| `Delivery.RunSelector` | src/kq_model_exec.c:586-615 | Either selector, run with its arrays and its generator, is its selection as a function; on success the generator is where that function puts it |
| `Delivery.Deliver` | src/kq_model_exec.c:846-865 | From the last row to the text succeeds exactly when mix, head, selection, token limit, room and both tokenizer requests do; the buffer then starts with the text, otherwise it is unchanged |
| `Delivery.DecodeToken` | src/kq_tokenizer.c:1534-1645 | The size request and the text request together succeed exactly when the text fits; a size request that reports success has found an empty text |
| `Selectors.SelectGreedy` | src/kq_model_exec.c:566-593 | The executor's greedy selector computes greedy selection and leaves the generator alone |
| `Selectors.GreedyIsFirstOfHighest` | src/kq_numeric.c:815-876 | Greedy selection is, exactly for finite logits, the first of the highest |
| `Selectors.SampledDrawsOne` | src/kq_sampling.c:748-771 | Sampled selection succeeds exactly when one word can be drawn and the policy chooses by it, and leaves the generator one word on |
| `Example.FailedPrefillLeavesText` | src/kq_model_exec.c:861-898 | A run of the executor that fails and leaves other text in the caller's buffer than before |
| `Example.DecodingHappens` | src/kq_model_exec.c:957-1195 | On a model of one recurrent layer a prefill and a decode succeed |
| `Layer.LayerCallAppend` | src/kq_layer.c:639-827 | Running a layer on a + b equals running it on a and then on b, output and slot |
| `Layer.PleStageAppend` | src/kq_layer.c:697-728 | The same for the address and value stage before the mixer |
| `Layer.MixerStageAppend` | src/kq_layer.c:746-766 | The same for either kind of mixer |
| `Layer.MainStagesAppend` | src/kq_layer.c:729-814 | The same for mixer, gated writes and experts together |
| `Layer.LayerAdvances` | src/kq_layer.c:697-816 | Every position inside a slot moves by the number of tokens |
| `LayerTokens.LayerIsTokenByToken` | src/kq_layer.c:684-816 | The stages over all tokens equal the run of one token after the other through address, value, sum, read, mixer, gated write, read, experts and gated write; the call succeeds exactly when it is let in and every token gets through |
| `LayerTokens.TableStageIs` | src/kq_layer.c:697-728 | Addresses for all tokens, values for all rows and their sums are, token by token, that row plus the value of that token's own addresses |
| `LayerTokens.MainStagesIs` | src/kq_layer.c:729-814 | Mixer, writes and experts over all tokens are, token by token, each written back into its own row through the gates of its own read |
| `LayerTokens.StagesAreOneRun` | src/kq_layer.c:697-814 | Two runs one after the other, each over all inputs, are one run that hands every output on at once, failures included |
| `LayerState.LayerState.constructor` | src/kq_layer.c:337-411 | Two disjoint fresh slots, position 0 |
| `LayerState.LayerState.Execute` | src/kq_layer.c:639-827 | Succeeds exactly when the layer specification does; then the active slot is its result and the older slot the previous state; a failure leaves the active slot and the position unchanged though the other slot was overwritten |
| `LayerState.LayerState.RollbackLast` | src/kq_layer.c:461-473 | Exchanges the slots and takes the tokens off the position, exactly when there are that many |
| `LayerState.LayerState.Reset` | src/kq_layer.c:424-445 | Fresh, at position 0 |
| `LayerState.CopySlot` | src/kq_layer.c:294-335 | Copies a slot into the other without sharing storage, exactly when the export and import checks pass |
| `LayerState.RunPle` | src/kq_layer.c:697-728 | The stage on the objects computes the stage specification |
| `LayerState.RunMain` | src/kq_layer.c:729-814 | Mixer, writes and experts on the objects compute the specification |
| `LayerState.RunSlot` | src/kq_layer.c:697-814 | A whole slot computes the layer specification |
| `Streaming.RunAppend` | src/kq_gdn_qwen38.c:545-849 | Resuming a run after a prefix gives the run over the whole, failures included |
| `Qsa.QsaCallAppend` | src/kq_qsa_qwen38.c:491-829 | Attention over a + b equals a and then b, outputs and caches |
| `Qsa.LengthAdvances` | src/kq_qsa_qwen38.c:818-827 | The length grows by the number of tokens and the caches keep their shape |
| `Qsa.AttendedCount` | src/kq_qsa_qwen38.c:608-670 | Exactly min(complete blocks, top k) · block size + tail positions are gathered, never none and never more than the budget |
| `Qsa.AttendedAreCausal` | src/kq_qsa_qwen38.c:608-670 | No gathered position is later than the current one |
| `Qsa.AttendedAreDistinct` | src/kq_qsa_qwen38.c:608-670 | No position is gathered twice |
| `Qsa.TailIsAttended` | src/kq_qsa_qwen38.c:662-665 | The whole incomplete tail is gathered |
| `Qsa.AllAttendedWithinBudget` | src/kq_qsa_qwen38.c:608-670 | While the complete blocks fit the limit, every position so far is gathered |
| `QsaHistory.AttendedExactly` | src/kq_qsa_qwen38.c:608-665 | A position is attended to exactly when it lies behind the last complete block or fewer blocks than the limit rank before its own |
| `QsaHistory.AttendedAreBest` | src/kq_qsa_qwen38.c:649-665 | Of two positions in complete blocks, one attended to and one not, the first one's block scores higher, or the same and comes first |
| `QsaHistory.AttendedInOrder` | src/kq_qsa_qwen38.c:654-665 | The kept blocks come by rank, each from its first position to its last, and then the tail |
| `QsaHistory.BudgetIsSpent` | src/kq_qsa_qwen38.c:608-670 | Positions of complete blocks are attended to until the token budget is spent, and the tail on top |
| `QsaHistory.AttentionIsCausal` | src/kq_qsa_qwen38.c:524-817 | What a position attends to and yields does not depend on later tokens |
| `QsaHistory.AttentionOverHistory` | src/kq_qsa_qwen38.c:491-829 | A stream from reset equals the definition over the whole sequence: every token projected at its own position, blocks scored by the raw keys at their positions, the query put to the keys and values at the attended positions; it succeeds exactly when that does, and the caches hold one row per token |
| `QsaState.ReadIsJoined` | src/kq_qsa_qwen38.c:296-307 | Reading a feature from the committed or the pending cache equals reading the concatenated one |
| `QsaState.CommitIsJoined` | src/kq_qsa_qwen38.c:818-827 | Copying the pending rows behind the committed ones makes the cache that concatenation |
| `QsaState.ScoreBlocks` | src/kq_qsa_qwen38.c:608-648 | Block scores are those of the concatenated cache, for exactly the complete blocks |
| `QsaState.GatherTokens` | src/kq_qsa_qwen38.c:654-665 | The gather loops produce the specified positions in order |
| `QsaState.SelectTokens` | src/kq_qsa_qwen38.c:608-670 | Selection followed by gathering gives the attended positions; the invalid-count error is unreachable |
| `QsaState.ExecuteTokens` | src/kq_qsa_qwen38.c:524-817 | The token loop over pending buffers computes the run that appends to one cache per token |
| `QsaState.QsaState.Execute` | src/kq_qsa_qwen38.c:491-829 | Succeeds exactly when the specification does, commits its state, and changes nothing on failure |
| `QsaState.QsaState.CopyFrom` | src/kq_qsa.c:532-620 | Export then import copies the visible caches, exactly when length and values are acceptable |
| `QsaState.QsaState.Reset` | src/kq_qsa.c:492-501 | Empty afterwards |
| `Gdn.GdnCallAppend` | src/kq_gdn_qwen38.c:545-849 | The recurrence over a + b equals a and then b |
| `Gdn.ConvHoldsLastProjections` | src/kq_gdn_qwen38.c:602-616 | After any stream the register of a channel holds its last four projections, zeros before the start |
| `Gdn.NormaliseInPlace` | src/kq_gdn_qwen38.c:338-360 | The loop multiplies every entry by the inverse root and then by the scale, and fails exactly when the sum, the root or the scale does |
| `Gdn.PrepareHead` | src/kq_gdn_qwen38.c:632-687 | One head's query and key are those of the key head that serves it, normalised; its value is copied; gate and decay come from sigmoid and non-positive logarithm |
| `Gdn.PrepareHeads` | src/kq_gdn_qwen38.c:632-687 | All heads, exactly when every head can be prepared |
| `GdnHistory.HeadSlices` | src/kq_gdn_qwen38.c:632-687 | Value head j · repeat + r reads the query and the key of key head j and its own value, at their places among the channels, normalised with the query scale and with one; it can be prepared exactly when gate, decay and both norms can |
| `GdnHistory.CoreByHead` | src/kq_gdn_qwen38.c:705-761 | Head h's part of the core output comes from head h's own matrix and inputs alone |
| `GdnHistory.OutputFromHistory` | src/kq_gdn_qwen38.c:545-849 | The last output of any stream from reset: every channel convolved over its projections at t-3, t-2, t-1 and t, the activation cut into heads, every head run by itself, the core finished with the token's own gate |
| `Gdn.DecayHead` | src/kq_gdn_qwen38.c:722-725 | One head's matrix is decayed in place and nothing else is written |
| `Gdn.SumColumn` | src/kq_gdn_qwen38.c:726-735 | The inner loop is the dot product of a column with a vector, in the source's order |
| `Gdn.ComputeDelta` | src/kq_gdn_qwen38.c:726-738 | The correction of every value feature from the decayed matrix |
| `Gdn.WriteHead` | src/kq_gdn_qwen38.c:739-749 | The rank-one update in place, other heads untouched |
| `Gdn.UpdateHeads` | src/kq_gdn_qwen38.c:705-761 | The loop over heads computes each head's new matrix and output |
| `Gdn.ExecuteTokens` | src/kq_gdn_qwen38.c:545-849 | The token loop over register and matrix computes the run |
| `Gdn.GdnState.Execute` | src/kq_gdn_qwen38.c:488-850 | Succeeds exactly when the specification does, commits once at the end, and changes nothing on failure |
| `Gdn.GdnState.CopyFrom` | src/kq_gdn.c:599-701 | Export then import copies the state exactly when it is finite and an uninitialised one is zero |
| `Gdn.GdnState.Reset` | src/kq_gdn.c:570-593 | Zero and uninitialised afterwards |
| `GdnReal.DeltaRule` | src/kq_gdn_qwen38.c:705-761 | Over the reals the in-place loops compute S' = a(I - bkkᵀ)S + bkvᵀ and output qᵀS' |
| `GdnReal.ColumnBound` | src/kq_gdn_qwen38.c:705-761 | With gates in range and a key of norm at most one, a column's square norm is at most a² times the old one plus bv² |
| `GdnReal.ScaledIsAtMostOne` | src/kq_gdn_qwen38.c:338-360 | Scaling by the inverse root of the squares plus a positive epsilon gives a norm of at most one |
| `GdnReal.NormalisedIsAtMostOne` | src/kq_gdn_qwen38.c:338-360 | The operator's normalisation with scale one does that |
| `GdnReal.NormalisedLength` | src/kq_gdn_qwen38.c:338-360 | Normalising at any scale rescales the vector: its square norm is scale² times norm over norm plus epsilon, and it stays parallel |
| `GdnReal.HeadIsTame` | src/kq_gdn_qwen38.c:632-706 | Every head the operator prepares has a gate in [0,1], a decay in (0,1] and a key of norm at most one, from sigmoid, the check of the logarithm and the normalisation |
| `GdnReal.HeadsAreIndependent` | src/kq_gdn_qwen38.c:705-761 | Updating heads one after the other in one buffer updates each from its own old matrix |
| `GdnReal.TokenBound` | src/kq_gdn_qwen38.c:545-849 | One token adds at most the square of the value it writes to a column's square norm |
| `GdnReal.RunBound` | src/kq_gdn_qwen38.c:545-849 | Over any run a column's square norm grows by at most the squares of the values the run writes into it; no bound on the values is assumed |
| `ShiftRegister.RegisterHoldsHistory` | src/kq_ple_value_qwen38.c:143-143 | After any stream the register is the window of its last rows over its initial contents |
| `ShiftRegister.ShiftChannel` | src/kq_gdn_qwen38.c:602-616 | Shifting one channel in place equals the register specification, others untouched |
| `PleAddress.StreamMatchesSequence` | src/kq_ple.c:530-706 | The address stream never fails in vocabulary, and each token's addresses are those of the whole-sequence definition with lookback cut at the start and at ends of sequence |
| `PleAddress.EosForgets` | src/kq_ple.c:530-615 | After an end-of-sequence token the addresses are those of a fresh stream, positions apart |
| `PleAddress.TargetNeverFails` | src/kq_ple.c:516-614 | For the validated configuration and tokens in vocabulary no product, sum or bound check fails |
| `PleAddress.XorFits` | src/kq_ple.c:565-574 | The exclusive or of values below 2^63 is below 2^63 |
| `PleHistory.XorByBits` | src/kq_ple.c:565-568 | Every bit of the exclusive or is the sum of the two bits without carry |
| `PleHistory.XorUndoes` | src/kq_ple.c:565-568 | Applying it twice with the same operand gives the other one back |
| `PleHistory.AddressFromTokens` | src/kq_ple.c:530-611 | For every token of a stream and every head the intent, from the tokens alone: the products of the last two tokens for heads 0..7 and of the last three for heads 8..15, exclusive-ored, modulo the head's size, behind its offset; nothing is seen across an end of sequence |
| `PleHistory.PairHeadsSeeTwoTokens` | src/kq_ple.c:565-577 | Wherever the last two tokens agree, in whatever streams, heads 0..7 address the same rows |
| `PleAddress.ValidateDescriptor` | src/kq_ple.c:280-368 | The running-sum check accepts exactly the production geometry |
| `PleAddress.HeadRangesPartition` | src/kq_ple.c:344-366 | Every active row is in the range of exactly one head |
| `PleAddress.IntentRecoversAddress` | src/kq_ple.c:577-607 | Member · rows + row gives back the address, all parts in bounds, order and local head give the head |
| `PleStream.StreamState.Prefill` | src/kq_ple.c:617-716 | Succeeds exactly when state, room and tokens allow; then state and addresses are the run's; otherwise the state is unchanged |
| `PleStream.StreamState.Validate` | src/kq_ple.c:490-514 | Accepts exactly the states whose hash, position and history are consistent |
| `PleStream.StreamState.Reset` | src/kq_ple.c:473-488 | Fresh and valid, from any state |
| `PleStream.StreamState.CopyFrom` | src/kq_layer.c:294-335 | A copied state is valid and equal |
| `PleStream.GenerateToken` | src/kq_ple.c:530-615 | The two loops over orders and heads write one token's sixteen addresses, or fail when one has none |
| `PleStream.GenerateAll` | src/kq_ple.c:692-706 | The token loop computes the run into consecutive parts of the output |
| `PleStream.RunKeepsPlausible` | src/kq_ple.c:490-514 | A run from a valid state leaves one, further on by its tokens: reachable states validate |
| `PleHistory.PlausibleIsReachable` | src/kq_ple.c:490-514 | The states that validate are exactly those that some tokens lead to from a reset |
| `PleHistory.StreamIntentsFit` | src/kq_ple_value_qwen38.c:103-108 | The addresses of a stream pass every check that the value operator makes on them |
| `PleStream.CallAppend` | src/kq_ple.c:617-736 | Generating for a + b equals a and then b; a decode step is a call on one token |
| `PleValue.ValueCallAppend` | src/kq_ple_value_qwen38.c:56-151 | Values over a + b equal a and then b |
| `PleValue.TapsAreDilatedHistory` | src/kq_ple_value_qwen38.c:135-143 | The taps are those at t-9, t-6, t-3 and t of the stream of norms, zeros before its start |
| `PleValue.HistoryIsShiftedNorms` | src/kq_ple_value_qwen38.c:143-145 | The staged history is the register after shifting in every norm |
| `PleHistory.GatedIs` | src/kq_ple_value_qwen38.c:103-134 | What is gated is the looked-up rows in head order, with the token's own hidden row |
| `PleHistory.ValueFromHistory` | src/kq_ple_value_qwen38.c:101-143 | The last output of any stream from reset is its gated value plus the activated taps at t-9, t-6, t-3 and t of the stream of norms |
| `PleValue.GatherRows` | src/kq_ple_value_qwen38.c:101-112 | Lookup succeeds exactly when every intent is consistent and every row is found, in order |
| `PleValue.Convolve` | src/kq_ple_value_qwen38.c:135-137 | The convolution loop is the four-tap sum per feature |
| `PleValue.ValueState.Execute` | src/kq_ple_value_qwen38.c:56-151 | Succeeds exactly when the specification does, commits once, changes nothing on failure |
| `PleValue.ValueState.CopyFrom` | src/kq_ple_value.c:359-384 | Export then import copies position and history, exactly when sized and finite |
| `Selection.TopKUnique` | src/kq_numeric.c:815-876 | The ranked top k by score and id is unique |
| `Selection.TopKIsTopK` | src/kq_qsa_qwen38.c:328-359 | Offering candidates one by one keeps exactly the best k, ranked |
| `Selection.InTopKExactly` | src/kq_qsa_qwen38.c:328-359 | An id is among the top k exactly when fewer than k others rank before it |
| `Selection.SelectBlocks` | src/kq_qsa_qwen38.c:334-359 | Bounded insertion with in-place shifting returns the top min(limit, count) and leaves the rest of the buffer alone |
| `Selection.StableTopK` | src/kq_numeric.c:815-876 | Repeated selection returns the same ids, with their values, exactly for 0 < k ≤ count |
| `Selection.GreedyArgmax` | src/kq_model_exec.c:566-584 | Greedy selection is the top one, exactly when all logits are finite |
| `MoeSelection.SelectTopK` | src/kq_moe_qwen38.c:211-245 | Replace-the-worst and insertion sort return the kept ids in rank order |
| `MoeSelection.SelectionIsValueTop` | src/kq_moe_qwen38.c:211-245 | They are distinct and no expert left out scores more than one kept |
| `MoeSelection.SameValuesAsStableTopK` | src/kq_moe_qwen38.c:211-245 | The value sequence is that of the stable top k, ties or not |
| `MoeSelection.SameIdsAsStableTopK` | src/kq_moe_qwen38.c:211-245 | With no tie across the boundary the ids agree |
| `MoeSelection.TiedBoundaryDiffers` | src/kq_moe_qwen38.c:218-235 | A concrete tie on which they differ |
| `MoeTies.SameIdsExactlyWhen` | src/kq_moe_qwen38.c:211-245 | The ids agree if and only if no expert above the k-th value comes after k experts that reach it |
| `MoeRoute.FinishRoute` | src/kq_moe_qwen38.c:247-274 | Routing succeeds exactly with positive selected mass; then the weights are the shares of the selected, non-negative with sum one |
| `MoeRoute.SelectedMassIsPositive` | src/kq_moe_qwen38.c:264-266 | For non-negative probabilities with positive sum the error is unreachable |
| `MoeRoute.AccumulateRouted` | src/kq_moe_qwen38.c:721-769 | The loop over all experts succeeds exactly when every selected one delivers, and then holds the weighted sum of exactly those |
| `MoeRoute.MixtureIsBetween` | src/kq_moe_qwen38.c:721-769 | Each feature of the mixture lies between the bounds of the selected outputs |
| `MoeRoute.MixedIsSum` | src/kq_moe_qwen38.c:721-769 | The mixture is the sum of every selected expert's own share times its own value |
| `Rng.WordsAppend` | src/kq_sampling.c:116-159 | Drawing n + m words is drawing n and then m |
| `Rng.WordsKeepOrigin` | src/kq_sampling.c:116-159 | Draws keep seed and stream and are counted |
| `Rng.ResetReplays` | src/kq_sampling.c:271-282 | A reset after any number of draws replays the words of the seeded generator |
| `Rng.IncrementIsOdd` | src/kq_sampling.c:127-132 | The increment of a legal stream is odd, and half of it is the stream |
| `Rng.IncrementsDiffer` | src/kq_sampling.c:110-113 | No two legal streams share an increment |
| `Rng.KnownWords` | tests/sampling_test.c:39-60 | The state and the first eight words of seed 0 and stream 0 are the published ones |
| `Rng.KnownWordsOfStream` | src/kq_sampling.c:116-142 | So are the first six words of seed 42 and stream 54, the demonstration of PCG-XSH-RR 64/32 |
| `Rng.RngState.Next` | src/kq_sampling.c:308-331 | One word and one step for a valid record with draws left, otherwise no change; validity covers the integrity hash of the whole record |
| `Rng.RngState.Reset` | src/kq_sampling.c:271-282 | Restarts a valid record, leaves an invalid one alone |
| `Rng.RngState.Snapshot` | src/kq_sampling.c:284-306 | A snapshot or import copies exactly the valid records, and the copy draws the same words |
| `Rng.RngState.constructor` | src/kq_sampling.c:127-142 | A seeded record is valid |
| `MergeSort.SortIds` | src/kq_sampling.c:339-393 | The ping-pong bottom-up sort orders 0..count-1 by score and id, for every 32-bit count |
| `MergeSort.SortedIsUnique` | src/kq_sampling.c:333-337 | There is one such order |
| `MergeSort.AllPresent` | src/kq_sampling.c:339-393 | It contains every id |
| `MergeSort.PairBounds` | src/kq_sampling.c:352-363 | With 32-bit wrap-around the bounds of a pair of runs are the mathematical ones |
| `MergeSort.AlignedFits` | src/kq_sampling.c:352-363 | An aligned left end plus two widths never exceeds 2^32 |
| `MergeSort.MergeRuns` | src/kq_sampling.c:365-377 | The merge of two sorted runs is sorted and nothing else is written |
| `MergeSort.MergePass` | src/kq_sampling.c:351-389 | A pass doubles the length of the sorted runs |
| `Truncation.TopKStart` | src/kq_sampling.c:661-668 | The cut is before the first id that reaches the k-th largest score |
| `Truncation.TopKKeeps` | src/kq_sampling.c:661-673 | An id is kept exactly when fewer than k score more, ties included |
| `Truncation.Weigh` | src/kq_sampling.c:674-689 | The weights and their sum over what top-k kept |
| `Truncation.DropLight` | src/kq_sampling.c:694-705 | The longest ascending prefix with share at most the cutoff is dropped, never the last candidate |
| `Truncation.TopPStart` | src/kq_sampling.c:690-712 | The whole top-p branch, the case of no cut included |
| `Truncation.KeptShare` | src/kq_sampling.c:690-713 | What is kept has a share of at least top p, and dropping one more would break that |
| `Truncation.SuffixWeighs` | src/kq_sampling.c:669-709 | Every non-empty suffix has positive weight: the "no candidate" errors are unreachable |
| `Categorical.Scan` | src/kq_sampling.c:465-476 | The scan stops at the one id whose stretch of the running sum holds the threshold |
| `Categorical.CategoricalWord` | src/kq_sampling.c:435-486 | Succeeds exactly for non-negative weights with positive sum, and picks an id of positive weight |
| `Categorical.PicksOnce` | src/kq_sampling.c:435-486 | A word picks at most one id |
| `Categorical.WordsOfId` | src/kq_sampling.c:435-486 | The words that pick an id are an interval, consecutive in id order |
| `Categorical.IntervalLength` | src/kq_sampling.c:435-486 | The intervals cover all 2^32 words and each has the floor or ceiling of its share |
| `Sampler.CutAndWeigh` | src/kq_sampling.c:660-713 | Sort, both cuts and weights together |
| `Sampler.Reweigh` | src/kq_sampling.c:715-722 | Weighing the kept candidates again changes no entry and sums them |
| `Sampler.Distribute` | src/kq_sampling.c:643-746 | The final array is the kept candidates' shares and zero elsewhere, with sum one |
| `Sampler.SelectToken` | src/kq_sampling.c:576-771 | The whole call: success picks by one drawn word and stores one step; on failure the generator is unchanged; with finite logits and a drawable record the only failure is an id that is no token |
| `Sampler.TruncationIsUnique` | src/kq_sampling.c:660-746 | Order, both cuts and the final distribution are determined by the scores |
| `Sampler.PickedOnce` | src/kq_sampling.c:748-757 | A word picks one id |
| `SamplerLaws.ScoreTimesTemperature` | src/kq_sampling.c:651-658 | A score times the temperature is the logit, also where the division is left out |
| `SamplerLaws.TemperatureRescales` | src/kq_sampling.c:643-757 | A policy of temperature T picks by a word on some logits exactly what the same policy at temperature 1 picks on logits whose values, times T, are those |
| `SamplerLaws.TemperatureChooses` | src/kq_sampling.c:643-771 | The same for the whole choice, the check for tokens that exist included |
| `SamplerLaws.SoftmaxOdds` | src/kq_sampling.c:674-746 | For a weighting that turns sums into products, the odds of two ids that can be picked are the weight of the difference of their logits divided by the temperature, whatever the cuts |
| `SamplerLaws.HigherIsLikelier` | src/kq_sampling.c:660-746 | The higher of two logits is never the less likely one, cut or not |
| `Sampler.Sample` | src/kq_sampling.c:576-771 | The call is sampled selection: its token and its new generator are those of drawing one word and choosing by it, and it fails exactly when that does |
| `Totals.SharesAreADistribution` | src/kq_sampling.c:715-746 | Shares of non-negative weights are non-negative and sum to one |
| `Sha256.Context.Update` | src/kq_sha256.c:115-136 | The context has absorbed the data after what it had, with fewer than 64 bytes buffered |
| `Sha256.Context.Absorb` | src/kq_sha256.c:123-135 | One turn of the loop absorbs a non-empty prefix of the data |
| `Sha256.Context.Final` | src/kq_sha256.c:138-167 | The digest is that of FIPS 180-4 for messages under 2^61 bytes, and for any message that of a length field taken modulo 2^64 |
| `Sha256.Context.PadAndTransform` | src/kq_sha256.c:144-157 | The in-place padding, in one block or two, processes the padded message |
| `Sha256.Transform` | src/kq_sha256.c:28-97 | The rolling-variable rounds compute the compression function of section 6.2 |
| `Sha256.Expand` | src/kq_sha256.c:47-66 | The array is the recursive message schedule |
| `Sha256.WordsAreBytes` | src/kq_sha256.c:47-53 | Writing out a word read from a block gives its four bytes back |
| `Sha256Known.DigestOfAbc` | tests/sha256_test.c:24-29 | The digest of "abc" is the standard's, worked out from the definitions round by round |
| `Sha256.PaddingIsShortest` | src/kq_sha256.c:144-157 | The zero count is the least of section 5.1.1 that reaches 448 bits modulo 512 |
| `Sha256.HashPieces` | src/kq_sha256.c:99-167 | For any split of a message into updates the digest is that of the concatenation |
| `Utf8.StepIsSound` | src/kq_gguf.c:207-254 | An accepted step is the encoding of the scalar value it decodes to, hence shortest and no surrogate |
| `Utf8.StepIsComplete` | src/kq_gguf.c:207-254 | Every scalar value's encoding is accepted, whatever follows |
| `Utf8.IsValid` | src/kq_gguf.c:207-254 | The validator accepts exactly the concatenations of encodings of section 4 of RFC 3629 |
| `GgufFormat.NumExactly` | src/kq_gguf.c:152-201 | Reading n bytes gives v exactly when they are v's little-endian encoding |
| `GgufFormat.StrExactly` | src/kq_gguf.c:256-285 | A string is read exactly when it is well-formed, within the limit and encoded there |
| `GgufFormat.ValueExactly` | src/kq_gguf.c:349-469 | The same for any metadata value, scalar, number array or string array |
| `GgufDirectory.EntriesExactly` | src/kq_gguf.c:471-551 | The same for the metadata section, with keys unique |
| `GgufDirectory.TensorsExactly` | src/kq_gguf.c:553-670 | The same for the tensor section, with names unique, shapes, types and offsets acceptable |
| `GgufDirectory.ParseIsExact` | src/kq_gguf.c:857-942 | The parser returns d with its cursor at end exactly when d is acceptable and the data start with its encoding, which ends there |
| `GgufDirectory.ParseUndoesEncode` | src/kq_gguf.c:857-942 | Encoding an acceptable directory and appending any payload parses back to it |
| `GgufDirectory.EncodingsAreUnambiguous` | src/kq_gguf.c:857-942 | No bytes are the encoding of two directories |
| `GgufDirectory.BlocksFromFields` | src/kq_numeric.c:176-295 | The bytes of a block of every supported type are those of its scales, minima, high bits and codes |
| `GgufDirectory.PackedIsWholeBlocks` | src/kq_gguf.c:644-663 | The elements of an accepted tensor fill whole blocks, and its bytes are exactly what those take |
| `GgufLayout.FileBegins` | src/kq_gguf.c:857-915 | A parsed file begins with GGUF, version 3 and the numbers of tensors and entries at bytes 8 and 16 |
| `GgufLayout.EntryLayout` | src/kq_gguf.c:471-505 | An entry is the length of its key, the key, the kind and the value, at these places |
| `GgufLayout.TensorLayout` | src/kq_gguf.c:566-635 | A tensor is the length of its name, the name, the rank, the dimensions, the type and the offset, at these places |
| `GgufLayout.ByteAt` | src/kq_gguf.c:152-201 | Byte i of an encoded number is the number divided by 256 to the i, modulo 256 |
| `GgufReader.Reader.TakeBytes` | src/kq_gguf.c:115-150 | The cursor moves past the bytes exactly when they are there |
| `GgufReader.Reader.ReadString` | src/kq_gguf.c:256-285 | The string and the cursor are the specification's |
| `GgufReader.Reader.ReadArray` | src/kq_gguf.c:395-469 | The same for an array value |
| `GgufReader.Reader.ReadEntries` | src/kq_gguf.c:471-551 | The same for the metadata loop with its search for repeated keys |
| `GgufReader.Reader.ReadTensors` | src/kq_gguf.c:553-670 | The same for the tensor loop |
| `GgufReader.Reader.ReadDirectory` | src/kq_gguf.c:857-942 | The same for the whole directory |
| `GgufReader.Assemble` | src/kq_gguf.c:152-201 | Shifting bytes together is the little-endian number |
| `GgufFile.StringAt` | src/kq_gguf.c:1200-1237 | Re-walking an accepted string array finds exactly the string the parser walked, at every index below its length |
| `GgufFile.StringsAreStored` | src/kq_gguf.c:445-460 | A string array of a parsed directory stands in the file as the strings the parser walked |
| `GgufFile.MetadataStringAt` | src/kq_gguf.c:1200-1237 | Looking up any index of any string array of a parsed directory gives the string the parser walked, or nothing beyond the length |
| `GgufFile.NeighboursSuffice` | src/kq_gguf.c:735-774 | In offset order, disjoint neighbours make all pairs disjoint |
| `GgufFile.ValidateSpans` | src/kq_gguf.c:688-796 | Accepts exactly when the first span is at 0, all are in the file and no two overlap; the aggregate failure is unreachable |
| `GgufFile.PackedIsPositive` | src/kq_gguf.c:591-663 | An accepted tensor has bytes |
| `GgufFile.Open` | src/kq_gguf.c:798-967 | Succeeds exactly when directory, alignment and spans are acceptable; packed bytes and overhead add up to the file size |
| `GgufFile.SpansAreSafe` | src/kq_gguf.c:688-796 | Every span is aligned, after the directory and inside the file |
| `GgufFile.SpansAreDisjoint` | src/kq_gguf.c:688-796 | No byte of the file is in the spans of two tensors |
| `GgufFile.OpenTensorSpan` | src/kq_gguf.c:1019-1078 | A sub-span is accepted exactly when non-empty and inside its tensor, and then stays there |
| `Regions.Carve` | src/kq_gdn_qwen38.c:207-211 | Taking buffers off a cursor gives one region behind the other |
| `Regions.CarvedIsSafe` | src/kq_moe_qwen38.c:155-159 | Carved regions are disjoint and inside the sum of their sizes |
| `Regions.Accumulate` | src/kq_gdn.c:66-73 | Checked accumulation succeeds exactly when the sum fits a word |
| `OperatorScratch.GdnScratchBytes` | src/kq_gdn.c:124-229 | The size formula is that of the workspace as it is carved (src/kq_gdn_qwen38.c:213-246), and is given exactly when widths and size fit |
| `OperatorScratch.QsaScratchBytes` | src/kq_qsa.c:622-687 | The same for sparse attention and its workspace (src/kq_qsa_qwen38.c:164-205), when the tokens fit the capacity |
| `OperatorScratch.MoeScratchBytes` | src/kq_moe.c:83-140 | The same for the experts and their workspace (src/kq_moe_qwen38.c:161-196) |
| `OperatorScratch.ValueScratchBytes` | src/kq_ple_value.c:67-108 | The same for the embedding values and their workspace (src/kq_ple_value_qwen38.c:98-99) |
| `ScratchLayout.WrappingIsRefused` | src/kq_layer.c:542-550 | When the unchecked sum of widths wraps, the checked sums after it overflow |
| `ScratchLayout.LayerRequired` | src/kq_layer.c:533-573 | A layer's size is exactly its buffers and the largest demand of its operators, for all dimensions, and is given exactly when it fits a word and its operators can be sized |
| `ScratchLayout.LayerRequiredQuantized` | src/kq_layer.c:575-590 | The same with the block for decoded weights |
| `ScratchLayout.ModelRequired` | src/kq_model_exec.c:466-522 | The model's size is exactly its buffers and the largest demand of its layers |
| `ScratchLayout.OperatorFits` | src/kq_layer.c:599-620 | Every operator's demand fits what its layer hands it |
| `ScratchLayout.LayerFits` | src/kq_model_exec.c:488-494 | Every layer's demand, weights included, fits what the model hands it |
| `ScratchLayout.PartitionLayer` | src/kq_layer.c:599-620 | The layer's partition gives its operators exactly the largest demand, and the weights what was given beyond the layer's own size |
| `ScratchLayout.LayoutIsSafe` | src/kq_model_exec.c:539-564 | While any operator of any layer runs, no two of the buffers of model, layer and operator and the decoded weights share a byte, and all lie inside the reported size |
| `ScratchLayout.PartitionCall` | src/kq_model_exec.c:466-564 | Sizing and partitioning a call produces that layout, exactly when nothing overflows |

## Left out

* Float rounding, `expf`, `sqrtf`, NaN and infinity: kernels over bit patterns, or exact reals. Over the
  reals it is assumed that a sigmoid lies in [0,1], that an exponential of what is not positive lies in (0,1],
  that a reciprocal root is one, and that the sampler's weighting is monotone, non-negative and positive at
  the maximum score.
* `kq_quantized_row_dot_f32`: equal to decoding and then taking the dot product only up to the order of
  float additions, which the kernels hide.
* Which error code a refused call reports: the contracts fix success and failure, not which failure.
* Pointer, overlap and scratch capacity checks are Boolean arguments of the calls (`argumentsValid`, `buffersFit`,
  `policyValid`); alignment inside scratch memory is not modelled. Whether the block for decoded weights is
  large enough for a given tensor is the weight provider's own check.
* Observers, performance counters, metrics and diagnostics; the consistency check of the counters after the text
  is one Boolean of the kernels, earlier ones are failures of their stage.
* The padding mask of the operators, which the model executor never passes, and the BF16 state formats,
  which execution rejects.
* The FNV integrity hashes are arbitrary functions: what is proved is that reachable states validate.
* The tokenizer and the weight provider are not part of this model: deterministic kernels that may fail. Of the
  tokenizer the reporting of size and text is modelled. The sampler's scratch arrays are allocated per call.
* Caches and register contents are sequence-valued fields of the state classes; the working buffers of the
  loops are arrays, and the slots of a layer are distinct objects.
* The experts of a layer are one kernel per token in `Layer`; routing and mixing are proved by themselves in
  `MoeSelection`, `MoeTies` and `MoeRoute`, a failing expert included.
* The C library's `qsort` on tensors is an insertion sort with the same contract.
* Memory failures, and configuration from a model file (`src/kq_model.c`), chat formatting, command lines,
  file mapping and CUDA.
* PleAddress.StreamMatchesSequence: stated for the production configuration, the only one that
  `kq_ple_validate_descriptor` accepts.
* PleHistory.AddressFromTokens: stated for the same configuration, like the laws beside it.
* The number of layers is arbitrary; the engine has 48.
