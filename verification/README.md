# Verified models of the Dify plugin daemon

The daemon runs plugins locally, on serverless platforms and over debugging connections, and shares their state
between the nodes of a cluster. These Dafny files model its stateful cores and prove what they promise. Each module
follows one part of the program; network, Redis, database, object storage and subprocesses are maps, sequences and
parameters that say which calls fail.

- `TextBatching`, `BatchCoordination`: cutting a text request that is too large for one HTTP body into batches, running
  them one after the other and merging the results.
- `MasterLease`: the leased master slot of the cluster. `PluginStates`, `PluginFreshness`: refreshing and collecting
  plugin states and nodes.
- `Splitting`, `LineFramer`, `Base64`, `Declarations`, `Drafts`, `Registration`: the debugging connection, from bytes to
  a registered plugin and the end of the connection.
- `Invocation` (modules `Broadcasting` and `Invocation`): close callbacks and the attempts of an invocation on a local
  runtime. `ServerlessTrace`: the messages of a serverless invocation. `BlobReassembly`: files sent in chunks.
- `RoundRobin`, `LocalScheduler`: picking, starting and stopping local instances.
- `PackageStore`: package bucket and declaration table under persist and rollback. `PersistenceStore`, `MapTotals`: the
  accounted and cached key-value store. `Pagination`: listing a category page by page.

`dafny verify dfyconfig.toml` checks the project.

Where a natural claim is false of the code, the code is modelled as it is, and a lemma states exactly when the claim
holds, beside a concrete run that breaks it: mutual exclusion of the master needs timely refreshes
(`MasterLease.SafeExactlyWhenTimely`, `MasterLease.LateRefreshMakesTwoMasters`); a failed bundle restores the bucket
unless the bytes saved last under an identifier are neither those held before nor, for an undeclared one, those of its
first package (`PackageStore.BundleRestoredExactlyWhen`, `PackageStore.OtherBytesAreLeftBehind`); a Save keeps the
accounts unless it is refused after writing or charged without a size probe
(`PersistenceStore.SaveIsAccountedExactlyWhen`, `PersistenceStore.RefusedSaveStaysStored`); reads return what was saved
last unless a key has two spellings (`PersistenceStore.ReadsLastExactlyWhen`,
`PersistenceStore.OtherSpellingReadsDeletedBytes`); a pick can miss a live instance only while the counter wraps
(`RoundRobin.AlwaysFindsExactlyWhen`); closing a debugging connection does not end its registration:
lines that are received have the same effect until the server handles the end of the connection, and none after it
(`Registration.RunIgnoresClosing`, `Registration.DisconnectIsFinal`, `Registration.ClosedCanInitialiseExactlyWhen`,
`Registration.ClosedCanStillInitialise`); an asset that a declaration names is not required, since a failing END blanks
the field the field and a later one passes (`Registration.RepeatedEndsInitialise`, `Registration.MissingIconIsForgotten`); the
server's counter is back where it was after a connection only if exactly one of its ENDs was counted
(`Registration.CounterReturnsExactlyWhen`). Three branches of the source
are proved dead: both size estimate mismatches of the splitter and the emptying of the error buffer.

## Model

| member | source | states |
|---|---|---|
| TextBatching.SplitTextRequest | internal/core/io_tunnel/model_serverless_batch.go:179-259 | succeeds iff the empty request and every single-text request fit; the plan then tiles the list in order with non-empty batches of exactly stated, fitting size, each unable to take its next text, and no contiguous fitting split has fewer batches; otherwise the error is the oversized envelope or the first oversized text, never an estimate mismatch |
| TextBatching.JoinedAppend | internal/core/io_tunnel/model_serverless_batch.go:334-342 | appending one element to a marshalled JSON array adds its text and a comma, unless it is the first |
| TextBatching.PayloadGrows | internal/core/io_tunnel/model_serverless_batch.go:207-213 | one more text makes the message exactly its encoding plus at most one comma longer |
| TextBatching.EstimateIsExact | internal/core/io_tunnel/model_serverless_batch.go:207-247 | the running estimate equals the true message length, both when a text joins the open batch and when it starts one |
| TextBatching.PayloadMonotone | internal/core/io_tunnel/model_serverless_batch.go:195-258 | a contiguous part of a request is never larger than the request |
| TextBatching.CloseBatch | internal/core/io_tunnel/model_serverless_batch.go:221-238 | closing the open batch keeps the plan tiled and maximal |
| TextBatching.GreedyStaysAhead | internal/core/io_tunnel/model_serverless_batch.go:195-258 | after k batches the plan has covered at least as many texts as any other fitting split |
| TextBatching.GreedyIsOptimal | internal/core/io_tunnel/model_serverless_batch.go:195-258 | a tiled maximal plan has no more batches than any contiguous fitting split |
| TextBatching.MaximalIsOptimal | internal/core/io_tunnel/model_serverless_batch.go:195-258 | the same for all splits at once |
| TextBatching.DirectExactlyWhenWholeFits | internal/core/io_tunnel/model_serverless_batch.go:97-103 | a plan has at most one batch iff the whole request fits |
| BatchCoordination.SplitCovers | internal/core/io_tunnel/model_serverless_batch.go:179-259 | a plan of the splitter covers the texts in order |
| BatchCoordination.RequestsCover | internal/core/io_tunnel/model_serverless_batch.go:354-409 | the requests of the first n batches of a plan hold the texts up to the end of the last of them, each once and in order |
| BatchCoordination.TokensLineUp | internal/core/io_tunnel/model_serverless_batch.go:438-491 | whatever the plugin answers, merged token counts line up with the texts of the batches run so far |
| BatchCoordination.TokensStayFailed | internal/core/io_tunnel/model_serverless_batch.go:354-409 | once a batch has failed the outcome of the run is fixed |
| BatchCoordination.TokensMergeExactlyWhen | internal/core/io_tunnel/model_serverless_batch.go:446-474 | a run of token counts succeeds iff every batch is sent and answered by one list with a count for each of its texts; the lists are then joined in order |
| BatchCoordination.TokensStopAt | internal/core/io_tunnel/model_serverless_batch.go:354-474 | a run stops at the first batch that is not counted, with the context's end, the plugin's own error, or what was miscounted |
| BatchCoordination.TokensEqualWhole | internal/core/io_tunnel/model_serverless_batch.go:438-502 | if each batch is counted text by text, the merged counts after k batches are those of the texts covered, in order |
| BatchCoordination.TokensSentExactly | internal/core/io_tunnel/model_serverless_batch.go:354-409 | the batches sent are all, or those before the first that is not counted, and that one, too, unless it is cancelled |
| BatchCoordination.ProcessTokenCountBatches | internal/core/io_tunnel/model_serverless_batch.go:354-409 | batches are sent serially: all of them, or exactly those up to the first failure, whose error is returned; a batch that is cancelled is not sent |
| BatchCoordination.CoordinateTokenCountBatches | internal/core/io_tunnel/model_serverless_batch.go:438-502 | exactly the batches up to the first failure are sent; a result is written iff the run succeeds and its count matches; for a plan of the splitter the count always matches; for text-by-text counting the result equals that of one whole request |
| BatchCoordination.MergedResult.Merge | internal/core/io_tunnel/model_serverless_batch.go:568-636 | a batch result is merged iff its embeddings match in number, its usage is complete, and model, prices and currency are those merged so far; a rejected one leaves the merged result unchanged |
| BatchCoordination.MergesExactlyWhen | internal/core/io_tunnel/model_serverless_batch.go:568-636 | the same test field by field, as one iff |
| BatchCoordination.RejectedFor | internal/core/io_tunnel/model_serverless_batch.go:568-636 | each reason is given only for its own field, and only if everything before it agrees |
| BatchCoordination.EmbeddingsStayFailed | internal/core/io_tunnel/model_serverless_batch.go:354-409 | once a batch has failed the outcome of the run is fixed |
| BatchCoordination.EmbeddingsLineUp | internal/core/io_tunnel/model_serverless_batch.go:568-636 | whatever the plugin answers, merged embeddings line up with the texts of the batches run so far |
| BatchCoordination.MergesExactlyWhatAgrees | internal/core/io_tunnel/model_serverless_batch.go:568-636 | a run succeeds iff every batch is answered by one complete result with model, unit price, price unit and currency equal to those of batch 0; the result is then the concatenation, and usage is the sum |
| BatchCoordination.EmbeddingsStopAt | internal/core/io_tunnel/model_serverless_batch.go:504-636 | a run stops at the first batch that does not agree, with the context's end, the plugin's own error, or the first thing in which its result differs from batch 0 |
| BatchCoordination.TotalCostAppend | internal/core/io_tunnel/model_serverless_batch.go:630-634 | the usage of two requests adds up to that of their concatenation |
| BatchCoordination.AnswersMerge | internal/core/io_tunnel/model_serverless_batch.go:568-636 | merging the answers to two requests of a text-by-text plugin gives its answer to the joined request |
| BatchCoordination.EmbeddingsEqualWhole | internal/core/io_tunnel/model_serverless_batch.go:504-566 | for a text-by-text plugin the merged result after k batches is its answer to the texts covered |
| BatchCoordination.EmbeddingsSentExactly | internal/core/io_tunnel/model_serverless_batch.go:354-409 | the batches sent are all, or those before the first that does not agree, and that one, too, unless it is cancelled |
| BatchCoordination.ProcessEmbeddingBatches | internal/core/io_tunnel/model_serverless_batch.go:354-409 | as for token counts, with the merged result written through the shared object |
| BatchCoordination.CoordinateTextEmbeddingBatches | internal/core/io_tunnel/model_serverless_batch.go:504-566 | as for token counts; the final count mismatch cannot happen for a plan of the splitter; batched equals unbatched |
| BatchCoordination.InvokeBatches | internal/core/io_tunnel/model_serverless_batch.go:105-118 | a split request sends fitting requests that hold the first texts in order, and all of them when it ends well; the caller gets the merged result or the error of the batch that failed |
| BatchCoordination.InvokeTextEmbeddingServerlessAware | internal/core/io_tunnel/model_serverless_batch.go:67-118 | no request above the limit is ever sent; the requests sent hold the first texts, each once and in order, and all of them on success; the request is refused iff the limit is unknown or some text cannot fit; the answer or the error of the plugin is relayed, for a split request that of the planned batches; for a text-by-text plugin the caller cannot tell whether it was split |
| MasterLease.Cache.SetNX | internal/cluster/preemptive.go:39-58 | takes the key iff it is absent or expired |
| MasterLease.Cache.Expire | internal/cluster/preemptive.go:61-68 | extends the key whoever owns it, iff it is still there |
| MasterLease.Node.LockMaster | internal/cluster/preemptive.go:39-58 | three attempts; fails only if all calls fail; otherwise says whether the free key was taken |
| MasterLease.Node.UpdateMaster | internal/cluster/preemptive.go:61-68 | extends an unexpired key without looking at its owner, and does not notice a missing one |
| MasterLease.Node.MasterTick | internal/cluster/cluster_lifetime.go:107-127 | one firing of the master ticker moves lock and node as the step of the protocol does; written out: who becomes master, and until when the lock then holds |
| MasterLease.LeaseStep | internal/cluster/cluster_lifetime.go:107-127 | with timely refreshes every step keeps the lock expiring one lifetime after its master's last refresh |
| MasterLease.LeaseRun | internal/cluster/cluster_lifetime.go:107-127 | the same over every run |
| MasterLease.RecordedLeaseIsSafeIffTimely | internal/cluster/preemptive.go:39-68 | under that record, masters own the unexpired lock iff they refreshed within its lifetime |
| MasterLease.SafeExactlyWhenTimely | internal/cluster/cluster_lifetime.go:107-127 | throughout a run every running master owns the unexpired lock if and only if throughout it every running master refreshes in time |
| MasterLease.SafeMeansAtMostOneMaster | internal/cluster/cluster_lifetime.go:107-127 | two masters that own the lock are the same node |
| MasterLease.MutualExclusion | internal/cluster/cluster_lifetime.go:107-127 | in every state of a timely run at most one running node is master, and it owns the unexpired lock |
| MasterLease.TakesTheSlotExactlyWhen | internal/cluster/preemptive.go:39-58 | a node that is no master becomes master and owner for 2 s iff the lock has expired and one of its three calls works; else it changes nothing |
| MasterLease.StoppedMasterLosesTheSlot | internal/cluster/cluster_lifetime.go:104-127 | 2 s after a master stopped, over any run without its return, the slot has expired or is another node's |
| MasterLease.MasterNeverResigns | internal/cluster/cluster_lifetime.go:107-127 | a running node that became master stays one whatever happens to the lock |
| MasterLease.LateRefreshMakesTwoMasters | internal/cluster/preemptive.go:61-68 | one missed lock lifetime gives two masters, for good |
| PluginStates.KeyRoundTrip | internal/cluster/plugin.go:120-122 | a joined key splits into its parts iff neither holds a colon |
| PluginStates.SplitKeyJoins | internal/cluster/plugin.go:303-310 | a key that splits is the join of its parts |
| PluginStates.OfNodeIsItsNode | internal/cluster/plugin.go:124-126 | the scan pattern of a node matches a key iff the key's node part is that node |
| PluginStates.PluginKeyEnds | internal/cluster/plugin.go:128-130 | the scan pattern of a plugin matches only keys of that plugin's hash |
| PluginStates.Node.DoPluginStateUpdate | internal/cluster/plugin.go:172-219 | writes a registered plugin's state with the current time, or removes the state of an unregistered one |
| PluginStates.Node.RegisterPlugin | internal/cluster/plugin.go:29-72 | registers and refreshes; a failed write leaves the plugin registered and unscheduled |
| PluginStates.Node.UnregisterPlugin | internal/cluster/plugin.go:74-114 | forgets the plugin iff one of three removals succeeds, and then its state is gone |
| PluginStates.Node.SchedulePlugins | internal/cluster/plugin.go:136-169 | visits every plugin once; refreshes exactly the plugins that are due and whose write succeeds, and changes no other state |
| PluginStates.Node.ForceGCNodePlugin | internal/cluster/plugin.go:254-266 | removes the state of a node's plugin, and the memory of it on the node itself |
| PluginStates.Node.CollectState | internal/cluster/plugin.go:343-353 | one inactive state is deleted under its own key, and its own node forgets the plugin, whatever fails |
| PluginStates.Node.AutoGCPlugins | internal/cluster/plugin.go:313-359 | succeeds iff no call for an inactive state fails, and then precisely the inactive states are gone; no active state is touched; the node forgets a plugin only for its own inactive state, and on success every such plugin; after a success every state left was scheduled within 30 s, and no state scheduled within 30 s is ever removed |
| PluginStates.Node.GcNode | internal/cluster/node.go:230-252 | succeeds iff no call fails; success leaves no entry of the node in either map; no other node's entry is touched, whatever fails; only a node that collects itself forgets plugins, those with a stored state |
| PluginStates.Node.AutoGCNodes | internal/cluster/node.go:192-227 | exactly the disconnected nodes none of whose calls fail are gone, whatever happens to the others, and it succeeds iff those are all; a state is lost only with a disconnected node; a pass that cannot read the node map collects nothing and succeeds |
| PluginStates.Node.UpdateNodeStatus | internal/cluster/node.go:18-93 | succeeds iff no call fails; the node's own ping is written in whole seconds unless locking, reading or writing fails, and success rebuilds the set of available nodes, itself among them |
| PluginStates.Node.FetchPluginAvailableNodesByHashedId | internal/cluster/node.go:116-171 | returns exactly the known nodes whose state for the plugin is valid, and removes exactly that plugin's invalid states whose deletion succeeds |
| PluginFreshness.KeptAndPromptIsFresh | internal/cluster/plugin.go:136-169 | prompt visits and pings make every registered plugin's state less than 13 s old and every running node available |
| PluginFreshness.FreshSurvives | internal/cluster/plugin.go:273-301 | a fresh state passes the 15 s and the 30 s test, so no lookup and no collector removes it, whatever keys it is set on |
| PluginFreshness.StepKeepsState | internal/cluster/plugin.go:221-359 | no event but its own node's changes a registered plugin's state; collections may stop half-way |
| PluginFreshness.StepKept | internal/cluster/cluster_lifetime.go:107-162 | every event of the cluster keeps states and node memories in step |
| PluginFreshness.LiveStateStaysFresh | internal/cluster/cluster_lifetime.go:38-40 | in every run with visits at most 3 s and pings at most 5 s apart and successful state writes, each registered plugin's state is stored and less than 13 s old |
| PluginFreshness.CollectorsForgetNothing | internal/cluster/plugin.go:254-266 | with fresh states no collector makes a node forget a plugin |
| PluginFreshness.StepKeepsRegistered | internal/cluster/plugin.go:313-359 | a registered plugin stays registered over every event but its own unregistering, crash or leaving |
| PluginFreshness.StaysRegistered | internal/cluster/plugin.go:136-169 | in every such run a registered plugin stays registered, with a fresh state, till its node gives it up |
| PluginFreshness.TickIsVisits | internal/cluster/plugin.go:136-169 | what a scheduler tick does to states and memory is the run of its visits |
| PluginFreshness.CollectsExactlyWhen | internal/cluster/plugin.go:273-284 | a collection that gets to a state takes it iff it was never scheduled or more than 30 s ago |
| PluginFreshness.LookupTakesExactlyWhen | internal/cluster/plugin.go:288-301 | a lookup that gets to a state of its plugin takes it iff it was never scheduled or more than 15 s ago |
| PluginFreshness.CrashedStateIsCollected | internal/cluster/plugin.go:312-359 | over any run in which a crashed node does not start again, its states are gone after a collection that gets to them more than 30 s later |
| PluginFreshness.CrashedNodeIsUnavailable | internal/cluster/node.go:192-227 | over any such run the node is unavailable from 10 s later on, and is then collected |
| PluginFreshness.LeavesNothing | internal/cluster/node.go:229-257 | a node that leaves in good order takes its status and all its states with it, and no others |
| PluginFreshness.CrashAndCollection | internal/cluster/plugin.go:312-359 | one run: a crashed node's state is still there 30 s after its last refresh, and gone with its node 1 ms later |
| Splitting.PiecesAreFree | internal/core/debugging_runtime/codec.go:30-50 | no piece of a split holds the separator |
| Splitting.JoinAfterSplit | internal/core/debugging_runtime/codec.go:30-50 | joining the pieces of a split gives the text back |
| LineFramer.Codec.GetLines | internal/core/debugging_runtime/codec.go:30-50 | the lines handed out hold no newline and, framed, followed by the new buffer are the old buffer followed by the chunk; the buffer holds no newline |
| LineFramer.Deliver | internal/core/debugging_runtime/hooks.go:147-153 | delivers exactly the non-empty lines, in order |
| LineFramer.Receive | internal/core/debugging_runtime/codec.go:30-50 | for every stream and every way of cutting it: lines and buffer are the reading of the chunks, that is the complete lines and the rest of the stream, and framed non-empty messages are delivered exactly |
| LineFramer.SplitFramed | internal/core/debugging_runtime/codec.go:30-50 | splitting framed lines and an unterminated rest gives them back |
| LineFramer.OneReading | internal/core/debugging_runtime/codec.go:30-50 | a stream determines its lines and its rest |
| LineFramer.ReceivedExactly | internal/core/debugging_runtime/hooks.go:147-153 | a stream that frames non-empty messages has those as its non-empty lines and no rest |
| LineFramer.DropsExactlyTheEmpty | internal/core/debugging_runtime/hooks.go:147-153 | no empty line is delivered, and every other one as often as it was received |
| LineFramer.ReadingIsOfTheStream | internal/core/debugging_runtime/codec.go:30-50 | what is handed out for chunks and what is left over are a reading of the whole stream |
| LineFramer.ChunkingIrrelevant | internal/core/debugging_runtime/codec.go:30-50 | two lists of chunks that make up the same stream hand out the same lines and leave the same rest |
| Base64.DecodeShrinks | internal/core/debugging_runtime/runtime_intialization_handlers.go:57-74 | decoded base64 (section 4 of RFC 4648) is never longer than its text |
| Base64.RoundTrip | internal/core/io_tunnel/agent_service.go:100-104 | decoding the encoding of any bytes gives them back |
| Declarations.InvalidKindsStay | pkg/entities/plugin_entities/plugin_declaration.go:279-305 | providers that cannot go together stay invalid whatever is added |
| Declarations.ValidExactlyWhen | pkg/entities/plugin_entities/plugin_declaration.go:257-309 | the manifest check passes iff author and name are of 1 to 64 and 1 to 128 of the allowed characters and the providers are tools, endpoints or both, or exactly one of another kind |
| Declarations.RemapIconFields | internal/core/plugin_manager/media_transport/assets.go:13-72 | the fields are remapped in order up to the first file that cannot be had, which is blanked unless it is one of a datasource step |
| Declarations.RemapAssets | internal/core/plugin_manager/media_transport/assets.go:10-158 | providers, then the manifest, in the order of the source; after a failure what was done stays done |
| Declarations.IconsRemapped | internal/core/plugin_manager/media_transport/assets.go:13-72 | fields before the first missing file hold its media identifiers, that one is blanked or kept, later ones are as before |
| Declarations.AllRemapped | internal/core/plugin_manager/media_transport/assets.go:10-158 | a success remaps the fields of every provider but the endpoints, and the manifest's |
| Declarations.RemapStopsAt | internal/core/plugin_manager/media_transport/assets.go:36-158 | a failure stops at the first kind in the order model, tool, agent strategy, datasource, trigger, manifest; later ones are not touched |
| Declarations.RemapKeepsCheck | internal/core/plugin_manager/media_transport/assets.go:10-158 | remapping, successful or not, does not change what the manifest check says |
| Declarations.IconsRemapExactlyWhen | internal/core/plugin_manager/media_transport/assets.go:13-32 | a list of fields is remapped iff every file it names was sent and can be stored |
| Declarations.ProvidersRemapExactlyWhen | internal/core/plugin_manager/media_transport/assets.go:36-141 | the providers are remapped iff every file they name was sent and can be stored |
| Declarations.RemapsExactlyWhen | internal/core/plugin_manager/media_transport/assets.go:10-158 | remapping succeeds iff every file the declaration names was sent and can be stored |
| Declarations.ProvidersForgetOne | internal/core/plugin_manager/media_transport/assets.go:36-141 | a remapping of providers that fails leaves fewer fields that name a file; with no assets, exactly one fewer |
| Declarations.RemapForgetsOne | internal/core/plugin_manager/media_transport/assets.go:10-158 | a remapping that fails leaves a declaration with fewer fields that name a file; with no assets, exactly one fewer, and it succeeds iff there was none |
| Drafts.AssetKeepsInv | internal/core/debugging_runtime/runtime_intialization_handlers.go:44-76 | an asset chunk keeps the byte count equal to the buffer lengths and within 50 MiB |
| Drafts.HandlersKeepInv | internal/core/debugging_runtime/runtime_intialization_handlers.go:44-304 | so does every registration message |
| Drafts.ChunkIsKnown | internal/core/debugging_runtime/runtime_intialization_handlers.go:53-76 | a chunk, accepted or refused, leaves its file among the assets and everything else but the count alone |
| Drafts.ChunkAppends | internal/core/debugging_runtime/runtime_intialization_handlers.go:53-76 | a chunk is accepted iff its text added to the bytes so far is within 50 MiB and is base64, and then appended to its own file alone |
| Drafts.DeclaredStands | internal/core/debugging_runtime/runtime_intialization_handlers.go:139-304 | after the manifest no message changes its names, nor what is declared under a kind that was declared |
| Drafts.EndRemaps | internal/core/debugging_runtime/runtime_intialization_handlers.go:78-116 | a successful END leaves media identifiers in the declaration and changes nothing else |
| Drafts.EndSucceedsExactlyWhen | internal/core/debugging_runtime/runtime_intialization_handlers.go:78-116 | END succeeds iff something was declared, every file named was sent and can be stored, and the manifest check passes |
| Drafts.StaysIncompletable | internal/core/debugging_runtime/runtime_intialization_handlers.go:139-304 | a manifest with wrong names, or providers that cannot go together or come any more, never passes END whatever is sent |
| Drafts.RefusedEndForgets | internal/core/debugging_runtime/runtime_intialization_handlers.go:78-113 | an END refused for a missing file has blanked a field that names one, and left the rest of the check as it was |
| Registration.DifyServer.OnMessage | internal/core/debugging_runtime/hooks.go:158-250 | one message moves runtime and connection counter as the state machine does |
| Registration.DifyServer.OnOpen | internal/core/debugging_runtime/hooks.go:51-91 | a new connection has a fresh runtime in the server's map and an empty line buffer |
| Registration.DifyServer.OnClose | internal/core/debugging_runtime/hooks.go:93-116 | the end of a connection takes its runtime out of the map, closes it and lowers the counter by one; a second one does nothing |
| Registration.DifyServer.OnTraffic | internal/core/debugging_runtime/hooks.go:124-156 | one traffic event is the run of the state machine over the non-empty lines it completes; it has no effect once the runtime has left the map |
| Registration.DifyServer.Serve | internal/core/debugging_runtime/hooks.go:51-156 | however the bytes are cut, whatever they are, a whole connection is the run of the state machine over the complete non-empty lines of its stream and the end of the connection, and the counter changes by the ENDs counted minus one |
| Registration.RemotePluginRuntime.HandleHandShake | internal/core/debugging_runtime/runtime_intialization_handlers.go:18-42 | gives a tenant iff no handshake was made and the key is known |
| Registration.RemotePluginRuntime.HandleAssetsTransfer | internal/core/debugging_runtime/runtime_intialization_handlers.go:44-76 | appends the decoded chunk unless it is malformed or could exceed 50 MiB |
| Registration.RemotePluginRuntime.HandleInitializationEndEvent | internal/core/debugging_runtime/runtime_intialization_handlers.go:78-137 | initialises iff something was declared, assets are remapped and the declaration is valid; a failed remapping leaves the declaration as far as it got |
| Registration.RemotePluginRuntime.HandleDeclarationRegister | internal/core/debugging_runtime/runtime_intialization_handlers.go:139-160 | takes the manifest once |
| Registration.RemotePluginRuntime.HandleProviderRegister | internal/core/debugging_runtime/runtime_intialization_handlers.go:162-304 | the six provider declarations as one step: each kind once, its first provider kept |
| Registration.StepKeepsInv | internal/core/debugging_runtime/hooks.go:158-250 | every message keeps the registration invariants |
| Registration.ReachableInv | internal/core/debugging_runtime/hooks.go:158-250 | in every reachable state: initialised implies handshake, a declared module and transferred assets, and excludes a failed handshake; nothing is registered before the handshake; a connection is closed only after its handshake was made or failed; assetsBytes is the sum of the buffers and at most 50 MiB |
| Registration.FailureIsAbsorbing | internal/core/debugging_runtime/hooks.go:158-163 | after a failed handshake nothing but the end of the connection has any effect |
| Registration.DisconnectIsFinal | internal/core/debugging_runtime/hooks.go:138-144 | after the end of the connection nothing that still arrives touches the runtime or the counter |
| Registration.TenantIsFixed | internal/core/debugging_runtime/hooks.go:185-194 | the tenant never changes after the handshake |
| Registration.DeclarationStands | internal/core/debugging_runtime/runtime_intialization_handlers.go:139-304 | once the manifest is taken, its names and what was declared under each kind stand over every run |
| Registration.CounterLaw | internal/core/debugging_runtime/hooks.go:93-116 | over every run of a connection the counter changes by one for each END handled between handshake and initialisation, accepted or not, and by minus one for the end of the connection |
| Registration.CounterReturnsExactlyWhen | internal/core/debugging_runtime/hooks.go:93-116 | a whole connection leaves the counter as it was iff exactly one END was counted, and one without ENDs lowers it |
| Registration.InitialisedOnlyDelivers | internal/core/debugging_runtime/hooks.go:246-249 | an initialised runtime appends each message to the response stream, in order, until the connection ends, and changes nothing else |
| Registration.OnlyLaterMessagesDelivered | internal/core/debugging_runtime/hooks.go:246-249 | the response stream holds exactly the messages after initialisation and before the end of the connection |
| Registration.RunMore | internal/core/debugging_runtime/hooks.go:124-156 | handling the lines of two events in turn is handling all of them |
| Registration.ServedExactly | internal/core/debugging_runtime/hooks.go:124-156 | the lines handled over a connection are the complete non-empty lines of its stream |
| Registration.InitialisedExactlyBy | internal/core/debugging_runtime/hooks.go:138-216 | a message initialises a runtime iff it is an END within the connection limit, before the end of the connection and after a handshake that has not failed, with a module declared, every asset that the declaration names at hand and a declaration that passes the manifest check, whether or not the connection is closed |
| Registration.RunIgnoresClosing | internal/core/debugging_runtime/hooks.go:165-170 | over every run, from every state, that the connection is closed makes no difference to anything else: what is received until the end of the connection is handled has the same effect |
| Registration.ClosedCanInitialiseExactlyWhen | internal/core/debugging_runtime/hooks.go:93-220 | a closed connection can still be initialised by some continuation iff its end was not handled yet, its handshake was made and has not failed, and the manifest, if one was taken, has valid names and either providers that go together, or none while some kind is still undeclared |
| Registration.ClosedCanStillInitialise | internal/core/debugging_runtime/hooks.go:165-220 | a refused END closes the connection, and yet an icon, a manifest, an endpoint and END already received initialise the runtime |
| Registration.RepeatedEndsInitialise | internal/core/plugin_manager/media_transport/assets.go:10-158 | a valid declaration with n asset fields is initialised by n + 1 ENDs whatever assets are missing, and without any assets by k ENDs iff k > n (no datasource steps) |
| Registration.MissingIconIsForgotten | internal/core/plugin_manager/media_transport/assets.go:143-148 | an END without the icon that the manifest names is refused, and the next END initialises the runtime without it |
| Broadcasting.Broadcast.OnClose | pkg/entities/listener.go:26-35 | registers a callback before Close and runs it at once after, as the concurrent steps do |
| Broadcasting.Broadcast.Close | pkg/entities/listener.go:37-51 | runs everything registered once, in order, as the concurrent steps do; a second Close runs nothing |
| Broadcasting.StepConserves | pkg/entities/listener.go:26-51 | no step of concurrent callers loses or copies a callback |
| Broadcasting.ClosedExactlyByClose | pkg/entities/listener.go:37-51 | a broadcast is closed iff Close was called |
| Broadcasting.CallbacksAreConserved | pkg/entities/listener.go:26-51 | however callers interleave, registered callbacks are those waiting, pending and run, and none is pending or run before a Close |
| Broadcasting.ExactlyOnceAfterClose | pkg/entities/listener.go:26-51 | in every run with a Close whose callbacks are done, each registered callback has run exactly once |
| Broadcasting.DrainedRunsAll | pkg/entities/listener.go:48-50 | running the callbacks in flight one after the other leaves them all run and none pending |
| Invocation.LocalRuntime.Listen | internal/core/local_runtime/io.go:35-82 | binds the session to the picked instance and hands its output to a new listener that cleans up once, or changes nothing if there is no instance |
| Invocation.LocalRuntime.CloseListener | internal/core/local_runtime/io.go:50-54 | the first closing of a listener forgets the session and its handler; another one changes nothing but the count of calls |
| Invocation.LocalRuntime.Write | internal/core/local_runtime/io.go:84-131 | the request goes to the session's instance; a dead one is stopped, evicted and unbound; any other outcome changes nothing |
| Invocation.Attempt.CloseListenerOnce | internal/core/io_tunnel/generic.go:170-173 | closes the listener the first time and does nothing later |
| Invocation.Attempt.OnClose | internal/core/io_tunnel/generic.go:189-204 | a callback added to a closed stream runs at once, so a listener whose stream is closed already is closed then |
| Invocation.Attempt.CloseResponse | internal/core/io_tunnel/generic.go:209-211 | closing the stream closes the listener if that was left to it and not done before, once |
| Invocation.MakeAttempt | internal/core/io_tunnel/generic.go:92-223 | from nothing registered, an attempt on the instance picked leaves exactly its own listener with an open stream, or nothing with a closed stream and a listener closed exactly once; other sessions and handlers are as before; the request is written to that instance unless the context is done, and the instance is evicted iff it is found dead |
| Invocation.InvokePluginOnce | internal/core/io_tunnel/generic.go:68-224 | makes exactly the attempts up to the first that is not to be followed up, each on the instance picked for it, and returns what that one comes to; on error every opened listener was closed exactly once, every stream is closed and sessions and handlers are as before; on success only the last attempt's listener is open, as long as its stream; requests written, evictions and restarting are those of the attempts in order; dead instances before one that takes the request, in time, end in success |
| Invocation.AttemptsAreBounded | internal/core/io_tunnel/generic.go:20-23 | at most 21 attempts are followed up, however quick they are |
| Invocation.FollowedUpExactlyWhen | internal/core/io_tunnel/generic.go:212-222 | an attempt is followed up iff the runtime is local, no instance could be picked or the write failed because it is dead or gone, at most 6 s have passed and the context is not done |
| Invocation.ReturnsExactly | internal/core/io_tunnel/generic.go:206-224 | success, end of the context, or the cause of the failed attempt, each from what happened in the last attempt |
| Invocation.DeadAreOutlived | internal/core/io_tunnel/generic.go:92-224 | after any number of dead instances, in time, the first instance that takes the request makes the invocation succeed |
| Invocation.LosesExactlyTheDead | internal/core/local_runtime/io.go:97-115 | over any number of attempts exactly the instances found dead are stopped and evicted, and the runtime restarts iff the last one was lost so |
| Invocation.WritesExactlyTheRequests | internal/core/io_tunnel/generic.go:182-187 | one request is written per attempt whose context is not done by then, to the instance picked, in order |
| Invocation.DeadIsNotPickedAgain | internal/core/local_runtime/io.go:97-108 | when picks come from the instances the runtime has, no attempt goes to an instance that an earlier one found dead |
| Invocation.DeadAreBounded | internal/core/local_runtime/io.go:97-108 | and at most as many attempts find an instance dead as there were instances |
| Invocation.FinishInvocation | internal/core/io_tunnel/generic.go:189 | closing the stream of a success closes its listener once and leaves sessions and handlers as they were before the invocation, and the instances alone |
| BlobReassembly.Reassemble | internal/core/io_tunnel/agent_service.go:48-119 | the stream is answered up to its first failing item: end chunks emit exactly the data collected for their file so far, and the other items that were read all pass in order |
| BlobReassembly.AnsweredOneByOne | internal/core/io_tunnel/agent_service.go:48-119 | the response answers one for one and in order the messages that are no chunks, with themselves, and the complete end chunks, with their files |
| BlobReassembly.AllAnswered | internal/core/io_tunnel/agent_service.go:48-119 | and none of them is left out |
| BlobReassembly.OthersPass | internal/core/io_tunnel/agent_service.go:117-119 | messages that are no chunks pass through, all of them and in order |
| BlobReassembly.CleanExactlyWhen | internal/core/io_tunnel/agent_service.go:61-116 | a stream goes through iff every declared length is within 15 MiB, and every data chunk finds at most 15 MiB collected and decodes to at most 8192 bytes |
| BlobReassembly.FailsFor | internal/core/io_tunnel/agent_service.go:61-116 | what is wrong with the item a stream fails at |
| BlobReassembly.OneMore | internal/core/io_tunnel/agent_service.go:48-119 | one item adds exactly its own data, output or failure |
| BlobReassembly.BuffersStayBounded | internal/core/io_tunnel/agent_service.go:91-113 | no buffer exceeds 15 MiB + 8192 bytes |
| BlobReassembly.InterleavingIrrelevant | internal/core/io_tunnel/agent_service.go:48-119 | what is collected for a file depends on that file's chunks alone |
| BlobReassembly.CollectedChunks | internal/core/io_tunnel/agent_service.go:98-112 | the chunks of a file that was cut into pieces collect to the file |
| BlobReassembly.FileArrivesWhole | internal/core/io_tunnel/agent_service.go:48-119 | a file sent in base64 pieces comes out whole at its end chunk, whatever is interleaved |
| PackageStore.Storage.SavePackage | internal/core/plugin_manager/packages.go:109-115 | stores the bytes or changes nothing, and keeps every declaration's package in the bucket |
| PackageStore.Storage.DeletePackage | internal/core/plugin_manager/packages.go:186-193 | removes a package that no declaration names, keeping integrity |
| PackageStore.Storage.CreateDeclaration | internal/core/plugin_manager/packages.go:117-126 | adds a row for a stored package, keeping integrity |
| PackageStore.Storage.DeleteDeclaration | internal/core/plugin_manager/packages.go:177-181 | removes a row, keeping integrity |
| PackageStore.RollbackPreparedPackage | internal/core/plugin_manager/packages.go:173-196 | undoes what the record says, and keeps every declaration's package in the bucket |
| PackageStore.PersistPackage | internal/core/plugin_manager/packages.go:77-150 | succeeds iff no decisive call fails, an insert refused because of another writer's row counting as success; afterwards the store is exactly as specified, and a success records what was there |
| PackageStore.DeclarePackage | internal/core/plugin_manager/packages.go:117-145 | the row of a written package is created, found, or another writer's, unless a call fails |
| PackageStore.BytesUndone | internal/core/plugin_manager/packages.go:182-193 | rollback gives an identifier back what it had iff it holds these bytes and was not declared before |
| PackageStore.UndoneExactlyWhen | internal/core/plugin_manager/packages.go:173-196 | rollback right after persisting restores the store iff no declared package with other bytes was replaced and no other writer declared it |
| PackageStore.PersistNext | internal/service/plugin_decoder.go:196-206 | one turn of the persisting loop, with the records of the packages before it untouched |
| PackageStore.UploadPluginBundle | internal/service/plugin_decoder.go:196-214 | succeeds iff every package is persisted, and then each is declared with the bytes saved last; it fails at the first that is not, leaving exactly what rolling back leaves: the table as it was, and the bucket too when identifiers name their bytes; every declaration keeps its package throughout |
| PackageStore.AllStored | internal/service/plugin_decoder.go:196-206 | after packages that were all persisted, every identifier holds the bytes saved last and is declared iff it was before or is among them |
| PackageStore.TableRolledBack | internal/service/plugin_decoder.go:199-204 | rolling back a failed bundle takes out exactly the rows that it created |
| PackageStore.BytesRolledBack | internal/service/plugin_decoder.go:199-204 | what rolling back leaves of each identifier, in terms of the bytes saved last |
| PackageStore.BundleRestoredExactlyWhen | internal/service/plugin_decoder.go:196-206 | a failed bundle leaves the store as it was iff for each identifier the bytes saved last are those held before, or, if it was not declared, those of its first package |
| PackageStore.NamedBundleIsRestored | internal/service/plugin_decoder.go:196-206 | with identifiers naming their bytes a failed bundle leaves nothing behind |
| PackageStore.AbortBundle | internal/service/plugin_decoder.go:199-204 | rolls back the packages before the failed one in reverse order |
| PackageStore.OtherBytesAreLeftBehind | internal/core/plugin_manager/packages.go:173-196 | a bundle with two packages of other bytes under one identifier that fails leaves bytes without a declaration behind |
| Pagination.ListPluginsByCategory | internal/service/manage_plugin.go:308-400 | the listing is the slice from (page-1)*size to page*size of the filtered rows, has_more holds iff more rows match, and it fails exactly with the first trouble met before one match more than listed |
| Pagination.Scan | internal/service/manage_plugin.go:325-392 | the scan ends for every number of rows, with enough matches or after the last row |
| Pagination.ScanNext | internal/service/manage_plugin.go:325-392 | one block is read and scanned; an empty or short one is the last |
| Pagination.ScanBlock | internal/service/manage_plugin.go:339-387 | the rows of a block are looked up, skipped or taken in order until the page is full |
| Pagination.FetchBlock | internal/service/manage_plugin.go:326-337 | block p holds rows (p-1)*256 to p*256 |
| Pagination.MatchingPrefix | internal/service/manage_plugin.go:339-387 | the matches among fewer rows are a prefix of those among more |
| Pagination.GatherRow | internal/service/manage_plugin.go:339-387 | one row is skipped, counted or taken |
| Pagination.GatheredEnough | internal/service/manage_plugin.go:394-399 | with the page full or the rows used up, what was gathered is the slice and has_more, and the scan met no trouble |
| Pagination.PagesCoverTheList | internal/service/manage_plugin.go:308-400 | pages 1 to n are the first n*size matches, and has_more is false on page n iff those are all of them |
| RoundRobin.PicksAreFair | internal/core/local_runtime/load_balancing.go:17-22 | m counter values in a row visit each of n slots floor(m/n) or one more times, and exactly m/n times when n divides m, unless the counter wraps visibly |
| RoundRobin.TimesInClosedForm | internal/core/local_runtime/load_balancing.go:17-22 | how often a slot is visited, as a difference of two quotients |
| RoundRobin.SeamMissesASlot | internal/core/local_runtime/load_balancing.go:17-22 | n probes across the wrap at 2^64 leave a slot out when n does not divide 2^64 |
| RoundRobin.CoversExactlyWhen | internal/core/local_runtime/load_balancing.go:17-22 | n probes visit every slot iff the counter does not wrap between two of them or n divides 2^64 |
| RoundRobin.ProbeFinds | internal/core/local_runtime/load_balancing.go:16-25 | a pick finds an instance iff one of its probes meets a live one |
| RoundRobin.AlwaysFindsExactlyWhen | internal/core/local_runtime/load_balancing.go:16-25 | a pick never misses a live instance, whichever are live, iff the counter does not wrap between two probes or n divides 2^64 |
| RoundRobin.RunIsFair | internal/core/local_runtime/load_balancing.go:7-26 | k*n picks in a row among n live instances choose each exactly k times |
| LocalScheduler.PluginInstance.WriteError | internal/core/local_runtime/instance.go:291-307 | the buffer is the last 1024 bytes of the old buffer and the message; the branch that empties it cannot be taken |
| LocalScheduler.WrittenIsTheTail | internal/core/local_runtime/instance.go:291-307 | after any writes the buffer is the last 1024 bytes of everything written |
| LocalScheduler.DeleteStopped | internal/core/local_runtime/control.go:126-132 | keeps exactly the live instances, in order |
| LocalScheduler.LocalPluginRuntime.PruneStoppedInstances | internal/core/local_runtime/control.go:126-132 | no stopped instance survives a prune, every live one does, and ids stay distinct |
| LocalScheduler.LocalPluginRuntime.PickLowestLoadInstance | internal/core/local_runtime/load_balancing.go:7-26 | the instance and the counter are those of the probe sequence |
| LocalScheduler.LocalPluginRuntime.OnInstanceReady | internal/core/local_runtime/subprocess.go:175-198 | the new instance joins at the end, and ids stay distinct |
| LocalScheduler.LocalPluginRuntime.OnInstanceShutdown | internal/core/local_runtime/subprocess.go:199-211 | the stopped instance alone leaves the list; no live one is lost |
| LocalScheduler.LocalPluginRuntime.GracefullyStopLowestLoadInstance | internal/core/local_runtime/subprocess.go:300-310 | stops the next instance in turn and no other |
| LocalScheduler.LocalPluginRuntime.ScheduleOnce | internal/core/local_runtime/control.go:54-103 | one turn keeps exactly the live instances and starts or stops at most one, ids staying distinct |
| LocalScheduler.LocalPluginRuntime.Scale | internal/core/local_runtime/control.go:70-92 | with stopped instances gone, one instance is started, or the next in turn is stopped, or neither |
| LocalScheduler.LocalPluginRuntime.ScheduleLoop | internal/core/local_runtime/control.go:49-100 | running the loop, the distance of live instances to the target drops by one per turn (per successful start when instances are missing) until zero |
| LocalScheduler.LocalPluginRuntime.ForcefullyShutdownAllInstances | internal/core/local_runtime/control.go:186-201 | ends with an empty list, every instance stopped |
| LocalScheduler.LiveWithout | internal/core/local_runtime/subprocess.go:199-211 | leaving a stopped instance out loses no live one |
| LocalScheduler.LiveAllBut | internal/core/local_runtime/control.go:126-132 | stopping one of the live instances leaves the others |
| LocalScheduler.Converges | internal/core/local_runtime/control.go:54-103 | with a fixed target the distance of live instances to it drops by exactly one per turn (per successful start when instances are missing) until zero, and stays there |
| LocalScheduler.SettlesInTime | internal/core/local_runtime/control.go:54-103 | where every start succeeds the target is met iff at least as many turns were made as the distance |
| ServerlessTrace.InvokeServerlessWithRetry | internal/core/serverless_runtime/io.go:186-292 | a request is repeated after transport errors and 502 only, at most so often; each outcome says exactly which requests were made |
| ServerlessTrace.ReadLines | internal/core/serverless_runtime/io.go:461-525 | the loop stops at the first stopping line, with the messages before it sent |
| ServerlessTrace.ReadBody | internal/core/serverless_runtime/io.go:457-551 | what is sent for a body that is read is the forwarded messages and its terminal message |
| ServerlessTrace.Exchange | internal/core/serverless_runtime/io.go:341-552 | the messages up to the deferred clean-up, and whether that sends END |
| ServerlessTrace.Respond | internal/core/serverless_runtime/io.go:341-552 | an invocation sends exactly its specified trace |
| ServerlessTrace.OneTerminalMessage | internal/core/serverless_runtime/io.go:347-368 | for every world: session messages other than END first, then exactly one END or daemon error as the last message, or none iff the caller gave up |
| ServerlessTrace.EndExactlyWhen | internal/core/serverless_runtime/io.go:457-551 | END is sent iff a good response was read without error up to an END, or to its last line with a session message in it |
| ServerlessTrace.EarlyErrorsExactly | internal/core/serverless_runtime/io.go:341-456 | each error before the body is sent iff its own cause is there: activation, request, status outside 200 to 299, error header |
| ServerlessTrace.BodyErrorsExactly | internal/core/serverless_runtime/io.go:457-551 | each error of a body is sent iff its own cause is there, and an END carries the data of the session's own END, if there was one |
| ServerlessTrace.ForwardedOneByOne | internal/core/serverless_runtime/io.go:461-525 | every session message is forwarded as it is, one for one and in order |
| ServerlessTrace.ServerlessPluginRuntime.DeleteListener | internal/core/serverless_runtime/io.go:313-317 | removes the listener iff it is the stored one |
| ServerlessTrace.ServerlessPluginRuntime.WriteContext | internal/core/serverless_runtime/io.go:303-333 | goes ahead with the stored listener, or refuses and removes it for a bad address or too large a payload |
| ServerlessTrace.LatestListenerIsKept | internal/core/serverless_runtime/io.go:167-179 | however Listen and clean-ups interleave, a session has the listener stored last unless that one was cleaned up |
| PersistenceStore.Persistence.Save | internal/core/persistence/persistence.go:37-106 | each error and each of object, size row and cache afterwards, for every combination of failing calls |
| PersistenceStore.Persistence.Load | internal/core/persistence/persistence.go:109-133 | reads through the cache and fills it |
| PersistenceStore.Persistence.Delete | internal/core/persistence/persistence.go:135-169 | drops cache entry, object and size, stopping at the first failing call |
| PersistenceStore.Persistence.Exist | internal/core/persistence/persistence.go:171-192 | answers from the cache, else from storage |
| PersistenceStore.TraversesExactlyWhen | internal/core/persistence/persistence.go:29-35 | a key is refused iff two dots, two slashes or a backslash stand anywhere in its cleaned form |
| PersistenceStore.SaveFailsFor | internal/core/persistence/persistence.go:37-107 | each error of a Save iff its cause, the quota being the lower of the plugin's and the request's own maximum, unless that is -1 |
| PersistenceStore.SaveIsAccountedExactlyWhen | internal/core/persistence/persistence.go:47-99 | after a Save the size row is the sum of the objects and within the quota iff it was not written and then refused for quota or row with a changed size, nor charged without a size probe for a non-empty object |
| PersistenceStore.RefusedSaveStaysStored | internal/core/persistence/persistence.go:57-88 | a Save over the quota is refused and yet its object is stored, uncounted and readable |
| PersistenceStore.DeleteIsAccountedExactlyWhen | internal/core/persistence/persistence.go:135-169 | the accounts survive a Delete iff it does not remove a non-empty object and then fail on the row |
| PersistenceStore.SaveIsCoherentExactlyWhen | internal/core/persistence/persistence.go:101-105 | the cache agrees with storage after a Save iff it was not written, wrote the bytes that were there, or its object is cached at most under its key and nothing failed after writing |
| PersistenceStore.DeleteIsCoherentExactlyWhen | internal/core/persistence/persistence.go:135-169 | the cache agrees with storage after a Delete iff the object was not removed or is cached at most under this key |
| PersistenceStore.OtherSpellingReadsDeletedBytes | internal/core/persistence/wrapper.go:21-24 | a key spelled in two ways: deleted bytes are still read, and said to exist, under the other spelling |
| PersistenceStore.ReadsLastExactlyWhen | internal/core/persistence/persistence.go:25-35 | over a set of keys every run with successful Saves and Deletes reads the bytes saved last iff no key that can be saved has another spelling in the set |
| PersistenceStore.SmoothKeeps | internal/core/persistence/persistence.go:37-192 | over keys with one spelling each, successful Saves and Deletes, Loads and expiries keep the cache in agreement with storage |
| PersistenceStore.StoreIsAMap | internal/core/persistence/persistence.go:37-192 | over every run with successful Saves and Deletes the storage is a plain map from cleaned keys; with the probes the size row is its total and within the quota |
| PersistenceStore.ReadsTheLastSave | internal/core/persistence/persistence.go:109-192 | over keys with one spelling each, Load returns the bytes saved last or fails for a stated reason, and Exist agrees with what was saved |
| MapTotals.TotalUpdate | internal/core/persistence/persistence.go:57-88 | replacing a value changes the total by the difference of the lengths |
| MapTotals.TotalRemove | internal/core/persistence/persistence.go:147-163 | removing a value lowers the total by its length |

## Left out

- PackageStore.RollbackPreparedPackage: its own storage calls are taken to succeed, and media assets are not modelled; a failing asset remap is a failure before anything is stored.
- PackageStore.BundleRestoredExactlyWhen: nobody else inserts declarations while a bundle is uploaded; what another writer's row does to one package is modelled.
- MasterLease.Node.MasterTick: the clock is global, and a ticker firing takes no time.
- PluginStates.Node.AutoGCPlugins: clock readings inside one operation are equal, a scan sees the whole map at once and does not itself fail, and the re-entrancy flags of the collectors, which are never set, are not modelled.
- PluginStates.Node.UpdateNodeStatus: the addresses of a node and voting on them are not part of this model.
- PluginFreshness.LiveStateStaysFresh: writes of states that are registered or refreshed succeed, and hashes are injective and hold no colon.
- Invocation.InvokePluginOnce: invocations of one session follow one another, errors are classified already, time is an abstract duration per attempt, and which instance is picked is a parameter: the picking itself is LocalScheduler's.
- BlobReassembly.Reassemble: the response stream has room for every item; what a full stream drops is not modelled.
- BatchCoordination.CoordinateTextEmbeddingBatches: prices and latency are real numbers without rounding.
- Registration.DifyServer.OnMessage: notifiers, timers, the bytes written back and the closing of the response stream are not modelled; when the end of a connection is handled after it was closed is left open.
- Registration.RepeatedEndsInitialise: icons of datasource steps, which a failing remapping does not blank, are modelled but excluded here.
- Declarations.RemapAssets: of a manifest and of a provider only names, kinds and the fields that name assets are kept; defaults that are filled in touch none of them, and whether a file can be stored is a function of its name and bytes.
- LocalScheduler.LocalPluginRuntime.ScheduleOnce: a start either brings a live instance up in time or does not; the 32-bit target does not overflow.
- LocalScheduler.LocalPluginRuntime.GracefullyStopLowestLoadInstance: draining sessions before the stop is not modelled; both ways out of it stop the instance.
- LocalScheduler.LocalPluginRuntime.PickLowestLoadInstance: picks do not interleave.
- ServerlessTrace.InvokeServerlessWithRetry: backoff durations are not modelled.
- ServerlessTrace.Respond: the parsers of response lines are a classification of lines; keep-alive of the activation is not modelled.
- ServerlessTrace.ServerlessPluginRuntime.Listen: a listener is a number that stands for its broadcast; delivery to it is not modelled.
- PersistenceStore.Persistence.Save: sizes do not overflow 64 bits, keys of other tenants and plugins are other stores, and cleaning a path is a parameter.
- Pagination.ListPluginsByCategory: identifier parsing, declaration lookup, category and filters of a row are one parameter; the row order is stable between blocks.
- TextBatching.SplitTextRequest: the JSON encoding of one text is a parameter, and the list of texts is not null, as requests are validated.
- Token counting's own entry point, which plans and dispatches like text embedding does.
- HTTP, Redis, SQL, object storage, process and pipe handling, JSON parsing, signatures, installation tasks, endpoints, metrics, tracing and logging.
