# A verified model of the audio host's core

The host runs audio plugins on two threads. The control thread edits a model of tracks, each an
instrument followed by a chain of effects; the audio thread renders blocks from an immutable snapshot
of that model. This project models the four connected state machines at its centre and proves what
they promise.

* **The graph swap** (`Graph`, `TrackEdits`, `SwapProtocol`, `SwapOrder`, `SwapContents`, `SwapPhases`,
  `SwapInvariant`, `SwapTheorems`, `SwapAccounts`, `SwapPlay`, `SwapProgress`, `AudioGraphs`,
  `SwapWitness`, `EditPlaces`). The protocol by which
  a new snapshot reaches the audio thread and the old one, with the plugins it no longer uses, comes
  back to be destroyed. `SwapProtocol` is the protocol as interleaved steps of two threads, one step
  for each atomic load, store or exchange and for each call on a plugin node; graphs and nodes have
  identities that are never reused, and touching one that is gone, freeing it twice, or failing a
  lifecycle assertion sets `ub`. `SwapInvariant` shows one invariant that every step keeps, so the
  theorems hold in every interleaving. `AudioGraphs.AudioGraph` is the class itself: its methods record
  the steps they take in the ghost field `run` and prove that this is a run of the protocol that leads
  to their own fields.
* **Event routing** (`Translation`, `SortedQueue`, `EventQueue`, `EventRoute`, `EventStream`). The
  reorder queue is a binary heap in an array, proved to be a sorted sequence; one block of routing is
  proved to fill each node's bucket with exactly the events due for it; whole streams of blocks are
  then reasoned about on sequences.
* **Rendering** (`Mix`, `Render`, `PluginCalls`). `Mix` says what a block is: a fold of plugin calls over each chain
  and a fold over the tracks. `Render` has the loops over channel buffers, the exchange of two buffers
  along a chain and the fast path for constant channels, and proves that they compute it. Plugins and
  the float operations are uninterpreted functions; the order of the float operations is the code's.
  `PluginCalls` says what each plugin is given and what the mix amounts to, by plugins and arithmetic
  that show it.
* **The echo path** (`EchoRing`, `Notifications`, `EchoPath`). A lock-free ring with wrapping 32-bit
  counters, in every interleaving of its loads, slot accesses and stores, the bounded, coalescing queue
  of notifications it feeds, and both together: what the client polls against what the audio thread
  pushed.
* **Framing** (`Framing`). Length-prefixed messages over a byte stream that arrives in arbitrary pieces.

Where a property holds only under a condition, the contract says exactly when, and a lemma exhibits an
input for which it fails:

* A queued swap waits through an `audio_apply` if and only if both `to_control_` and `retire_` are full
  (`ApplyTakesUnlessFull`); `ThreeInFlight` and `PendingCanWait` reach such a state.
* `teardown` frees everything if and only if at most one swap is in flight (`Teardown`);
  `LeakyTeardown` is a sequence of calls after which it leaves two swaps and a graph.
* In offline mode an edit ends with all slots empty if and only if none was pending or retired before it
  (`CommitEdit`), which edits made in offline mode keep so; `OfflineKeepsOlder` is a sequence of calls
  after which an older swap is still parked.
* Track ids stay distinct unless the 32-bit counter comes round to an id in use (`EditKeepsIds`,
  `IdsCanRepeat`), and a located address leads back to its node unless an earlier track has the same id
  (`FindInvertsLocate`, `LocatedElsewhere`).
* The 32-bit bend is the mirror image about 2^31 if and only if the scaled bend has no fraction
  (`Bend32Mirror`, `Bend32Lopsided`).
* Past 2^32 frames the renderer and its producers know positions by their low 32 bits only. An event is
  handled rightly if and only if the rounds of 2^32 agree (`WrapExactly`, `BlockWrapsExactly`): a late
  event from before the wrap is held back, and in a block that straddles the wrap events after it come
  out early (`WrapWitnesses`). Up to the wrap nothing changes (`ExactUntilWrap`).

## Reading the code

* `Float` is the bit pattern of a 32-bit float. `Option` stands for a null pointer.
* Proofs keep the solver's context small with `hide` statements.
* Each acquire/release pair is taken as one sequentially consistent atomic step. A step also includes
  the thread-private work up to it; `old_graph` and `active_` are written by the audio thread alone and
  are one step. `swap_gen_` is written and never read, and is not part of the state.
* In the class, the loop of `queue_swap` yields to the audio thread by letting one complete
  `audio_apply` run; in the protocol the two threads interleave without restriction.
* Integers are unbounded where the code's widths make no difference. Track ids and the ring's counters
  wrap at 2^32, ports at 2^16, and the block start is the low 32 bits of the stream position. A sample
  time is a position below 2^32 in the theorems on streams, and the low 32 bits of one in those on the
  wrap.
* Bytes and bit fields are taken with division and remainder, as the code's shifts and masks do;
  `ShiftsAreSums`, `StatusByte`, `FieldsAddUp` and `MasksAreRemainders` state the agreement.

## Model

| member | source | states |
|---|---|---|
| Graph.GatherNodes | src/graph.cpp:6-22 | the first `cap` nodes, instrument before chain, in track order; the rest of the array is untouched |
| Graph.NodesInOrder | src/graph.cpp:9-20 | the nodes of a snapshot stand track by track, the instrument of each before its chain, which keeps its order |
| Graph.MinusKeepsOrder | src/graph_swap.cpp:69-82 | a difference list keeps the order of the list it is taken from |
| Graph.NodeSetContains | src/graph.cpp:24-34 | true if and only if the node is among the first `count` entries |
| Graph.FindTrack | src/graph.cpp:36-46 | the first track with the id, or none |
| Graph.ResolveNode | src/graph.cpp:48-64 | the node a (track, slot) address names: a negative slot is the instrument, a slot past the chain is nothing |
| Graph.Locate | src/graph_swap.cpp:294-320 | the first place the node occupies, scanning tracks in order and the instrument first |
| Graph.BoundedNodes | src/graph.cpp:6-22 | a snapshot never has more nodes than the `kMaxNodes` entries of the gathering arrays |
| Graph.ResolvedIsGathered | src/event_route.cpp:249-278 | a node an event resolves to is always among the gathered, numbered nodes |
| Graph.LocatedIffPresent | src/graph_swap.cpp:294-320 | a node is located if and only if it is in some track |
| Graph.LocateInvertsFind | src/graph_swap.cpp:275-320 | when no node occurs twice, locating the node found at an address gives the address back, every negative slot normalised to the instrument slot, even if track ids repeat |
| Graph.FindInvertsLocate | src/graph_swap.cpp:275-320 | a located address leads back to the node if and only if no earlier track carries the same id |
| Graph.LocatedElsewhere | src/graph_swap.cpp:275-320 | with two tracks of one id the second instrument is not found again |
| TrackEdits.Materialize | src/graph_swap.cpp:28-53 | the snapshot: at most `kMaxTracks` tracks of at most `kMaxEffectsPerTrack` effects, in order |
| TrackEdits.NothingTruncated | src/graph_swap.cpp:28-53 | a model within the bounds is copied whole |
| TrackEdits.EditKeepsBounded | src/graph_swap.cpp:186-273 | every accepted edit keeps the model within those bounds |
| TrackEdits.SnapshotAgrees | src/graph_swap.cpp:28-53 | an address resolves in the snapshot to the node it names in the model |
| TrackEdits.EditNodes | src/graph_swap.cpp:186-273 | an edit with a new node brings in that node and no other, and no node occurs twice afterwards |
| TrackEdits.EditKeepsIds | src/graph_swap.cpp:186-197 | track ids stay distinct if and only if a created track does not meet an id still in use when the counter has wrapped |
| TrackEdits.IdsCanRepeat | src/graph_swap.cpp:186-197 | a created track does repeat an id after 2^32 creations |
| EditPlaces.OthersKeepPlaces | src/graph_swap.cpp:174-292 | an edit of one track leaves every address of every other track alone |
| EditPlaces.AcceptedEdits | src/graph_swap.cpp:186-273 | exactly which edits are accepted |
| EditPlaces.InsertedAtSlot | src/graph_swap.cpp:240-243 | inserting at a slot within the chain or at its end puts the node there; earlier places are unchanged and later ones shift up by one |
| EditPlaces.InsertedAtEnd | src/graph_swap.cpp:240-243 | any other slot means the end of the chain |
| EditPlaces.RemovedAtSlot | src/graph_swap.cpp:252-257 | removing takes out the node at the slot; earlier places are unchanged and later ones shift down by one |
| EditPlaces.RemoveUndoesInsert | src/graph_swap.cpp:229-260 | removing at the slot of an insert gives the model back |
| EditPlaces.EffectsKeepGain | src/graph_swap.cpp:214-260 | edits of instrument and effects keep the gain of their track |
| EditPlaces.InstrumentSet | src/graph_swap.cpp:214-227 | the new instrument is found under every negative slot and the chain stays |
| EditPlaces.GainSet | src/graph_swap.cpp:262-273 | the track has the new gain and no node moves |
| EditPlaces.TrackCreated | src/graph_swap.cpp:186-197 | a created track comes last, empty, at unit gain, under the next id; the others stay |
| EditPlaces.TrackDestroyed | src/graph_swap.cpp:199-212 | exactly the first track with the id goes; every other address means what it meant, and with distinct ids this one means nothing |
| SwapInvariant.StepKeeps | src/graph_swap.cpp:55-172 | every step of either thread keeps the protocol invariant: order and bounds of the slots, exact lists, live graphs, ownership, node states |
| SwapInvariant.RunKeeps | src/graph_swap.cpp:55-172 | the invariant holds after every run, in every interleaving |
| SwapTheorems.GracePeriod | src/graph_swap.cpp:113-159 | in every reachable state nothing freed has been touched and no assertion has failed; the graph last returned by `audio_apply`, the active graph, and all their nodes are live |
| SwapTheorems.GraphFrozen | src/graph_swap.cpp:28-53 | a graph never changes while it lives |
| SwapTheorems.HeldUntilNextApply | src/graph_swap.cpp:113-159 | whatever the control thread does until `audio_apply` is called again, the graph last returned stays live and unchanged, with its nodes |
| SwapTheorems.OnlyOlderGraphsFreed | src/graph_swap.cpp:146-159 | a graph that is freed is strictly older than the active one, held by no one and not the last snapshot |
| SwapTheorems.OnlyGoneNodesDestroyed | src/graph_swap.cpp:146-172 | a node that is destroyed was in the registry, is not processing, and is in neither the model nor any graph the audio thread may still use |
| SwapTheorems.CommitOrder | src/graph_swap.cpp:89-159 | each swap is in one place only, and the places, from the one being reclaimed to the one being queued, hold swaps in commit order |
| SwapTheorems.StoresFindEmptySlots | src/graph_swap.cpp:89-141 | every store into a slot finds it empty, although the check was an earlier step |
| SwapTheorems.SwapsConserved | src/graph_swap.cpp:55-159 | only drawing up a swap and deleting one change the number in flight |
| SwapTheorems.BoundedResources | src/graph_swap.cpp:55-159 | at most three swaps are in flight and the number of live graphs is exactly one more, so at most four |
| SwapTheorems.LateDiffExact | src/graph_swap.cpp:60-141 | when a swap is about to be applied its lists are the exact set differences between its graph and the graph then active, each node once, although they were computed against the last snapshot |
| SwapAccounts.Conservation | src/graph_swap.cpp:55-172 | between control operations the registry holds each node of the model and each node on a stop list in flight exactly once, and nothing else; registered and live nodes are the same |
| SwapAccounts.StartIsFirst | src/plugin_node.cpp:210-218 | each call of `start_processing` is on a live node that is Activated and was never started before |
| SwapAccounts.StartsAtMostOnce | src/plugin_node.cpp:210-218 | over every run a node is started at most once, whatever its plugin answers |
| SwapAccounts.ProcessingWhere | src/plugin_node.cpp:210-228 | outside `audio_apply` a node is Processing only if it is in the active graph or on the stop list held in `retire_` |
| SwapAccounts.DestroyedNotProcessing | src/plugin_node.cpp:120-123 | a node about to be destroyed is not Processing |
| SwapPlay.StepPlays | src/graph_swap.cpp:113-172 | every step of either thread keeps: nodes of the active graph and those just started have been asked to start and have their way |
| SwapPlay.RunPlays | src/graph_swap.cpp:113-172 | so it is in every interleaving in which plugins answer in a fixed way, before teardown stops them |
| SwapPlay.ActiveNodesPlay | src/plugin_node.cpp:210-218 | then every node of the active graph has been asked to start, and is Processing if and only if its plugin is willing |
| SwapProgress.RoomToHandBack | src/graph_swap.cpp:89-141 | from the reclaim to the store of the new swap, `to_control_` and `retire_` are not both full while `pending_swap_` is |
| SwapProgress.SpinProgress | src/graph_swap.cpp:89-141 | while `queue_swap` waits, every audio step empties `pending_swap_` or lowers a rank, and no other step raises it |
| SwapProgress.SpinEnds | src/graph_swap.cpp:89-97 | in every run the wait lasts at most a number of audio steps fixed when it began |
| SwapProgress.OneApplyAfterReclaim | src/graph_swap.cpp:55-141 | one complete `audio_apply`, begun at any point after `commit_edit` has reclaimed and interleaved with it in any way, leaves `pending_swap_` empty when it returns, as long as the new swap has not been stored |
| SwapProgress.OneApplyEndsTheWait | src/graph_swap.cpp:55-141 | whatever the control thread does meanwhile, such an `audio_apply` does not return without `pending_swap_` having been empty at some point |
| SwapProgress.OneApplySuffices | src/graph_swap.cpp:89-141 | in particular for one begun during the wait in `queue_swap` |
| SwapWitness.ThreeInFlight | src/graph_swap.cpp:55-144 | three swaps in flight, all three slots full and four graphs are reached between operations |
| SwapWitness.PendingCanWait | src/graph_swap.cpp:113-144 | from a reachable state no run of the audio thread alone, however long, moves the pending swap or any other |
| SwapWitness.OfflineKeepsOlder | src/graph_swap.cpp:99-111 | an edit in offline mode after one made online leaves a swap in flight |
| SwapWitness.FillSlots | src/graph_swap.cpp:55-144 | the class reaches that state by four of its calls |
| SwapWitness.LeakyTeardown | src/graph_swap.cpp:331-359 | and torn down then it leaves two swaps and one graph behind |
| AudioGraphs.ApplyTakesUnlessFull | src/graph_swap.cpp:113-144 | a pending swap waits through a complete `audio_apply` if and only if `to_control_` and `retire_` are both full; otherwise its graph becomes active |
| AudioGraphs.LastIsModel | src/graph_swap.cpp:55-87 | between control operations the last snapshot is the snapshot of the model |
| AudioGraphs.EmptyIsSettled | src/graph_swap.cpp:99-111 | with no swap in flight the only graph is the snapshot of the model and the registry is exactly the model's nodes |
| AudioGraphs.FourApplies | src/graph_swap.cpp:331-339 | where four calls of `audio_apply` leave the pointers: with three swaps in flight nothing moves |
| AudioGraphs.AudioGraph.constructor | src/graph_swap.cpp:13-18 | the empty snapshot is active, nothing is in flight, offline mode is on |
| AudioGraphs.AudioGraph.AudioApply | src/graph_swap.cpp:113-144 | a run of protocol steps; the pointers and the state of every node it leaves; the graph it returns and all its nodes are live, and those whose plugins are willing are processing |
| AudioGraphs.AudioGraph.SetOffline | src/graph_swap.h:34 | switches offline mode in any state and changes nothing else |
| AudioGraphs.AudioGraph.HandBack | src/graph_swap.cpp:117-125 | the nodes on the retired swap's stop list are stopped and the swap goes to `to_control_` |
| AudioGraphs.AudioGraph.TakeUp | src/graph_swap.cpp:127-141 | a pending swap is taken, its nodes are asked to start, its graph becomes active and it is parked in `retire_` with the graph it replaced |
| AudioGraphs.AudioGraph.StartProcessing | src/plugin_node.cpp:210-218 | called only on a live, Activated node; Processing afterwards if and only if the plugin is willing |
| AudioGraphs.AudioGraph.StopProcessing | src/plugin_node.cpp:220-228 | called only on a live node; a Processing one is Activated afterwards |
| AudioGraphs.AudioGraph.Reclaim | src/graph_swap.cpp:146-159 | `to_control_` is emptied; exactly the nodes on its stop list and its old graph are destroyed |
| AudioGraphs.AudioGraph.DestroyNode | src/graph_swap.cpp:161-172 | the first owner of the node leaves the registry and the node is destroyed; a node without an owner is left alone |
| AudioGraphs.AudioGraph.DiffList | src/graph_swap.cpp:69-82 | the members of one gathered list that are not in the other, in order |
| AudioGraphs.AudioGraph.DiffGraphs | src/graph_swap.cpp:64-82 | both lists of a swap are the differences of the two snapshots' nodes |
| AudioGraphs.AudioGraph.Build | src/graph_swap.cpp:58-82 | a fresh snapshot and the swap that leads to it, as the protocol's step prescribes |
| AudioGraphs.AudioGraph.QueueSwap | src/graph_swap.cpp:89-97 | the swap is posted and becomes the last snapshot; where the swaps in flight are after the wait; no node is lost |
| AudioGraphs.AudioGraph.Settle | src/graph_swap.cpp:99-111 | in offline mode all three slots are empty afterwards if and only if the pending swap was the only one; online nothing changes |
| AudioGraphs.AudioGraph.CommitEdit | src/graph_swap.cpp:55-87 | a reachable state whose last snapshot is the model's; online it is the pending swap's graph and the older swaps have moved up; offline all slots are empty if and only if nothing was pending or retired, and then that snapshot is active and everything replaced is gone |
| AudioGraphs.AudioGraph.CreateTrack | src/graph_swap.cpp:186-197 | a full model answers `UINT32_MAX` and changes nothing; otherwise the track is added under the next id and published |
| AudioGraphs.AudioGraph.DestroyTrack | src/graph_swap.cpp:199-212 | accepted exactly when the track exists; the model without it is published; a rejected edit changes nothing |
| AudioGraphs.AudioGraph.SetTrackInstrument | src/graph_swap.cpp:214-227 | likewise, with the node registered and made the instrument |
| AudioGraphs.AudioGraph.InsertEffect | src/graph_swap.cpp:229-246 | likewise, refused on a full chain; a slot outside the chain means the end |
| AudioGraphs.AudioGraph.RemoveEffect | src/graph_swap.cpp:248-260 | likewise, refused for a slot outside the chain |
| AudioGraphs.AudioGraph.SetTrackGain | src/graph_swap.cpp:262-273 | likewise, with the gain changed |
| AudioGraphs.AudioGraph.DrainAudio | src/graph_swap.cpp:334-339 | which slots are full after four calls of `audio_apply`, by the number of swaps in flight before |
| AudioGraphs.AudioGraph.StopAll | src/graph_swap.cpp:340-346 | no node is processing afterwards and none is lost |
| AudioGraphs.AudioGraph.DestroyAll | src/graph_swap.cpp:349 | every node that still exists is destroyed once, and none while processing |
| AudioGraphs.AudioGraph.DeleteGraphs | src/graph_swap.cpp:351-358 | the active and the last graph are deleted, once each, and what remains |
| AudioGraphs.AudioGraph.Teardown | src/graph_swap.cpp:331-359 | every node is destroyed once and nothing is freed twice in any state with the audio thread at rest; every graph and swap is freed if and only if at most one swap was in flight, and otherwise exactly what is left behind |
| AudioGraphs.AudioGraph.Destroy | src/graph_swap.cpp:20-26 | tears down unless that was done |
| AudioGraphs.AudioGraph.FindNode | src/graph_swap.cpp:275-292 | the node the model has at the address |
| AudioGraphs.AudioGraph.LocateNode | src/graph_swap.cpp:294-320 | the node's place in the model |
| Translation.UntranslatableExactly | src/event_route.cpp:42-156 | an event is untranslatable if and only if its kind is unknown, or it is an expression other than tuning for a MIDI dialect; time and live flag are carried over |
| Translation.TranslationIsLossless | src/event_route.cpp:42-156 | every event but a MIDI 1.0 word and, for a MIDI plugin, an expression can be recovered from its translation |
| Translation.Midi1WordKept | src/event_route.cpp:138-144 | of a MIDI 1.0 word the low three bytes are kept, lowest first, and the port |
| Translation.TuningForMidi2 | src/event_route.cpp:75-95 | a tuning expression gives a MIDI 2.0 plugin a per-note pitch bend for its channel and key, as in section 7.4 of M2-104-UM version 1.1: 2^31 without tuning, 1 and 2^32 - 1 at two semitones down and up and beyond |
| Translation.TuningForMidi1 | src/event_route.cpp:97-111 | it gives any other MIDI plugin a channel pitch bend on its channel: 8192 without tuning, 1 and 16383 at two semitones |
| Translation.TuningIsMonotone | src/event_route.cpp:75-111 | more tuning never bends less, in either dialect |
| Translation.TuningIsLinear | src/event_route.cpp:75-111 | within two semitones the bend is proportional to the tuning, to less than one step |
| Translation.FieldsAddUp | src/event_route.cpp:89 | the bitwise or of the fields of the first word is their sum |
| Translation.MasksAreRemainders | src/event_route.cpp:105-111 | the masks and shifts used are remainders and quotients |
| Translation.Bend14Range | src/event_route.cpp:99-104 | the MIDI 1.0 bend is between 1 and 16383: the clamps never fire |
| Translation.Bend14Monotone | src/event_route.cpp:99-104 | it is monotone in the tuning |
| Translation.Bend14Odd | src/event_route.cpp:99-104 | it is odd-symmetric about 8192 |
| Translation.Bend14Recovered | src/event_route.cpp:105-111 | recombining the two 7-bit bytes gives the bend back; the status byte is a pitch bend on the event's channel |
| Translation.StatusByte | src/event_route.cpp:108 | the bitwise or of status and channel is their sum |
| Translation.Bend32Range | src/event_route.cpp:81-84 | the 32-bit bend fits 32 bits and is never 0 |
| Translation.Bend32Monotone | src/event_route.cpp:81-84 | it is monotone in the tuning |
| Translation.Bend32Mirror | src/event_route.cpp:81-84 | it is the mirror image about 2^31 if and only if the scaled bend has no fraction, and one less otherwise |
| Translation.Bend32Lopsided | src/event_route.cpp:81-84 | one semitone up and one down are not mirror images |
| Translation.BendWordDecodes | src/event_route.cpp:87-89 | the first word decodes to type 4, status 6, the channel and the key, as for per-note pitch bend in section 7.4 of M2-104-UM version 1.1 |
| SortedQueue.InsertSorted | src/event_route.cpp:178-206 | an arrival keeps the contents sorted by (sample time, arrival) |
| SortedQueue.InsertAllMembers | src/event_route.cpp:257-264 | after several arrivals the contents are the old slots and the arrived ones, no others |
| SortedQueue.EqualTimesInArrivalOrder | src/event_route.cpp:178-185 | slots leave by sample time, equal times in arrival order |
| SortedQueue.SortedUnique | src/event_route.cpp:178-185 | contents and order determine the queue, so the heap's arrangement does not show |
| EventQueue.RootIsLeast | src/event_route.cpp:208-211 | in a heap no slot is less than the root |
| EventQueue.EventReorderQueue.constructor | src/event_route.cpp:176 | empty, with the given capacity |
| EventQueue.EventReorderQueue.Push | src/event_route.cpp:187-206 | refuses exactly when full; otherwise the heap holds the old contents and the event, in heap order |
| EventQueue.EventReorderQueue.SiftUp | src/event_route.cpp:193-204 | the loop ends and restores the heap order without changing the contents |
| EventQueue.EventReorderQueue.PeekMin | src/event_route.cpp:208-211 | the least slot by (sample time, arrival), if any |
| EventQueue.EventReorderQueue.PopMin | src/event_route.cpp:213-241 | removes exactly the least slot and keeps the heap order |
| EventQueue.EventReorderQueue.SiftDown | src/event_route.cpp:220-240 | the loop ends and restores the heap order without changing the contents |
| EventQueue.EventReorderQueue.LeastOfThree | src/event_route.cpp:223-233 | the least of a slot and its children |
| EventQueue.EventReorderQueue.Clear | src/event_route.h:25 | empties the queue; arrival numbers go on |
| EventRoute.DueIsBeforeEnd | src/event_route.cpp:266-272 | taking slots while the head is before the end of the block takes exactly the slots before it |
| EventRoute.UpperClampNeverFires | src/event_route.cpp:282-286 | a due event is delivered at its distance from the start of the block, or at 0 if late, and inside the block if it has frames: the upper clamp never fires |
| EventRoute.BucketTimes | src/event_route.cpp:266-297 | bucket times never decrease and lie inside a block with frames |
| EventRoute.DeliveredExactly | src/event_route.cpp:267-296 | a node is delivered, in order and each once, the translations in its own dialect of exactly the due slots addressed to it and translatable |
| EventRoute.CappedIsFirst | src/event_route.cpp:280 | a bucket keeps the first 256 of them |
| EventRoute.Absorb | src/event_route.cpp:257-264 | moves the first min(ring length, free space) ring events into the queue, in order |
| EventRoute.Number | src/event_route.cpp:249-255 | every node of the graph gets a number of its own and an empty bucket |
| EventRoute.Route | src/event_route.cpp:274-294 | one due event goes to the bucket of the node it resolves to, if translatable and not full, and to no other |
| EventRoute.RouteDue | src/event_route.cpp:266-297 | exactly the due slots are consumed, in order, and routed or dropped |
| EventRoute.DrainAndDemux | src/event_route.cpp:243-297 | ring, queue and every bucket after a block: each bucket is the first 256 translatable events, in (sample time, arrival) order, among the due ones addressed to its node; all empty when real-time events are dropped |
| EventStream.DrainIsAdvance | src/event_route.cpp:257-297 | the stream model's step is what `drain_and_demux` does to ring and queue |
| EventStream.ArrivalsAreInTheRing | src/event_route.cpp:257-264 | a block does the same whether its events were put in the ring just before or long before |
| EventStream.BlockSplits | src/event_route.cpp:266-297 | a block splits the absorbed queue into what is before its end and what is not |
| EventStream.RetainedIsLater | src/event_route.cpp:266-297 | after every block everything retained is at or past its end |
| EventStream.ConsumedInItsBlock | src/event_route.cpp:257-297 | an event absorbed no later than its own block is consumed in exactly that block at its exact offset; a late one in the absorbing block at its start |
| EventStream.ConsumedAtMostOnce | src/event_route.cpp:257-297 | what one block consumes no later block consumes |
| EventStream.ConsumedOnceInBlock | src/event_route.cpp:266-297 | within a block all consumed slots are different |
| EventStream.EventsConserved | src/event_route.cpp:257-297 | consumed so far or still queued is exactly what was there at the start or absorbed since |
| EventStream.DeliveryNeverGoesBack | src/event_route.cpp:282-288 | absolute delivered positions never decrease, within a block and across blocks, however late or out of order the producer is |
| EventStream.NodeTimesNeverGoBack | src/event_route.cpp:274-292 | for each node, absolute times in its buckets never decrease from block to block, whatever graphs the blocks use |
| EventStream.InBlock | src/event_route.cpp:266-288 | a consumed slot is delivered inside its block, at its own time or at the start if late |
| EventStream.ExactUntilWrap | src/track_render.cpp:95-108 | as long as no block has started at or past 2^32, cutting the stream position to 32 bits changes nothing |
| EventStream.WrapExactly | src/event_route.cpp:266-286 | for true positions known by their low 32 bits: an event is consumed exactly when due and delivered at its true offset if and only if event and block are in the same round of 2^32, or an earlier event's bits do not exceed the block's start, or a later event's are past its end |
| EventStream.BlockWrapsExactly | src/event_route.cpp:266-297 | a block handles all slots of its queue so if and only if that holds of each |
| EventStream.WrapWitnesses | src/track_render.cpp:102-108 | a late event from before the wrap is held back, one after the wrap in a straddling block comes out early, one well after it is handled rightly |
| EchoRing.SlotSurvivesWrap | src/echo_ring.h:29 | masking the wrapped counter gives the slot of the unwrapped position, because 1024 divides 2^32 |
| EchoRing.SubWraps | src/echo_ring.h:25 | the wrapping difference of the counters is the number of values in the ring |
| EchoRing.RingStepKeeps | src/echo_ring.h:21-45 | every load, slot access and store of either thread keeps the ring invariant |
| EchoRing.RingIsFifo | src/echo_ring.h:21-45 | in every interleaving and however often the counters wrap, returned values are a prefix of accepted ones, at most 1024 are in between, and no slot is written while it is read |
| EchoRing.RefusalsAreExact | src/echo_ring.h:21-40 | a push is refused, or a pop finds nothing, exactly when the ring was full, or empty, at the moment the other index was loaded |
| EchoRing.ParamEchoRing.constructor | src/echo_ring.h:47-51 | an empty ring |
| EchoRing.ParamEchoRing.Push | src/echo_ring.h:21-32 | accepted exactly when fewer than 1024 values wait, and then the last of them |
| EchoRing.ParamEchoRing.Pop | src/echo_ring.h:34-45 | the oldest value, if any |
| Notifications.QueueIsBounded | src/notification_center.cpp:14-37 | over every run the queue has at most 2048 entries and at most one rescan per (track, slot) |
| Notifications.RescanRepresents | src/notification_center.cpp:14-37 | a rescan request is represented afterwards, and so is all that was, unless another target overflows the queue |
| Notifications.AcceptedIsRepresented | src/notification_center.cpp:75-90 | an accepted value or request is represented at once, however full the queue is: by the value, or by a rescan of its target that carries the flags or `MR_RESCAN_ALL` |
| Notifications.StaysUnlessEnded | src/notification_center.cpp:14-108 | any single operation keeps it represented unless it is polled or another target's overflow clears it |
| Notifications.OverflowClears | src/notification_center.cpp:31-36 | after an overflow the queue is the one rescan of the overflowing target: that target stays represented and no other |
| Notifications.NothingForgotten | src/notification_center.cpp:14-108 | over every run, what was accepted is at any later time represented, or was polled, or was cleared by another target's overflow |
| Notifications.ValuesLeaveInOrder | src/notification_center.cpp:92-108 | over every run echoed values leave `poll` in push order, each at most once |
| Notifications.NoValueMissing | src/notification_center.cpp:75-108 | as long as no push or request found the queue full, what was polled followed by what waits is exactly what was pushed |
| Notifications.FlagsAreThoseWanted | src/notification_center.cpp:14-37 | over every run a queued rescan asks for exactly what has been asked for its target since its entry was appended |
| Notifications.NotificationCenter.constructor | src/notification_center.h:34-36 | an empty queue and ring, bound to no graph |
| Notifications.NotificationCenter.Bind | src/notification_center.h:19 | later look-ups use this graph |
| Notifications.NotificationCenter.FindRescan | src/notification_center.cpp:18-25 | the first rescan queued for the target, if any |
| Notifications.NotificationCenter.EnqueueRescan | src/notification_center.cpp:14-37 | joins the target's rescan, or appends one, or clears a full queue and asks for everything |
| Notifications.NotificationCenter.OnRescan | src/notification_center.cpp:39-48 | a request for the place of the node; ignored when it has none |
| Notifications.NotificationCenter.NoteStateLoaded | src/notification_center.cpp:50-54 | a request to rescan everything |
| Notifications.NotificationCenter.OnGuiClosed | src/notification_center.cpp:56-73 | appended for the place of the node; dropped when the queue is full |
| Notifications.NotificationCenter.PushParamValue | src/notification_center.cpp:75-90 | appended, or turned into a rescan of its target when the queue is full |
| Notifications.NotificationCenter.Poll | src/notification_center.cpp:92-108 | the ring is emptied into the queue, in order, and the oldest notification is taken |
| EchoPath.MoveKeeps | src/notification_center.cpp:92-100 | every step of push, of poll's pops and of other requests keeps the ring invariant, and the center has been given exactly what the ring has returned |
| EchoPath.EchoesArriveInOrder | src/notification_center.cpp:92-108 | in every interleaving of the audio thread's pushes with poll's pops, the values the client has polled are among those the ring accepted, in order and each at most once |
| EchoPath.NoEchoMissing | src/notification_center.cpp:92-108 | if no push or request found the queue full, what was polled followed by what waits is an initial part of what the ring accepted, all but at most 1024 values |
| Mix.BypassedEffectsChangeNothing | src/track_render.cpp:153-159 | a chain sounds like the chain without the effects that are not Processing |
| Mix.FastPathFaithful | src/track_render.cpp:196-211 | under the plugins' constant-channel contract the fast path is the plain loop |
| Mix.ForwardingIsHonest | src/track_render.cpp:166-187 | plugins that copy samples and mask from input to output keep the contract |
| Mix.BlockIsMix | src/track_render.cpp:110-113 | for plugins whose output keeps that contract whenever their input does, the rendered block is the left fold, in track order, of the output plus (track gain × master gain) × the fold of the Processing effects over the instrument's output |
| Mix.AcceptedAppend | src/track_render.cpp:44-55 | pushing echoes in several goes leaves the same ring as pushing them in one |
| Render.ZeroChannels | src/track_render.cpp:29-35 | the given channels are silent |
| Render.EmitAll | src/track_render.cpp:44-55 | a plugin's parameter changes enter the ring in order while there is room, under the plugin's address; other events are dropped |
| Render.PlayInto | src/track_render.cpp:131-147 | zeroing and one call leave the buffer, the mask and the echoes as `Play` says; the input buffer is never the output buffer |
| Render.PlayEffect | src/track_render.cpp:160-188 | one effect, from the buffer with the sound so far into the other |
| Render.MixChannel | src/track_render.cpp:196-211 | one channel is added to the output and no other sample changes |
| Render.MixInto | src/track_render.cpp:192-211 | the channels both sides have are mixed and the rest of the output is untouched |
| Render.Renderer.constructor | src/track_render.cpp:66-80 | two different buffers, an empty reorder queue, no block rendered yet |
| Render.Renderer.RenderTrack | src/track_render.cpp:116-212 | the output is the mix of what it was with the track's signal, for any chain and any states of its nodes |
| Render.Renderer.RenderTracks | src/track_render.cpp:110-113 | all tracks, in order, over silence |
| Render.Renderer.Publish | src/track_render.cpp:88-93 | the clock is published with every block, the output latency when it differs from the last one |
| Render.Renderer.Restart | src/track_render.cpp:95-100 | the reorder queue is emptied exactly on the first block and when the stream position goes back |
| Render.Renderer.RouteBlock | src/track_render.cpp:108 | the events of the block reach exactly the nodes the tracks will call |
| Render.Renderer.Prepare | src/track_render.cpp:82-108 | graph, events and silence before the tracks are rendered |
| Render.Renderer.Render | src/track_render.cpp:82-114 | one whole block: clock and latency published, the graph pointers after `audio_apply`, ring and queue one stream block further, the output the mix of the active graph with each node given its due events, the echoes in order |
| Render.Renderer.RenderedIsMix | src/track_render.cpp:82-114 | for plugins that keep the constant-channel contract when their input does the rendered block is the simple mix |
| Render.Renderer.RenderOffline | src/backend_capture.cpp:144-153 | blocks rendered one after the other from position 0, with a producer adding events before each, take ring and queue through the states of one event stream; the samples written for each block are the mix of the graph then active with the events due in it |
| Render.Renderer.RenderBlock | src/backend_capture.cpp:148-150 | one of these blocks |
| Render.OfflineIsTrueStream | src/backend_capture.cpp:144-153 | up to the wrap these are the states of the true stream, of which the stream theorems speak |
| PluginCalls.PluginsGetTheirEvents | src/track_render.cpp:131-147 | every plugin is called for the block with room for at most two of its channels and with its own bucket, the first 256 of the due events addressed to it |
| PluginCalls.DroppedEventsReachNoPlugin | src/track_render.cpp:131-147 | when real-time events are dropped it is given none |
| PluginCalls.InstrumentHasNoInput | src/track_render.cpp:139-140 | an instrument is given no input |
| PluginCalls.EffectIsGivenTheSound | src/track_render.cpp:160-188 | an effect is given the sound so far and its mask, as many channels as it takes; channels nobody writes are silent |
| PluginCalls.TrackHeardIff | src/track_render.cpp:119-123 | a track is heard if and only if its instrument is Processing |
| PluginCalls.EchoesInOrder | src/track_render.cpp:44-55 | parameter changes are echoed in order and each once, other output events are not |
| PluginCalls.TrackEchoesAreAddressed | src/track_render.cpp:144-180 | a track's echoes are exactly the parameter changes its playing nodes emit, each under the address of its node |
| PluginCalls.BlockEchoesAreAddressed | src/track_render.cpp:110-113 | with distinct track ids that address leads, in the graph rendered, to a playing node that emitted it |
| PluginCalls.MixIsWeightedSum | src/track_render.cpp:192-211 | with exact arithmetic every sample of the block is the sum, over the tracks that sound, of the track's sample times its gain times the master gain |
| PluginCalls.TracksAreAddedInOrder | src/track_render.cpp:110-113 | tracks are added in order, each to what was there before |
| Framing.ShiftsAreSums | src/control_server.cpp:71-75 | combining four bytes by shifts and bitwise or is the weighted sum |
| Framing.DecodeEncode | src/control_server.cpp:71-75 | a length is decoded from the four bytes `reply` writes |
| Framing.EncodeDecode | src/control_server.cpp:104-107 | four bytes are the encoding of what they decode to |
| Framing.LengthsAreLittleEndian | src/control_server.cpp:71-108 | lengths are sent and read with the least significant byte first |
| Framing.RangeEnds | src/control_server.cpp:505 | lengths from 8 to 2^20 are in range, both included, and no others |
| Framing.FramesRecovered | src/control_server.cpp:497-518 | frames sent one after the other are handled one after the other, and then whatever follows |
| Framing.StopsAtBadLength | src/control_server.cpp:504-508 | the first length out of range ends the session: exactly the frames before it are handled |
| Framing.StopsAfterRefusal | src/control_server.cpp:514-517 | a payload that dispatch refuses is the last one handled |
| Framing.StopsAtTruncation | src/control_server.cpp:510-513 | a frame whose end never arrives is not handled |
| Framing.HandledBytesWereSent | src/control_server.cpp:497-518 | conversely, the frames of the handled payloads are a prefix of the bytes that arrived, and all are in range |
| Framing.Connection.Recv | src/control_server.cpp:46 | at most n bytes that have arrived, none only at the end of the stream |
| Framing.Connection.Send | src/control_server.cpp:61 | some initial part of the bytes is sent |
| Framing.ReadExact | src/control_server.cpp:39-53 | succeeds if and only if n bytes arrive, and then takes exactly those, however they are split |
| Framing.WriteAll | src/control_server.cpp:55-69 | sends everything, or an initial part when the connection fails |
| Framing.Reply | src/control_server.cpp:95-115 | sends one frame from which a reader gets this length, type, zero flags, request id and body back, or an initial part of it |
| Framing.HeaderReads | src/control_server.cpp:98-101 | type, flags and request id are read back from the header |
| Framing.ReadFrame | src/control_server.cpp:499-513 | the next whole frame in range, if there is one |
| Framing.Serve | src/control_server.cpp:497-518 | the payloads dispatched are those the stream of bytes determines, whatever the pieces in which it arrives |

## Left out

- Weak memory: acquire/release pairs are sequentially consistent atomic steps; relaxed reordering is not modelled.
- `std::this_thread::yield`: that the audio thread keeps being scheduled while `queue_swap` waits is assumed, not proved.
- AudioGraphs.AudioGraph.QueueSwap: in the class each turn of the wait is one complete `audio_apply`; arbitrary interleavings are covered by the protocol lemmas. In offline mode the control thread waits for ever if a swap is pending and no audio thread runs.
- Heap objects: graphs, swaps and plugin nodes are identities in maps rather than pointers, so that freeing them is expressible; aliasing between them is equality of identities.
- A rejected edit destroys the plugin node passed to it (it is owned by the caller's pointer); such a node never enters the model's state. A null plugin node is not passed.
- AudioGraphs.AudioGraph.CreateTrack: does not tell a refusal from the creation of the track whose id is `UINT32_MAX`, because the code does not.
- `master_gain_` is never changed by the code and is 1 here; `swap_gen_` and `pump_main_thread` are not modelled.
- Plugins: opaque. Their answer to `start_processing` is an arbitrary function of the node, which is asked once; `process` is an arbitrary function of node and call, a new one for each block, which stands for their internal state. State loading, parameter queries, GUI and port scanning are left out.
- A plugin that writes into its input buffer, outside the buffers it is given, or into other threads' state.
- IEEE rounding: `add` and `mul` are uninterpreted, in the code's order; the bend conversion is over the reals.
- Render.Renderer.Render: its contract takes the echo ring without a control thread that pops during the block; `EchoPath` covers that interleaving for the values. With `max_block` 0 it requires that no plugin declares a channel constant, because the code mixes such a channel from its first sample and there is none.
- Render.Renderer.RenderOffline: the WAV file; the samples that go into it are its result. Edits between its blocks are left out, because it runs on the control thread.
- Notifications.NotificationCenter.Poll: the contract of the method takes the ring as it is when poll begins; values pushed while it drains are covered by the lemmas of `EchoPath`, in every interleaving.
- Framing.Reply: requires that header and body together stay below 2^32 bytes; beyond that the length field cannot hold the total.
- `SpscRing` and the message and event layouts are not part of this model: the ring is a FIFO, a producer that pushes during a drain is one that pushes before it.
- `MR_DEST_INSTRUMENT` is taken as -1, `MR_EXPR_TUNING` as 3, the message header as 8 bytes with a 16-bit type, 16-bit flags and a 32-bit request id, lowest bytes first, the rescan flags as single bits; the proofs use no more than that.
- Translation: the port, channel and key of note, expression and parameter events are carried unchanged; cookie and the constant -1 fields of parameter events are left out.
- The 64-bit arrival number of the reorder queue is unbounded.
- EventStream: the arrival of events is given block by block; its whole-stream theorems take sample times as true positions, which is what they are up to 2^32 frames (`ExactUntilWrap`).
- Framing: `dispatch` is an arbitrary function from the payload to whether serving goes on; a receive error is the end of the stream.
- The cases of `dispatch`, configuration parsing, the WAV writer, metering, logging, shared memory, dynamic loading, device backends and thread priorities.
