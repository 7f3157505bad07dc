# Verification model of pipewire-flow

pipewire-flow is a C library over PipeWire. This project models the parts of it
where state, ownership and interleaving are hard to get right, and proves what
those parts are for.

* **The filter's cycle and its push staging.** `PortModel.dfy` says what a
  cycle does to one port; `FilterPort.dfy` does it in place, with arrays and
  loops, and is proved equal to it. `FilterProtocol.dfy` is the concurrent
  system: a push takes the lock, copies one byte per step and releases the
  lock; a cycle only tries the lock, assembles port after port, runs the
  callback unlocked and then frees and requeues; a stop returns what is held.
  `FilterSafety.dfy` carries the invariant through every step, and
  `FilterRuns.dfy` states the promises for every run. `PortHistory.dfy` is the
  independent specification of hold and freshness: a function of what happened
  to the port, without any of its fields. `FilterEntry.dfy` says what callbacks
  are handed on the other kinds of port, and when a buffer is taken;
  `FilterRefine.dfy` ties the object's loops to the steps. `Events.dfy` is the event vocabulary,
  the codec and the size check of output pushes.
* **The byte ring of the loopback utility.** `Ring.dfy` is the object,
  `RingProtocol.dfy` the two threads at the granularity of one index load, one
  byte or one index store, `RingRuns.dfy` the theorems.
* **The graph registry, targets and links.** `Registry.dfy`,
  `RegistryHistory.dfy`, `Text.dfy` and `Targets.dfy` are the cache, port
  listing and target strings. A listing hands out pointers into the cache's
  array; `PortSlots.dfy` says how long they name the port they were taken for.
  `StreamLink.dfy` and `StreamPlan.dfy` are the all-or-nothing wiring of a
  stream, with everything the loop handles while the call waits;
  `FilterLink.dfy`, `FilterLinkPlan.dfy` and `FilterLinkRuns.dfy` a filter port's
  link, what it is asked to join, and the reporting of a lost source.
* **Arithmetic kernels with whole-run properties.** `VideoRates.dfy`,
  `RateLimit.dfy`, `Playback.dfy`.

PipeWire's answers - dequeued buffers, link-info and format events, registry
globals, timeouts - and the results of allocations are arbitrary inputs. Integer
widths are explicit: `size_t` and `uint64_t` values wrap at `Base.WORD`, the
event codec's casts to `uint32_t` at `Events.U32`.

## Where the code falls short of the promise

Nine properties that the documentation or the comments suggest do not hold on
all inputs. Each has a lemma with the case that breaks it and a proof of
exactly when the property holds.

| property | holds exactly when | lemmas |
|---|---|---|
| the ring is a FIFO | its capacity divides 2^64, or no more than 2^64 bytes have gone through | `RingRuns.FifoExactlyWhenCapacityDivides`, `RingRuns.WrapOverwrites` |
| a stream's i-th port is linked to its target's i-th (docs/streams.md:249-250) | no registry event handled since the ports were listed moves the cache's array, or writes another entry into the slot of a port yet to be linked; so when no port goes meanwhile and the new ones fit the array | `StreamPlans.WiredAsWantedExactly`, `StreamPlans.QuietGraphIsWiredAsWanted`, `StreamPlans.SecondLinkMisdirected` |
| a stream linked with OK has every link up (docs/streams.md:250-251) | every report that a link is in error or unlinked, handled from its own request on, is followed by one that it is up again; the program takes note of errors only, and of them only while it waits for that link | `StreamPlans.AllUpExactly`, `StreamPlans.FlaggedExactly`, `StreamPlans.LostLinkGoesUnseen`, `StreamPlans.LinkGoneAtReturn` |
| a filter port linked with OK has its link (include/pwf/pwf_filter.h:282) | no stop or unlink, which the error callback may call (docs/filters.md:263-268), takes it away before the call returns | `FilterLinkRuns.LinkCallIsWhole`, `FilterLinkRuns.OkWithoutLink` |
| every dequeued buffer is queued back | no event or output port dequeued a buffer without a data pointer | `FilterRuns.StopReturnsAll`, `FilterRuns.NoDataBufferIsLost` |
| an output event is accepted only if it fits, written whole, and read back whole | no encoded size wraps around 2^32 into one that fits, and no event has 2^32 bytes (the dry run and the builder count in `uint32_t`) | `Events.PushAnsweredRightly`, `FilterRuns.EventsWrittenExactly`, `Events.RoundTripExactly`, `Events.OversizedEventAccepted` |
| every consumer of a node picks the same port | the node has at most 64 output ports, and no two of them share the lowest ordinal (a port announced without `port.id` has ordinal 0) | `RegistryHistory.PickForgetsHistory`, `RegistryHistory.ListingForgetsHistory`, `RegistryHistory.ListingsDiffer`, `RegistryHistory.TiesDiffer` |
| an event pushed to an input port is shown to a callback (include/pwf/pwf_filter.h:372-376) | no cycle that takes it fails to grow `incoming_events` for an event of the batch | `FilterRuns.EventsDeliveredOnce`, `FilterRuns.RefusedEventIsLost` |
| a listed name or serial resolves back to its node | names: shorter than 256 bytes, not all digits, first of its name; serials: non-zero, first of its value | `Targets.ListedNameResolves`, `Targets.ListedDigitsAreSerial`, `Targets.DigitNameMisses`, `Targets.ListedSerialResolves` |

The documentation also says that a playback cycle whose callback overruns is
emitted as silence, and that flooring a partial frame is logged
(docs/streams.md:207-214). The code only logs the overrun, and does not log the
flooring (src/pwf_stream_playback.c:33-49); the model follows the code.

## Model

| member | source | states |
|---|---|---|
| Events.LookupsAreInverse | src/pwf_filter_event.c:22-46 | both lookups know exactly the pairs of the property vocabulary, and are so inverse |
| Events.DecodesExactly | src/pwf_filter_event.c:71-128 | a list is the decoded one if and only if it is, control after control, what each carries: the bytes of a MIDI or OSC pod, the known properties of a Props object in order, and a value of any other type as it is |
| Events.DecodeEncoded | src/pwf_filter_event.c:71-128 | decoding an encoded list gives every event back, in order, with offset, kind and key, and the bytes the 32-bit size cast left |
| Events.RoundTripExactly | src/pwf_filter_event.c:210-237 | the round trip is the identity if and only if every event is under 2^32 bytes |
| Events.PadsToEight | src/pwf_filter_event.c:210-237 | a body takes the next multiple of eight bytes |
| Events.EncodedIsFullModulo | src/pwf_filter_event.c:207-237 | the dry run reports the true encoded size modulo 2^32 |
| Events.FullSizeIsWire | src/pwf_filter_event.c:207-237 | the full size of a list of events under 2^32 bytes is what its encoded controls take, laid out as pods |
| Events.PushAnsweredRightly | src/pwf_filter_event.c:302-316 | an output push is accepted exactly when the list then fits, if and only if the true size does not wrap to one that fits |
| Events.OversizedEventAccepted | src/pwf_filter_event.c:308-316 | a 4 GiB event is accepted into a 64-byte buffer |
| Events.SmallPushIsNoFalseFit | src/pwf_filter_event.c:308-316 | such a wrap needs an event of nearly 4 GiB |
| Events.PushKeepsFit | src/pwf_filter_event.c:302-316 | a push keeps a non-empty list within the cycle's buffer, truly encoded, if and only if its size does not wrap to one that fits |
| Events.AcceptedEventsFit | src/pwf_filter_event.c:171-244 | after all of a callback's pushes, none of which wraps so, the list is the accepted ones in order and encodes whole into the buffer |
| PortHistory.NewestIsLatest | src/pwf_filter_internal.h:115-123 | the frame hold must show is the arrival with no arrival and no stop after it |
| PortHistory.UnreadIsLatestPush | src/pwf_filter_internal.h:66-75 | the push a cycle must take is the last one, unless a cycle with the lock came after it |
| PortModel.LoadExactly | src/pwf_filter_event.c:57-69 | loading a list drops events but keeps their order, and drops none if and only if no event found the array full and not to be grown |
| FilterSafety.GrowPushOk | src/pwf_filter_port.c:101-111 | growing the staging buffer keeps the port's invariant: the data thread's block and all it shows are untouched |
| FilterSafety.CopyByteOk | src/pwf_filter_port.c:112-113 | copying one byte of a push, even while a cycle runs, keeps it |
| FilterSafety.StagePushOk | src/pwf_filter_port.c:114-118 | a completed push is the port's unread push, whole |
| FilterSafety.AppendEventOk | src/pwf_filter_event.c:171-197 | an accepted event extends the accepted list and what waits by the same bytes, in memory of its own, also when an output push is accepted that does not fit |
| FilterSafety.TakePushOk | src/pwf_filter_process.c:110-124 | the swap delivers exactly the unread push, and moves ownership without losing or sharing a block |
| FilterSafety.RetainOk | src/pwf_filter_process.c:144-169 | numbering and hold turn an arrival, or none, into the frame the history expects |
| FilterSafety.AssembleSlotOk | src/pwf_filter_process.c:64-179 | assembling a port keeps its whole invariant, whatever the lock and the dequeue gave |
| FilterSafety.FinishSlotOk | src/pwf_filter_process.c:193-227 | finishing a port frees exactly the events it showed or wrote, and requeues exactly what it noted |
| FilterSafety.StopSlotOk | src/pwf_filter.c:325-337 | a stop gives the held buffer back and forgets what was held |
| FilterSafety.StepOk | src/pwf_filter_internal.h:65-136 | every step of pushes, cycles, callbacks and stops keeps the invariant of every port |
| FilterSafety.RunOk | src/pwf_filter_process.c:36-233 | every run from a new filter keeps it |
| FilterRuns.CallbackSeesHistory | src/pwf_filter_process.c:107-169 | in every run, what the callback reads on a media input port (bytes, size, pts, DMABUF, fresh, seq) is the function of the port's history, and never a freed block |
| FilterRuns.PushesNeverTear | src/pwf_filter_port.c:97-116 | no number of pushes begun, half copied or completed during the callback changes a byte it reads |
| FilterRuns.EventsDeliveredOnce | src/pwf_filter_event.c:57-69 | in every run the events an input port's cycles took so far, followed by those waiting, are the accepted ones in order; callbacks were shown these less the dropped ones, in order, and all of them if and only if no cycle failed to grow the array for one; between cycles nothing is half delivered |
| FilterRuns.RefusedEventIsLost | src/pwf_filter_event.c:144-152 | an event taken by a cycle that cannot make the array is dropped without being shown |
| FilterRuns.EventsWrittenExactly | src/pwf_filter_event.c:239-244 | in every run, an output port's accepted events are written whole, once and in order by the end of their cycles, if and only if no push was accepted whose encoded size wraps into one that fits |
| FilterRuns.CallbackReadsPushedEvents | src/pwf_filter_event.c:144-152 | during the callback every entry of a batch it can read is a live copy, and they are the newest part of what was shown |
| FilterRuns.LockedCycleDrains | src/pwf_filter_process.c:76-83 | a cycle that got the lock takes everything accepted |
| FilterRuns.BuffersConserved | src/pwf_filter_process.c:84-178 | in every run, buffers out are the held one, the one to queue back this cycle, and those dequeued without a note; none is given back twice, and one shown again is still out |
| FilterRuns.StopReturnsAll | src/pwf_filter.c:325-337 | after a stop a port holds and shows nothing, and nothing is out if and only if no cycle of the run was given a buffer without data by a dequeue for an event or output port |
| FilterRuns.NoDataBufferIsLost | src/pwf_filter_process.c:96-102 | a buffer without data on an output or event port survives the cycle and the stop unreturned |
| FilterRuns.NoLeakNoAlias | src/pwf_filter_internal.h:78-81 | in every run a port's live blocks are exactly those it owns, each once; the two sides of the swap never alias |
| FilterEntries.OutputHandsRegion | src/pwf_filter_process.c:171-177 | in every run the callback of a media output port is handed the region and size of the buffer its dequeue gave in this cycle, or nothing when that gave none with data, and an entry otherwise blank |
| FilterEntries.OutputRoomIsBuffer | src/pwf_filter_process.c:95-102 | in every run an event output port's pushes are measured against this cycle's buffer, and against nothing without one |
| FilterEntries.GraphEventsShown | src/pwf_filter_process.c:85-92 | in every run, with nothing pushed to show, an event input port's callback reads what the controls of this cycle's buffer carry, in order, all of it if and only if the array could grow for every event; and nothing without a buffer |
| FilterEntries.InputsTakeNoRoom | src/pwf_filter_process.c:66-83 | in every run input ports are handed no room to write in, and no buffer is taken while a pushed batch is shown |
| FilterEntries.TakesBufferExactly | src/pwf_filter_process.c:78-142 | in every run assembling a port takes the graph's buffer if and only if there is one and nothing pushed is shown in its place |
| FilterRefinement.AssembliesRefined | src/pwf_filter_process.c:64-179 | one assembly step per port, in port order, leaves on every port what the object's first loop leaves, and touches no other |
| FilterRefinement.FinishRefined | src/pwf_filter_process.c:193-227 | what the object's second loop queues is, port after port, what the finish steps give back; each port is finished |
| FilterRefinement.StopRefined | src/pwf_filter.c:325-337 | what the object's stop queues is, port after port, what the stop step gives back; each port is stopped |
| FilterPorts.FilterPort.GrowPushed | src/pwf_filter_port.c:101-111 | the staging array is replaced by a new, longer one that keeps the old bytes |
| FilterPorts.FilterPort.PushPortData | src/pwf_filter_port.c:83-118 | the code for every argument and allocation result; success replaces the staged push whole, failure changes nothing, the delivered array is never written |
| FilterPorts.FilterPort.SetHold | src/pwf_filter_port.c:247-257 | hold is set only on an input port of a filter not yet started |
| FilterPorts.FilterPort.PushEvent | src/pwf_filter_event.c:277-321 | the code for every argument; success appends a copy in fresh memory, failure leaves the list as it was |
| FilterPorts.FilterPort.AppendIncoming | src/pwf_filter_event.c:57-69 | the event is appended, a full array doubling first; or dropped when it cannot grow |
| FilterPorts.FilterPort.LoadDelivering | src/pwf_filter_event.c:144-152 | incoming entries are the delivering ones, in order, less those there was no room for |
| FilterPorts.FilterPort.DecodeIncoming | src/pwf_filter_event.c:71-128 | the nested decoding loops compute the decoded list, less the events there was no room for |
| FilterPorts.FilterPort.AssembleEvent | src/pwf_filter_process.c:76-105 | the in-place event branches leave the lists, buffer and dequeue the port specification gives |
| FilterPorts.FilterPort.TakeNewData | src/pwf_filter_process.c:110-142 | the in-place swap and dequeue match the specification, with different arrays on the two sides |
| FilterPorts.FilterPort.RetainNew | src/pwf_filter_process.c:144-159 | an arrival is numbered, retained with hold, and the buffer held before is released |
| FilterPorts.FilterPort.ShowHeld | src/pwf_filter_process.c:160-169 | without one the retained frame is shown again, if any |
| FilterPorts.FilterPort.AssembleMedia | src/pwf_filter_process.c:107-169 | both together are the specification of a media input port's cycle |
| FilterPorts.FilterPort.AssemblePort | src/pwf_filter_process.c:64-179 | one pass of the first loop is the specification's step, for all four kinds of port |
| FilterPorts.FilterPort.FinishPort | src/pwf_filter_process.c:193-227 | one pass of the second loop empties the event lists and gives the size its chunk says |
| FilterPorts.ChunkSays | src/pwf_filter_process.c:193-223 | a chunk is given the size the callback reported, or the bytes of the port's events, less multiples of 2^32, and so truly if and only if that is below 2^32; input ports write none |
| FilterPorts.FilterPort.ReleaseHeld | src/pwf_filter.c:329-335 | the held buffer is handed over and forgotten |
| FilterPorts.FilterPort.StopPort | src/pwf_filter.c:327-337 | stopping a port is the specification's stop; numbering is not reset |
| FilterPorts.SizeIgnoresData | src/pwf_filter_event.c:210-237 | the encoded size does not depend on where the event's bytes are |
| FilterPorts.Filter.AddPort | src/pwf_filter.c:121-133 | ports are kept in the order they were added |
| FilterPorts.Filter.BeginCycle | src/pwf_filter_process.c:41-179 | the cycle runs unless there are no ports or the arrays for more than eight cannot be made, and then changes nothing; the first loop does the specified step to every port once, with one try-lock result for all |
| FilterPorts.Filter.EndCycle | src/pwf_filter_process.c:193-227 | every port is finished; the k-th buffer queued is that of the k-th port with one, with what its chunk is given, and no other is |
| FilterPorts.Filter.ReturnHeldBuffers | src/pwf_filter.c:325-337 | every port is stopped; the k-th buffer queued is that of the k-th port that held one, and no other is |
| Ring.LoopbackRing.constructor | utils/pwf_stream_loopback.c:35-45 | a new ring is empty and zeroed |
| Ring.LoopbackRing.Write | utils/pwf_stream_loopback.c:54-66 | a write fills the free space in order, advances by what it kept and counts the rest as dropped |
| Ring.LoopbackRing.Read | utils/pwf_stream_loopback.c:70-81 | a read returns what is there, up to the length asked, and advances by it |
| RingProtocol.SlotIsModulo | utils/pwf_stream_loopback.c:64-64 | wrapping positions address as unbounded ones would while they are continuous |
| RingProtocol.SlotsDiffer | utils/pwf_stream_loopback.c:64-64 | two positions less than a capacity apart then have different slots |
| RingRuns.WriteClipOk | utils/pwf_stream_loopback.c:56-62 | clipping against a stale read index keeps the invariant and accounts for every offered byte |
| RingRuns.WriteByteOk | utils/pwf_stream_loopback.c:63-64 | a copied byte lands in no slot that still holds an unread one |
| RingRuns.ReadByteOk | utils/pwf_stream_loopback.c:77-78 | a byte read is the stream's next, whatever the writer does |
| RingRuns.StepOk | utils/pwf_stream_loopback.c:54-81 | every step of either thread keeps the ring's invariant |
| RingRuns.RingIsFifo | utils/pwf_stream_loopback.c:54-81 | in every interleaving, while positions are continuous, reads return a prefix of the accepted bytes, the indices differ by what is stored, at most the capacity, and offered = accepted + in flight + dropped |
| RingRuns.NoSlotIsShared | utils/pwf_stream_loopback.c:22-27 | the byte being written is in no slot being read |
| RingRuns.WriteAlone | utils/pwf_stream_loopback.c:54-66 | an uninterrupted schedule of the write's steps is the object's Write |
| RingRuns.ReadAlone | utils/pwf_stream_loopback.c:70-81 | an uninterrupted schedule of the read's steps is the object's Read |
| RingRuns.WrapOverwrites | utils/pwf_stream_loopback.c:22-27 | for any capacity that does not divide 2^64 there is a run that reads a byte out of order |
| RingRuns.FifoExactlyWhenCapacityDivides | utils/pwf_stream_loopback.c:54-81 | the ring is a FIFO in all runs if and only if its capacity divides 2^64 |
| Text.IsAllDigits | src/pwf_stream_routing.c:100-108 | true exactly for a non-empty string of digits |
| Text.DecimalRoundTrip | src/pwf_stream_routing.c:155-155 | a printed serial is all digits and parses back to itself, over the whole 64-bit range |
| Text.ParsesExactly | src/pwf_stream_routing.c:110-115 | blanks, a sign, digits and a rest parse as the digits' value, negated modulo 2^64 after a minus and saturated out of range |
| Text.ParsesNothing | src/pwf_pw_core.c:164-164 | without digits the value is 0 |
| Text.SerialFits | src/pwf_stream_routing.c:155-155 | a printed serial is never cut short by its 32-byte field |
| Registry.GraphRegistry.AddNode | src/pwf_pw_core.c:142-169 | a named node is cached last, with the source's defaults, if its array can grow and its name be copied; without the media class or description whose copy failed |
| Registry.GraphRegistry.AddPort | src/pwf_pw_core.c:171-203 | a named port of a node is cached last, with the source's defaults, if its allocations succeed; a full array doubles, and moves or not |
| Registry.GraphRegistry.OnGlobal | src/pwf_pw_core.c:205-218 | an announced global becomes at most one cache entry; the port notification names its node |
| Registry.GraphRegistry.OnGlobalRemove | src/pwf_pw_core.c:220-245 | the entry with the id is overwritten by the last one, whose old slot keeps its bytes; the node notification fires exactly for a cached node |
| Registry.GraphRegistry.FindNodeByName | src/pwf_pw_core.c:347-356 | the loop finds the first node of the name, or 0 |
| Registry.GraphRegistry.FindNodeBySerial | src/pwf_pw_core.c:358-367 | the loop finds the first node of the serial, or 0, and 0 for serial 0 |
| Registry.GraphRegistry.FindPort | src/pwf_pw_core.c:369-380 | the loop finds the first port with node, direction and name, or 0 |
| Registry.GraphRegistry.InsertSorted | src/pwf_pw_core.c:399-404 | the shifting loop inserts a pointer stably by its entry's ordinal and touches nothing past the insertion |
| Registry.GraphRegistry.ListPorts | src/pwf_pw_core.c:382-407 | the exact match count; the array holds pointers into the cache to the listing of the first `max` matches, and is untouched beyond |
| Registry.GraphRegistry.Sync | src/pwf_pw_core.c:309-318 | a round-trip applies the events it brings, in order, also when it does not end in time |
| Registry.GraphRegistry.PickTargetPort | src/pwf_filter_port_link.c:53-71 | at most ten rounds; the first listing that is not empty decides, a failed round-trip ends it with 0 |
| RegistryHistory.CacheIsLive | src/pwf_pw_core.c:142-245 | after any well-formed history the cache is a permutation of the live named nodes and ports, less those whose allocations failed, and nodes without what could not be copied |
| RegistryHistory.NodeIsAsAnnounced | src/pwf_pw_core.c:142-169 | a node is cached if and only if it is named and could be stored, and its entry says what was announced: a printed serial reads back, a missing one is 0, a class or description that could not be copied is none |
| RegistryHistory.PortIsAsAnnounced | src/pwf_pw_core.c:171-203 | a port is cached if and only if it names itself and its node and could be stored; printed ids and ordinals read back, it is an output if and only if announced as "out", a missing ordinal is 0 |
| RegistryHistory.TableHasRoom | src/pwf_pw_core.c:179-186 | after any history the port array has room for what it holds, its size 0 or a doubling of 32 |
| RegistryHistory.TableIsCache | src/pwf_pw_core.c:171-245 | the entries in use of the port array are the cached ports |
| PortSlots.PointerHoldsExactly | src/pwf_pw_core.c:179-191 | a pointer into the port cache names its port if and only if no event has moved the array or written another entry into the slot, the id not being announced again |
| PortSlots.UndisturbedHolds | src/pwf_pw_core.c:239-241 | a slot that no event disturbs keeps its entry, whatever ids are announced |
| PortSlots.QuietIsUndisturbed | src/pwf_pw_core.c:179-203 | while no port leaves the cache and the new ones fit the array, no slot is disturbed |
| RegistryHistory.RemoveKeeps | src/pwf_pw_core.c:225-241 | swap-removal removes exactly one live entry from the permutation |
| RegistryHistory.SortIsStable | src/pwf_pw_core.c:397-404 | the listing is sorted by ordinal and keeps the order of equal ordinals |
| RegistryHistory.StableSortIsUnique | src/pwf_pw_core.c:397-404 | there is only one such list |
| RegistryHistory.ListingIsStableSort | src/pwf_pw_core.c:382-407 | a list is the port listing if and only if it is the stable ordinal sort of the first `max` matches |
| RegistryHistory.MatchesAreLive | src/pwf_pw_core.c:388-393 | a node's matches are its live ports in that direction, each once, and as many |
| RegistryHistory.SameListing | src/pwf_pw_core.c:382-407 | histories that leave the same globals live list all of a node's ports alike, if no two have one ordinal |
| RegistryHistory.ListingsDiffer | src/pwf_pw_core.c:395-396 | with more ports than `max`, one history lists a port of lowest ordinal first and another does not list it |
| RegistryHistory.TiesDiffer | src/pwf_pw_core.c:397-404 | with two ports of one ordinal, two histories of the same graph list them in different order |
| RegistryHistory.ListingForgetsHistory | src/pwf_pw_core.c:382-407 | a listing depends only on the live graph if and only if the node has at most `max` ports and no two have one ordinal |
| RegistryHistory.PickForgetsHistory | src/pwf_filter_port_link.c:50-71 | every history picks the same target port if and only if the node has at most 64 outputs and no two have the lowest ordinal |
| RegistryHistory.FirstIsPicked | src/pwf_filter_port_link.c:50-71 | every output of lowest ordinal is picked after some history |
| RegistryHistory.PickIsLowest | src/pwf_filter_port_link.c:50-71 | the port picked is an output of the node, of lowest ordinal |
| Targets.ResolveTarget | src/pwf_stream_routing.c:110-115 | an all-digit target is looked up as a serial, any other as a name |
| Targets.ResolveTargetNode | src/pwf_filter_port_link.c:75-108 | the whole string first, then the split at the last colon, as the specification says |
| Targets.ResolveTargetPort | src/pwf_filter_port_link.c:112-133 | node and port together, 0 for both when a named port is missing |
| Targets.ListTargets | src/pwf_stream_routing.c:144-161 | the true count of the media class, and its first entries in cache order, cut to their fields |
| Targets.ListsClassInOrder | src/pwf_stream_routing.c:144-161 | the list has an entry for each node of the class and for no other, in cache order |
| Targets.InfoShows | src/pwf_stream_routing.c:150-155 | an entry shows as much of name and description as its fields hold, and the serial in full |
| Targets.ListedSerialResolves | src/pwf_stream_routing.c:155-155 | a listed serial resolves back to its node if and only if it is not 0 and no earlier node has it |
| Targets.ListedNameResolves | src/pwf_stream_routing.c:151-151 | a listed name that is not all digits resolves back if and only if it is under 256 bytes and no earlier node has it |
| Targets.ListedDigitsAreSerial | src/pwf_stream_routing.c:110-115 | an all-digit name resolves back if and only if its node is the first with that serial |
| Targets.DigitNameMisses | src/pwf_stream_routing.c:110-115 | such a name can resolve to nothing or to another node |
| Targets.LastColonOf | src/pwf_filter_port_link.c:90-92 | the last colon of "n:p" is the separator exactly when p has none |
| Targets.NodePortSplits | src/pwf_filter_port_link.c:75-108 | "n:p" splits into n and p if and only if p is non-empty without a colon, n resolves and fits its buffer, and no node is named "n:p" |
| Targets.CachedIdsAreDistinct | src/pwf_pw_core.c:142-169 | the nodes these round trips speak of have distinct non-zero ids in every history |
| StreamLinks.ToldFlags | src/pwf_stream_routing.c:198-211 | a link's flags record exactly whether it was ever reported up, and ever in error |
| StreamLinks.ToldStanding | src/pwf_stream_routing.c:198-211 | a link's last word is that it is up if and only if there is such a word and each that it is in error or unlinked was followed by one |
| StreamLinks.WaitSucceedsExactly | src/pwf_stream_routing.c:270-282 | a wait succeeds if and only if the link comes up before the deadline and before any error |
| StreamLinks.WaitEndsExactly | src/pwf_stream_routing.c:270-282 | a wait handles all up to the wake that brings a report or comes too late; it fails for the format if and only if there was an error in that, and otherwise for time |
| StreamLinks.OutcomeExactly | src/pwf_stream_routing.c:250-268 | a request fails for memory without its properties, for the connection without its proxy, and else ends as its wait does |
| StreamLinks.GraphEventsInOrder | src/pwf_stream_routing.c:270-282 | the registry hears every registry event among what is handled, and no other, in order |
| StreamLinks.FirstFailureIsFirst | src/pwf_stream_routing.c:353-366 | a request is OK if and only if every link of it comes up, and else has the code of the first that does not |
| StreamLinks.LinkAfterExactly | src/pwf_stream_routing.c:353-366 | a link that came up when requested is flagged lost if and only if an error of it was handled while a later one was requested, and still up if and only if no error or unlinking since its request went unanswered |
| StreamLinks.Stream.HandleAll | src/pwf_stream_routing.c:198-211 | events change only the links they are for, and the registry's memory |
| StreamLinks.Stream.Wait | src/pwf_stream_routing.c:270-282 | the loop has the outcome the events give, error beating up and a timeout failing even a link that came up with it; every other link hears exactly what is handled meanwhile |
| StreamLinks.Stream.LinkOne | src/pwf_stream_routing.c:240-286 | the code of every failure, the proxy recorded if and only if it was made, and exactly what its own wait makes of this link, of every other link and of the registry's memory |
| StreamLinks.Stream.ReleaseLinks | src/pwf_stream_routing.c:218-237 | every proxy of the set is destroyed once, in order, and the set is gone |
| StreamLinks.Stream.AwaitOwnPorts | src/pwf_stream_routing.c:71-96 | a node id is returned only when at least the expected ports are cached for it |
| StreamLinks.Stream.LinkNext | src/pwf_stream_routing.c:353-366 | the port ids are read through the listed pointers when the request is made; one more link that came up, each link as all that was handled since its request has left it; or everything of this request undone |
| StreamLinks.Stream.LinkAll | src/pwf_stream_routing.c:353-366 | all links are made and came up, each flagged, and its last word up or not, as everything handled from its request on determines; or none is left and each proxy made was destroyed once |
| StreamLinks.Stream.LinkTo | src/pwf_stream_routing.c:288-372 | every refusal in order and without effect; else pointers to both listings, and OK with one link per own port as read through them, or the first failure's code with no links and each proxy destroyed once |
| StreamLinks.Stream.Unlink | src/pwf_stream_routing.c:374-386 | the whole set is released, or nothing changes |
| StreamLinks.Stream.OnNodeRemoved | src/pwf_stream_routing.c:39-50 | losing the target releases the set and reports once; other nodes change nothing |
| StreamLinks.Stream.AllDestroyedOnce | src/pwf_stream_routing.c:213-237 | whenever nothing is linked, each proxy ever made has been destroyed exactly once |
| StreamPlans.PairsByOrdinal | src/pwf_stream_routing.c:318-341 | every own port is wanted in one link, the i-th by ordinal with the target's i-th, from an output to an input |
| StreamPlans.PlansExactly | src/pwf_stream_routing.c:311-335 | links are planned if and only if the target resolves and has at least as many ports as the stream, which has some, neither over 64, a surplus being no error; not found if and only if it does not resolve, else an invalid argument |
| StreamPlans.OwnPortsExactly | src/pwf_stream_routing.c:71-96 | the stream's node is found if and only if all its ports are cached before the deadline, as soon as they are |
| StreamPlans.RefusesExactly | src/pwf_stream_routing.c:291-303 | a call is let through if and only if it names a target outside callbacks of a running, unlinked stream that does not connect itself, with a registry; else the code of the first check to fail |
| StreamPlans.DecidesExactly | src/pwf_stream_routing.c:308-346 | the plan is made in the first cache with all the stream's ports, the call timing out without one; memory can still fail it |
| StreamPlans.RequestExactly | src/pwf_stream_routing.c:354-356 | one request is the one wanted if and only if the slots of its two ports were not disturbed before it, their ids not being announced again by then |
| StreamPlans.WiredAsWantedExactly | src/pwf_stream_routing.c:324-366 | the links asked for are the ones wanted if and only if no event handled since the listing moved the array or overwrote the slot of a port yet to be linked, no such port's id being announced again |
| StreamPlans.LiveAreSettled | src/pwf_pw_core.c:142-245 | in a graph that announces no live id, the listed ports that do not go before they are linked have ids of one entry each that are not announced again |
| StreamPlans.UndisturbedIsWired | src/pwf_stream_routing.c:324-366 | without such an event they are, whatever ids are announced |
| StreamPlans.QuietGraphIsWiredAsWanted | src/pwf_stream_routing.c:324-366 | a graph in which no port goes, and the new ones fit the array, is wired as wanted |
| StreamPlans.SecondLinkMisdirected | src/pwf_stream_routing.c:354-356 | an unrelated port going and another coming during the first wait make the second link name the newcomer, and the call return OK |
| StreamPlans.AllUpExactly | src/pwf_stream_routing.c:198-211 | after OK every link's last word is that it is up if and only if each report of a link in error or unlinked, from its own wait on, was followed by one that it is up |
| StreamPlans.FlaggedExactly | src/pwf_stream_routing.c:198-211 | after OK a link is flagged lost if and only if an error of it was handled while a later one was requested; no flag tells of an unlinking |
| StreamPlans.LostLinkGoesUnseen | src/pwf_stream_routing.c:270-282 | an error or an unlinking of the first link during the second's wait leaves OK over a link that is not up; only the error is flagged |
| StreamPlans.LinkGoneAtReturn | src/pwf_stream_routing.c:205-208 | a single link reported active and then unlinked in one wake leaves OK over a link that is gone |
| StreamPlans.ResolvesToAnswer | src/pwf_stream_routing.c:110-115 | a target resolves to a node that answers to it, or to 0 when none does |
| StreamPlans.ResolveForgetsHistory | src/pwf_stream_routing.c:110-115 | a target that one live node answers to resolves alike after every history |
| StreamPlans.PlanForgetsHistory | src/pwf_stream_routing.c:311-341 | the wiring wanted, or the refusal, depends only on the live graph |
| FilterLinks.AttemptIsWhole | src/pwf_filter_port_link.c:307-347 | whatever happens while it waits, the port keeps its new proxy, on a link that came up, if and only if the call succeeds and no stop or unlink took the link meanwhile; else the proxy is destroyed once and every link field clear; the wait is gone |
| FilterLinks.AttemptEndsExactly | src/pwf_filter_port_link.c:195-215 | the first wake with a decision, if in time, decides it: OK when the last word in it before the link is taken is up, a format error when it is down; without such a wake it times out |
| FilterLinks.LinkPort.ClaimSourceLoss | src/pwf_filter.c:87-93 | a loss is claimed only while running and once until re-armed |
| FilterLinks.LinkPort.OnLinkInfo | src/pwf_filter_port_link.c:187-233 | the callback's whole effect on the port, and whether it reports |
| FilterLinks.LinkPort.OnParamChanged | src/pwf_filter.c:53-85 | a set format re-arms the report, a cleared one on an input claims it |
| FilterLinks.LinkPort.ReleaseLink | src/pwf_filter_port_link.c:242-253 | a release destroys the proxy, clears the flags and silences the loss it causes |
| FilterLinks.LinkPort.AwaitLink | src/pwf_filter_port_link.c:327-334 | the waiting loop is the specification's wait |
| FilterLinks.LinkPort.Attempt | src/pwf_filter_port_link.c:318-339 | from the proxy on, the call ends in the specified state and code, whatever is handled or released meanwhile |
| FilterLinks.LinkPort.ResolveOwnPort | src/pwf_filter_port_link.c:166-185 | the known id, or what at most a hundred tries and round-trips find, which is then kept |
| FilterLinks.LinkPort.LinkTo | src/pwf_filter_port_link.c:255-348 | every refusal in order and without effect; what the port hears during the lookups handled; the code of a target or own port not found, and else the attempt at a link between the ports found |
| FilterLinkPlans.JoinsTargetExactly | src/pwf_filter_port_link.c:273-311 | a link is asked for if and only if the target is found and the own port is known or found in time; it leads from the target's node and port to the filter's own |
| FilterLinkPlans.TargetExactly | src/pwf_filter_port_link.c:112-133 | the target is the node that answers to the whole string, with the output picked, or the one before the last colon, with its output named after it; not found if and only if neither is |
| FilterLinkPlans.SplitsExactly | src/pwf_filter_port_link.c:75-108 | a target splits into one node and port only, and does if and only if no node answers to all of it, the part before the last colon fits and resolves, and a port is named after it |
| FilterLinkPlans.PickedExactly | src/pwf_filter_port_link.c:50-71 | the port picked is of lowest ordinal in the first cache with an output of the node, within ten lookups and round-trips in time; without such a cache none is |
| FilterLinkPlans.OwnPortExactly | src/pwf_filter_port_link.c:166-185 | the own port found is the filter's cached input of its name, at the first of a hundred tries that could know it, after round-trips in time |
| FilterLinkPlans.OwnPortIsOwn | src/pwf_filter_port_link.c:166-185 | it is an input of the node the link is made with, when the filter's node id does not change |
| FilterLinkPlans.NamedExactly | src/pwf_pw_core.c:369-380 | a port is found by node, direction and name if and only if a first one so named is cached, with another id than 0 |
| FilterLinkPlans.RefusesExactly | src/pwf_filter_port_link.c:258-271 | a call is let through if and only if it names a target outside callbacks for an unlinked input of a running filter with a registry; else the code of the first check to fail |
| FilterLinks.LinkPort.Unlink | src/pwf_filter_port_link.c:350-365 | the link is released, or nothing changes |
| FilterLinks.LinkFilter.Start | src/pwf_filter.c:263-293 | running exactly on success |
| FilterLinks.LinkFilter.ReleaseAllLinks | src/pwf_filter_port_link.c:367-378 | every port's link is released once |
| FilterLinks.LinkFilter.Drain | src/pwf_filter.c:307-322 | a draining stop handles what the loop brings until drained or out of time |
| FilterLinks.ForPortInOrder | src/pwf_filter.c:307-322 | a port hears all that is for it and nothing else, in order |
| FilterLinks.DrainsExactly | src/pwf_filter.c:307-322 | a draining stop handles everything up to the wake that says drained or comes too late |
| FilterLinks.LinkFilter.Stop | src/pwf_filter.c:295-346 | stopped, after the drain if asked for, with every link released; or nothing changes |
| FilterLinkRuns.StepOk | src/pwf_filter_port_link.c:187-253 | every call and event, interleaved in any way, keeps the reporting flag equal to what the log says |
| FilterLinkRuns.FlagsInRuns | src/pwf_filter_port_link.c:187-253 | in every run a port without a call waiting is flagged up, or lost, as the last word on its link says; a waiting call has it for its result; a port without a link has no flag |
| FilterLinkRuns.LossIsReportedOnce | src/pwf_filter.c:61-93 | in every run reports happen only while running, and between a report or a release of a port and a later report a format was negotiated |
| FilterLinkRuns.LossIsReportedExactly | src/pwf_filter.c:74-93 | in every run a loss - a cleared format, or an error or unlinking after the last word was up - is reported if and only if the filter runs and no report or release stands since the last negotiated format |
| FilterLinkRuns.LinksAreConserved | src/pwf_filter_port_link.c:242-253 | in every run each proxy of a port is its one live link or was destroyed exactly once |
| FilterLinkRuns.LinkCallIsWhole | src/pwf_filter_port_link.c:327-347 | in every run a link call that ends leaves the port its new proxy, on a link that came up, if and only if it returns OK and no stop or unlink of the port came since the proxy was made; else no link |
| FilterLinkRuns.OkWithoutLink | src/pwf_filter_port_link.c:335-347 | a stop between the link's coming up and the return gives OK without a link |
| VideoRates.FormatInfo.InsertFramerate | src/pwf_video_enum.c:23-44 | the in-place search, shift and store insert the rate as specified |
| VideoRates.FormatInfo.StoreAt | src/pwf_video_enum.c:38-43 | the shift drops the slowest rate of a full list and no other |
| VideoRates.FormatInfo.ParseFramerates | src/pwf_video_enum.c:107-150 | the index ranges of every choice kind select the values that name a rate |
| VideoRates.InsertKeepsTop | src/pwf_video_enum.c:23-44 | one insertion keeps the list the top eight of all distinct rates offered |
| VideoRates.InsertedIsTop | src/pwf_video_enum.c:23-44 | after any insertions the list is strictly descending and is the eight largest distinct rates, or all of them |
| VideoRates.OrderDoesNotMatter | src/pwf_video_enum.c:23-44 | the list does not depend on order or repetition |
| VideoRates.ParsedIsTop | src/pwf_video_enum.c:107-150 | a parsed format lists the top of the positive whole rates of the values that name one: the only one, those of an Enum after its default, the two ends of a range, none of flags |
| RateLimit.LogLimiter.Check | src/pwf_rate_limit.c:20-29 | the limiter's step, with the wrap of its subtraction and count |
| RateLimit.LogLimiter.Note | src/pwf_stream_playback.c:45-49 | a log line states the suppressed count and resets it |
| RateLimit.RunKeeps | src/pwf_rate_limit.c:18-29 | over any run the first occurrence is logged and lines stay a second apart |
| RateLimit.LinesAreSpaced | src/pwf_rate_limit.c:7-9 | in a span of T nanoseconds there are at most 1 + T / 10^9 lines |
| RateLimit.LoggedExactly | src/pwf_rate_limit.c:20-29 | an occurrence is logged if and only if no line came in the second before it |
| RateLimit.OccurrencesAreConserved | src/pwf_stream_playback.c:77-83 | occurrences are the lines, the suppressed counts they state and the pending count |
| RateLimit.ZeroIsForgotten | src/pwf_rate_limit.c:18-22 | a timestamp of 0 is not remembered as a line |
| Playback.PlaybackStream.Fill | src/pwf_stream_playback.c:24-52 | the callback's bytes up to the last whole frame, zeros up to `available`, nothing beyond; the time taken affects only the log |
| Playback.PlaybackStream.OnProcess | src/pwf_stream_playback.c:66-109 | every dequeued buffer is queued back; a usable one with a full cycle and its chunk, the callback told the presentation time; an unusable one untouched |
| Playback.FloorIsGreatest | src/pwf_stream_playback.c:38-39 | the floor is the greatest number of whole frames reported, and the size itself when a frame has none |
| Playback.AvailableExactly | src/pwf_stream_playback.c:88-93 | a cycle is the requested frames, or the region if smaller or if none were requested or a frame has no size, if and only if the product does not wrap into something that fits |
| Playback.FramesFit | src/pwf_stream_playback.c:101-106 | the buffer never claims more frames than its chunk holds |
| Playback.PresentationIsAfterWhatIsAhead | src/pwf_stream_playback.c:54-64 | the presentation time is the graph's, plus what is ahead of the first sample, truncated to nanoseconds; -1 without a time or a rate |
| Playback.BudgetIsPlayingTime | src/pwf_stream_playback.c:15-22 | the budget is the cycle's playing time, the 64-bit product never wrapping; 0 without a frame size or rate |

## Left out

- FilterPorts.FilterPort.PushEvent: pushes to an output port come from the callback only, as the header demands; from elsewhere the code drops the staged copies without freeing them (src/pwf_filter_process.c:95).
- FilterRuns.PushesNeverTear: the lock, its release and an event append under it are single steps; a byte copy of a media push is not.
- Events.DecodeEncoded: a control sequence is a list of offset, type and value; byte-level compatibility with SPA POD, whose headers are not part of this model, is not claimed, and the sizes follow the layout its builder documents.
- RingRuns.RingIsFifo: index loads and stores are sequentially consistent steps with stale local copies; C11 weak memory beyond that is not modelled.
- FilterRuns.EventsWrittenExactly: what the builder leaves in a buffer it overflows is not modelled; such a cycle counts as writing nothing whole.
- StreamLinks.Stream.LinkTo: while the call waits, the target node is not removed and the application does not unlink from its error callback, either of which frees the link set under it (src/pwf_stream_routing.c:39-50 and 374-386); names read through the listed pointers for the log are not modelled.
- Registry.GraphRegistry.ListPorts: a lookup is one step; the code makes some on the application's thread without the loop's lock, and the two listings of a stream's link with nothing in between.
- PortSlots.PointerHoldsExactly: an entry is its id; that a removed port's name is freed is not modelled.
- FilterLinkRuns.LossIsReportedOnce: one link call at a time per port; destroying the filter is not a step.
- Playback.PresentationIsAfterWhatIsAhead: times stay in the range of int64_t.
- PipeWire itself, format POD building and parsing, pixel format and size parsing of an advertised format, the log, buffer and DMABUF wrappers: lookups and calls that would add easy members.
- The life cycle of a stream, apart from linking: state and format callbacks, start and stop, and autoconnect have one flag each.
- The callback itself: any behaviour that keeps to its buffers; an output port's reported size is an input.
- The utilities and examples, apart from the ring.
