# Queue submission in RenderDoc's Vulkan layer, in Dafny

This project models `renderdoc/driver/vulkan/wrappers/vk_queue_funcs.cpp`.
That file is where RenderDoc's Vulkan capture/replay layer intercepts
`vkGetDeviceQueue`, `vkQueueSubmit` and `vkQueueWaitIdle`, and where it
replays the chunks those calls record. The model covers both sides.

**Capture** (the application runs under the layer):
- `vkQueueSubmit` hands the unwrapped submits to the driver.
- It then accounts for every submitted command buffer. It applies the buffer's image barriers and marks what the buffer dirtied as dirty, or as pending-dirty inside a captured frame.
- Inside a captured frame it also frame-references what the buffer uses, keeps the buffer's baked records alive with a reference each, flushes the persistent coherent mappings the submission can reach, and records one `QUEUE_SUBMIT` chunk per submit.
- `vkQueueWaitIdle` records a `QUEUE_WAIT_IDLE` chunk inside a frame.
- `vkGetDeviceQueue` wraps each queue handle once and records a `GET_DEVICE_QUEUE` chunk.

**Replay** (a capture is read back):
- `READING` submits each recorded submission once.
- It lays the submission out on the event timeline: one event for the submission, then per command buffer one virtual event followed by that buffer's recorded events.
- It renumbers a copy of each buffer's drawcall tree into that range (`RefreshIDs`).
- `EXECUTING` replays up to a target event. It skips the submission, submits a trimmed copy of it, or submits it whole. The trimmed copy keeps the buffers whose events all lie at or before the target, and puts the partial command buffer in place of the buffer that starts at the partial-replay base event. Each kept buffer's live handle is looked up again from its recorded id.

## Modules

| file | module | what it holds |
|---|---|---|
| `types.dfy` | `Types` | Resource ids (the empty id is 0), `LogState` in its declared order, error kinds, the ghost driver-call log entries, `Wrap64`. |
| `chunks.dfy` | `Chunks` | The field order of the three chunks, as writer and reader, with round-trip and exactness lemmas. |
| `draw_tree.dfy` | `DrawTree` | Drawcall trees. `Refreshed` is the result of `RefreshIDs`; `Events` is the list it appends to `m_Events`. |
| `timeline.dfy` | `Timeline` | Event accounting of one submission (`Span`, `Starts`), the branch decision (`Decide`) and the trim policy (`FateOf`, `TrimFrom`), with the trim loop as a method. |
| `replay.dfy` | `Replay` | The replay-side `WrappedVulkan` class: `RefreshIDs`, the `READING` and `EXECUTING` branches, `Serialise_vkQueueSubmit`, `Serialise_vkQueueWaitIdle`. |
| `bookkeeping.dfy` | `Bookkeeping` | The per-command-buffer capture bookkeeping as pure functions (`Step`, `Run`), with lemmas on what a run marks, keeps and references. |
| `flush.dfy` | `MapFlush` | The coherent-map flush as functions (`FlushOne`, `FlushAll`). |
| `capture.dfy` | `Capture` | The capture-side `WrappedVulkan` class: `vkQueueSubmit` and `vkQueueWaitIdle`, proved against `Bookkeeping` and `MapFlush`. Also the unwrapping of the submits. |
| `queues.dfy` | `Queues` | `vkGetDeviceQueue` and `Serialise_vkGetDeviceQueue` on a class holding the resource manager's wrappers, live resources and records. |

Modelling choices:
- Wrapped objects are identified with their resource ids.
- Driver calls and applied barrier lists go to ghost logs. The coherent-map flush (line 547) is logged the same way, although it goes through the layer's own `vkFlushMappedMemoryRanges` wrapper rather than straight to the driver; what that wrapper does is not part of this model (see `Capture.WrappedVulkan.FlushMap` under "## Left out").
- `FindDiffRange` is a function parameter.
- The capture state each command buffer observes is an input of `Bookkeeping.Run`. `vkQueueSubmit` takes `m_CapTransitionLock` per command buffer, so another thread may begin or end a frame between two buffers of one call. The class method `Capture.WrappedVulkan.QueueSubmit` is the single-threaded case: every buffer observes `m_State`.

Notes on the code:
- Secondary command buffers are visited one level down (lines 473-480). A secondary's own descriptor sets and its own secondaries are not visited. The model does the same.
- The barrier, dirty and clearing steps of `vkQueueSubmit` run in every capture state. The reference steps run only once the call is in the frame. The model does the same.
- `vkQueueSubmit` dereferences `record->bakedCommands` at line 413 without a check. The `RDCASSERT` at line 149 is in `Serialise_vkQueueSubmit`, which runs later (line 571). The model requires the baked records to exist (`Bookkeeping.Known`).
- Line 497 clears the dirtied set of the command buffer's own record (`record->cmdInfo`), not of the baked record. `Bookkeeping.RunClears` states that.
- `Serialise_vkGetDeviceQueue` wraps the replayed queue without the `HasWrapper` check that `vkGetDeviceQueue` makes. `Queues.WrappedVulkan.SerialiseGetDeviceQueue` does the same.

## Model

| member | source | states |
|---|---|---|
| Chunks.ReadSubmit | renderdoc/driver/vulkan/wrappers/vk_queue_funcs.cpp:135-178 | any QUEUE_SUBMIT field list the reader rejects is a MalformedChunk error |
| Chunks.WriteSubmit | renderdoc/driver/vulkan/wrappers/vk_queue_funcs.cpp:135-178 | a QUEUE_SUBMIT chunk has four fields plus one per command buffer; its third field, numCmds, is that count; the only u32 fields are numCmds and the trailing numWaitSems |
| Chunks.SubmitRoundTrip | renderdoc/driver/vulkan/wrappers/vk_queue_funcs.cpp:135-178 | reading the QUEUE_SUBMIT fields written for a submission (queue id, fence id or the empty id, numCmds, one baked id per command buffer, numWaitSems) gives back that submission, a null fence reading back as null |
| Chunks.SubmitReadIsExact | renderdoc/driver/vulkan/wrappers/vk_queue_funcs.cpp:135-178 | every field list the reader accepts is exactly what the writer produces for the decoded submission |
| Chunks.ReadGetDeviceQueue | renderdoc/driver/vulkan/wrappers/vk_queue_funcs.cpp:34-37 | any GET_DEVICE_QUEUE field list the reader rejects is a MalformedChunk error |
| Chunks.GetDeviceQueueRoundTrip | renderdoc/driver/vulkan/wrappers/vk_queue_funcs.cpp:34-37 | the device id, family index, queue index and queue id written in that order read back unchanged |
| Chunks.GetDeviceQueueReadIsExact | renderdoc/driver/vulkan/wrappers/vk_queue_funcs.cpp:34-37 | every accepted GET_DEVICE_QUEUE field list is the writer's output for what it decodes to |
| Chunks.ReadQueueWaitIdle | renderdoc/driver/vulkan/wrappers/vk_queue_funcs.cpp:648 | a QUEUE_WAIT_IDLE field list the reader rejects is a MalformedChunk error |
| Chunks.QueueWaitIdleRoundTrip | renderdoc/driver/vulkan/wrappers/vk_queue_funcs.cpp:648 | the queue id written reads back unchanged |
| DrawTree.RefreshedShape | renderdoc/driver/vulkan/wrappers/vk_queue_funcs.cpp:336-352 | renumbering keeps the tree's structure, names and payloads, its node count and its length |
| DrawTree.Refreshed | renderdoc/driver/vulkan/wrappers/vk_queue_funcs.cpp:336-352 | renumbering a list of nodes gives a list of the same length |
| DrawTree.RefreshedNodeEventIDs | renderdoc/driver/vulkan/wrappers/vk_queue_funcs.cpp:341 | every node's event id gains baseEventID, at every depth, in pre-order |
| DrawTree.RefreshedNodeDrawIDs | renderdoc/driver/vulkan/wrappers/vk_queue_funcs.cpp:342 | every node's drawcall id gains baseDrawID, at every depth, in pre-order |
| DrawTree.RefreshedEvents | renderdoc/driver/vulkan/wrappers/vk_queue_funcs.cpp:344-350 | the events the walk emits are the tree's API events in visiting order, each with baseEventID added |
| DrawTree.RefreshedCompose | renderdoc/driver/vulkan/wrappers/vk_queue_funcs.cpp:336-352 | renumbering by (a, b) then (c, d) equals renumbering by (a+c, b+d) |
| DrawTree.RefreshedZero | renderdoc/driver/vulkan/wrappers/vk_queue_funcs.cpp:336-352 | renumbering by (0, 0) changes nothing |
| DrawTree.RefreshedInjective | renderdoc/driver/vulkan/wrappers/vk_queue_funcs.cpp:336-352 | two trees that renumber to the same tree are equal: renumbering loses no information |
| Replay.WrappedVulkan.AppendShiftedEvents | renderdoc/driver/vulkan/wrappers/vk_queue_funcs.cpp:344-348 | the event loop returns the node's events shifted by baseEventID and appends exactly those to m_Events |
| Replay.WrappedVulkan.RefreshIDs | renderdoc/driver/vulkan/wrappers/vk_queue_funcs.cpp:336-352 | the in/out node vector becomes Refreshed(nodes, baseEventID, baseDrawID), and m_Events gains exactly the renumbered tree's events in pre-order |
| Timeline.StartsAt | renderdoc/driver/vulkan/wrappers/vk_queue_funcs.cpp:216-243 | command buffer c of a submission starts at first + sum over the earlier buffers of (1 + eventCount) |
| Timeline.StartsNext | renderdoc/driver/vulkan/wrappers/vk_queue_funcs.cpp:242 | each buffer starts right after the previous buffer's virtual event and its recorded events |
| Timeline.StartsIncreasing | renderdoc/driver/vulkan/wrappers/vk_queue_funcs.cpp:216-243 | buffers occupy disjoint, increasing event ranges: all of buffer i's events come before buffer j's start when i < j |
| Timeline.StartsCover | renderdoc/driver/vulkan/wrappers/vk_queue_funcs.cpp:216-248 | the last buffer's last event is the submission's last event id, first + Span - 1 |
| Timeline.TargetInSomeBuffer | renderdoc/driver/vulkan/wrappers/vk_queue_funcs.cpp:255-267 | every event id of the submission lies in some buffer's range |
| Timeline.TargetInOneBuffer | renderdoc/driver/vulkan/wrappers/vk_queue_funcs.cpp:255-267 | no event id lies in the ranges of two different buffers |
| Timeline.Decide | renderdoc/driver/vulkan/wrappers/vk_queue_funcs.cpp:269-273 | nothing is replayed iff the target is the submission's start event; the partial branch is taken only for a target strictly inside the submission; the full branch iff the target is neither the start nor inside |
| Timeline.FateOf | renderdoc/driver/vulkan/wrappers/vk_queue_funcs.cpp:284-302 | a buffer is dropped iff it does not start at the base event and the target is before its last event; a kept buffer ends at or before the target |
| Timeline.TrimFrom | renderdoc/driver/vulkan/wrappers/vk_queue_funcs.cpp:282-305 | the trim of a submission is never longer than the submission |
| Timeline.TrimSubmission | renderdoc/driver/vulkan/wrappers/vk_queue_funcs.cpp:277-305 | the partial-replay loop fills the trimmed id list and handle list as TrimFrom decides for each buffer, and never makes them longer than the submission |
| Timeline.TrimStep | renderdoc/driver/vulkan/wrappers/vk_queue_funcs.cpp:284-304 | one buffer is replaced by the partial command buffer when it starts at the base event, kept when the target is at or after its last event, and dropped otherwise |
| Timeline.KeptIndicesSorted | renderdoc/driver/vulkan/wrappers/vk_queue_funcs.cpp:282-305 | the kept buffers' positions are strictly increasing positions of the submission |
| Timeline.KeptIndicesMember | renderdoc/driver/vulkan/wrappers/vk_queue_funcs.cpp:284-302 | buffer c is kept exactly when the branch for its start event is not the drop branch |
| Timeline.TrimKeepsOrder | renderdoc/driver/vulkan/wrappers/vk_queue_funcs.cpp:282-305 | the trimmed list holds the kept buffers in their original order, each replaced by the partial command buffer when it starts at the base event |
| Timeline.TrimMonotone | renderdoc/driver/vulkan/wrappers/vk_queue_funcs.cpp:293 | a later target never drops a buffer from the trim (every buffer kept for the earlier target is kept for the later one), so the trim never gets shorter |
| Timeline.TrimPastTarget | renderdoc/driver/vulkan/wrappers/vk_queue_funcs.cpp:284-304 | once the walk is past both the target and the base event, every remaining buffer is dropped |
| Timeline.TrimConsistentCursor | renderdoc/driver/vulkan/wrappers/vk_queue_funcs.cpp:282-307 | when the base event is buffer c's start and the target lies in buffer c, the trim is the buffers before c followed by the partial command buffer, so never empty |
| Timeline.TrimNonEmptyOnBaseHit | renderdoc/driver/vulkan/wrappers/vk_queue_funcs.cpp:286-291 | if some buffer starts at the base event, the partial command buffer is in the trim |
| Timeline.SubmittedCountMonotone | renderdoc/driver/vulkan/wrappers/vk_queue_funcs.cpp:269-328 | from the submission's start event on, a later target never submits fewer command buffers |
| Timeline.BelowStartSubmitsAll | renderdoc/driver/vulkan/wrappers/vk_queue_funcs.cpp:269-328 | below the start event the branches are not monotone: target start-1 submits both buffers, target start submits none |
| Replay.PushStartsRecordsEach | renderdoc/driver/vulkan/wrappers/vk_queue_funcs.cpp:239 | every start event pushed is recorded under its command buffer's id |
| Replay.PushStartsIncreasing | renderdoc/driver/vulkan/wrappers/vk_queue_funcs.cpp:239 | pushing strictly increasing start events above every recorded one keeps each buffer's list strictly increasing and bounded |
| Replay.StartsKeepValid | renderdoc/driver/vulkan/wrappers/vk_queue_funcs.cpp:216-248 | a submission's start events all lie after the last event handed out, so each buffer's cmdBufferSubmits list stays strictly increasing |
| Replay.Attach | renderdoc/driver/vulkan/wrappers/vk_queue_funcs.cpp:232-243 | the layout of a submission has one base per command buffer |
| Replay.AttachCounters | renderdoc/driver/vulkan/wrappers/vk_queue_funcs.cpp:218-244 | after the READING loop the root event id has moved by Span(eventCounts) and the drawcall id by the sum of drawCounts |
| Replay.AttachSubmits | renderdoc/driver/vulkan/wrappers/vk_queue_funcs.cpp:239 | the loop records each buffer's start event, as Starts lays them out, under that buffer's id |
| Replay.AttachBases | renderdoc/driver/vulkan/wrappers/vk_queue_funcs.cpp:234-237 | buffer c's children are renumbered from its own start event and from the drawcall ids used by the buffers before it |
| Replay.AttachKeepsSubmitsBelow | renderdoc/driver/vulkan/wrappers/vk_queue_funcs.cpp:216-248 | laying out a submission keeps every recorded start event list increasing and at or below the submission's last event |
| Replay.ResolveHandle | renderdoc/driver/vulkan/wrappers/vk_queue_funcs.cpp:168 | a recorded id resolves to a live handle iff it has a live resource |
| Replay.ResolveCmds | renderdoc/driver/vulkan/wrappers/vk_queue_funcs.cpp:156-163 | command buffer ids resolve iff each is the empty id or live; the empty id gives a null handle, any other its live handle; a failure is UnknownResource |
| Replay.ResolveFence | renderdoc/driver/vulkan/wrappers/vk_queue_funcs.cpp:169-172 | the empty fence id resolves to VK_NULL_HANDLE, any other to its live handle, and resolution fails iff it is neither |
| Replay.FirstWithoutInfo | renderdoc/driver/vulkan/wrappers/vk_queue_funcs.cpp:234 | None iff every command buffer id has baked info; otherwise an id without it |
| Replay.FirstKeptNotLive | renderdoc/driver/vulkan/wrappers/vk_queue_funcs.cpp:284-302 | the first buffer the partial trim keeps as recorded whose id (the empty id included) has no live resource; such an id is one of the submission's and is not live |
| Replay.FirstKeptNotLiveNone | renderdoc/driver/vulkan/wrappers/vk_queue_funcs.cpp:293-297 | the keep branch's lookups all succeed iff every buffer the trim keeps as recorded has a live resource |
| Replay.KeptHandlesAgree | renderdoc/driver/vulkan/wrappers/vk_queue_funcs.cpp:160-162 | when the keep branch's lookups all succeed and the empty id has no live resource, the handles it looks up again (line 297) trim to the same list as those resolved when the submission was read |
| Replay.PartialKeepsEmptyId | renderdoc/driver/vulkan/wrappers/vk_queue_funcs.cpp:284-297 | a null buffer followed by buffer 7, with the base event at buffer 7's start and the target inside it: the null buffer is kept and its id is the one whose lookup fails |
| Replay.ResolveSubmit | renderdoc/driver/vulkan/wrappers/vk_queue_funcs.cpp:154-173 | a decoded submission resolves iff every command buffer id, the queue id and the fence id resolve (and, while reading, every buffer has baked info); the resolved handles are those of the live resources |
| Replay.WrappedVulkan.constructor | renderdoc/driver/vulkan/wrappers/vk_queue_funcs.cpp:128-334 | a replay in the READING or EXECUTING state with the given counters, partial replay data, baked infos and live resources, before any submission: no recorded starts, events, driver calls or barriers |
| Replay.WrappedVulkan.ApplyBarriersFor | renderdoc/driver/vulkan/wrappers/vk_queue_funcs.cpp:196-200 | the barrier lists of the given command buffers are applied in order |
| Replay.WrappedVulkan.AttachBuffer | renderdoc/driver/vulkan/wrappers/vk_queue_funcs.cpp:218-244 | one buffer: its start event is the current root event, its children are renumbered from the current counters, its start event is pushed to cmdBufferSubmits and the counters move past its events and draws |
| Replay.WrappedVulkan.AttachAll | renderdoc/driver/vulkan/wrappers/vk_queue_funcs.cpp:218-244 | the READING loop leaves the state and trees that Attach lays out, and m_Events gains the trees' events in order |
| Replay.WrappedVulkan.AddSubmissionEvents | renderdoc/driver/vulkan/wrappers/vk_queue_funcs.cpp:216-248 | the counters move past the submission (Span events, DrawSum drawcalls), the layout starts after the submission's own event, and every cmdBufferSubmits list stays increasing and bounded |
| Replay.WrappedVulkan.ReadingBranch | renderdoc/driver/vulkan/wrappers/vk_queue_funcs.cpp:192-252 | READING submits the recorded buffers once, applies each buffer's barriers via its live id, and lays the buffers out on the timeline as AddSubmissionEvents states |
| Replay.WrappedVulkan.AdvanceCounters | renderdoc/driver/vulkan/wrappers/vk_queue_funcs.cpp:255-267 | EXECUTING moves the counters by exactly what READING added for the same submission |
| Replay.WrappedVulkan.ExecutingBranch | renderdoc/driver/vulkan/wrappers/vk_queue_funcs.cpp:253-329 | EXECUTING advances the counters as READING did, then skips, trims or fully submits as ReplayEffect describes |
| Replay.WrappedVulkan.ReplayForTarget | renderdoc/driver/vulkan/wrappers/vk_queue_funcs.cpp:269-328 | target at the submission's start: nothing is submitted; target inside it: the trimmed submission as PartialEffect states; otherwise the whole submission with every buffer's barriers |
| Replay.WrappedVulkan.ReplayPartial | renderdoc/driver/vulkan/wrappers/vk_queue_funcs.cpp:277-317 | a partial replay looks each kept buffer's id up again: the first kept id with no live resource (the empty id included) is an UnknownResource error that submits nothing; otherwise it submits the trimmed handles and applies the barriers of exactly the trimmed ids; an empty trim is an EmptyPartialSubmission error and submits nothing |
| Replay.WrappedVulkan.SerialiseQueueWaitIdle | renderdoc/driver/vulkan/wrappers/vk_queue_funcs.cpp:646-657 | a replay state waits on the live queue of the decoded id; an unknown id is UnknownResource, a bad chunk MalformedChunk, and a capture state makes no driver call |
| Replay.WrappedVulkan.WaitIdleIfWaited | renderdoc/driver/vulkan/wrappers/vk_queue_funcs.cpp:178-181 | the replay waits for the queue to go idle iff the application waited on semaphores, and the driver log becomes AfterWait of the old one |
| Replay.AfterWait | renderdoc/driver/vulkan/wrappers/vk_queue_funcs.cpp:178-181 | the driver log after the semaphore wait: one QueueWaitIdle on the queue exactly when the submission waited on semaphores |
| Replay.WrappedVulkan.SerialiseQueueSubmit | renderdoc/driver/vulkan/wrappers/vk_queue_funcs.cpp:128-334 | a chunk that does not decode is MalformedChunk and one that does not resolve is its UnknownResource error, both changing nothing; otherwise the result is what Replayed states for the decoded and resolved submission |
| Replay.WrappedVulkan.ReplayResolved | renderdoc/driver/vulkan/wrappers/vk_queue_funcs.cpp:178-329 | in both states the counters move by Span(eventCounts) and DrawSum(drawCounts), after a wait for idle iff the application waited on semaphores; READING returns one renumbered tree list per buffer laid out as Attach says, appends their events, submits the recorded buffers once and applies every buffer's barriers; EXECUTING returns no trees, leaves the timeline alone and submits as ReplayEffect says |
| Replay.WrappedVulkan.ReplayReading | renderdoc/driver/vulkan/wrappers/vk_queue_funcs.cpp:178-252 | the READING branch after the wait for idle: one submit of the recorded buffers, their barriers in order, the layout Attach gives and the trees' events appended to m_Events |
| Replay.WrappedVulkan.ReplayExecuting | renderdoc/driver/vulkan/wrappers/vk_queue_funcs.cpp:178-329 | the EXECUTING branch after the wait for idle: the counters move as READING's would and the driver gets what ReplayEffect says |
| Bookkeeping.DescRefsMember | renderdoc/driver/vulkan/wrappers/vk_queue_funcs.cpp:443-452 | an id is bound to the listed descriptor sets iff one of them has it bound |
| Bookkeeping.SubRefsMember | renderdoc/driver/vulkan/wrappers/vk_queue_funcs.cpp:473-476 | an id is referenced by the listed secondaries iff one of their baked recordings references it |
| Bookkeeping.AddRefsCount | renderdoc/driver/vulkan/wrappers/vk_queue_funcs.cpp:479-494 | AddRef on a list raises each record's count by the number of times it occurs in the list |
| Bookkeeping.AddRefsAppend | renderdoc/driver/vulkan/wrappers/vk_queue_funcs.cpp:479-494 | AddRef on a + b is AddRef on a, then on b |
| Bookkeeping.EffectContents | renderdoc/driver/vulkan/wrappers/vk_queue_funcs.cpp:443-494 | a command buffer adds to refdIDs exactly its descriptor sets' bound resources and what it or its secondaries reference, and AddRefs exactly the records it appends |
| Bookkeeping.EffectFrameRefs | renderdoc/driver/vulkan/wrappers/vk_queue_funcs.cpp:443-485 | in the captured frame a command buffer marks as frame referenced its descriptor sets, all it adds to refdIDs, itself, its secondaries, the queue and a non-null fence |
| Bookkeeping.FirstInFrame | renderdoc/driver/vulkan/wrappers/vk_queue_funcs.cpp:426-440 | the first command buffer that observed WRITING_CAPFRAME: none before it did, and it did |
| Bookkeeping.SameCapframe | renderdoc/driver/vulkan/wrappers/vk_queue_funcs.cpp:400-440 | with one observed state, capframe ends set iff the state is WRITING_CAPFRAME and there is a command buffer |
| Bookkeeping.RunCapframe | renderdoc/driver/vulkan/wrappers/vk_queue_funcs.cpp:426-440 | capframe ends set iff it started set or some command buffer from CapStart on is in the frame |
| Bookkeeping.CapframeIffObserved | renderdoc/driver/vulkan/wrappers/vk_queue_funcs.cpp:426-440 | capframe ends set iff it was set or some command buffer observed WRITING_CAPFRAME; once set it stays set |
| Bookkeeping.RunDirty | renderdoc/driver/vulkan/wrappers/vk_queue_funcs.cpp:424-437 | a resource ends dirty iff it was or a buffer that observed a non-frame state dirtied it, and pending-dirty iff it was or a buffer that observed the frame dirtied it |
| Bookkeeping.RunRecords | renderdoc/driver/vulkan/wrappers/vk_queue_funcs.cpp:487-492 | from the first in-frame buffer on, each buffer appends its baked record then its secondaries' to m_CmdBufferRecords, in order; earlier buffers append nothing |
| Bookkeeping.RunRefd | renderdoc/driver/vulkan/wrappers/vk_queue_funcs.cpp:443-476 | refdIDs gains exactly the references of the buffers from the first in-frame one on |
| Bookkeeping.RunFrameRefs | renderdoc/driver/vulkan/wrappers/vk_queue_funcs.cpp:443-485 | the frame references gained are exactly those of the buffers from the first in-frame one on |
| Bookkeeping.RunRefCount | renderdoc/driver/vulkan/wrappers/vk_queue_funcs.cpp:479-494 | each baked record gains one reference per time it is appended to m_CmdBufferRecords, and no other record gains one |
| Bookkeeping.QueueAndFenceReferenced | renderdoc/driver/vulkan/wrappers/vk_queue_funcs.cpp:482-485 | when some buffer is in the frame the queue and a non-null fence end frame referenced; when none is, no frame reference is added |
| Bookkeeping.RunClears | renderdoc/driver/vulkan/wrappers/vk_queue_funcs.cpp:497 | every submitted command buffer record's own dirtied set ends empty; every other record's set is unchanged |
| Bookkeeping.RunBarriers | renderdoc/driver/vulkan/wrappers/vk_queue_funcs.cpp:411-414 | the submitted buffers' image barrier lists are applied in submission order, whatever the capture state |
| Bookkeeping.Step | renderdoc/driver/vulkan/wrappers/vk_queue_funcs.cpp:405-498 | one command buffer moves exactly its dirtied resources into dirty or pending-dirty, only ever adds dirty, pending-dirty, frame-referenced and referenced ids, keeps capframe once set, and empties its own record's dirtied set |
| Bookkeeping.Run | renderdoc/driver/vulkan/wrappers/vk_queue_funcs.cpp:403-499 | a list of command buffers only ever adds dirty, pending-dirty, frame-referenced and referenced ids, keeps capframe once set, and applies one barrier list per buffer |
| Bookkeeping.RunAppend | renderdoc/driver/vulkan/wrappers/vk_queue_funcs.cpp:403-405 | running two lists of command buffers one after the other equals running their concatenation |
| MapFlush.DiffRange | renderdoc/driver/vulkan/wrappers/vk_queue_funcs.cpp:527-532 | without a snapshot the range is the whole mapping [0, mapSize) |
| MapFlush.FlushOne | renderdoc/driver/vulkan/wrappers/vk_queue_funcs.cpp:509-562 | flushing one mapping never adds or removes a mapping state |
| MapFlush.FlushAll | renderdoc/driver/vulkan/wrappers/vk_queue_funcs.cpp:509-563 | the flush loop never adds or removes a mapping state |
| MapFlush.FlushWithoutSnapshot | renderdoc/driver/vulkan/wrappers/vk_queue_funcs.cpp:531-545 | a mapping with no snapshot flushes the range at mapOffset of size mapSize |
| MapFlush.FlushOneTwice | renderdoc/driver/vulkan/wrappers/vk_queue_funcs.cpp:553-556 | a second flush right after the first finds nothing to flush, given a diff finder that reports no range for equal buffers |
| MapFlush.FlushAllCalls | renderdoc/driver/vulkan/wrappers/vk_queue_funcs.cpp:509-563 | the loop only appends flush calls, each for a listed, referenced, potentially persistent mapping, and leaves every other mapping as it was |
| MapFlush.FlushAllPending | renderdoc/driver/vulkan/wrappers/vk_queue_funcs.cpp:551 | a memory object ends pending-dirty iff it already was or the loop made a flush call for it |
| Capture.AccountingInFrame | renderdoc/driver/vulkan/wrappers/vk_queue_funcs.cpp:400-440 | a single-threaded vkQueueSubmit is in the captured frame iff the state is WRITING_CAPFRAME and some submit has command buffers |
| Capture.Unwrapped | renderdoc/driver/vulkan/wrappers/vk_queue_funcs.cpp:375-396 | the driver receives one batch per submit with that submit's own command buffer count |
| Capture.UnwrapAsWritten | renderdoc/driver/vulkan/wrappers/vk_queue_funcs.cpp:375-396 | the batches as line 378 builds them: one per submit, each with submit 0's command buffer count |
| Capture.UnwrapDropsCommandBuffers | renderdoc/driver/vulkan/wrappers/vk_queue_funcs.cpp:378-389 | with submits of 1 and 2 command buffers, the as-written batches drop command buffer 3 that the corrected batches keep |
| Capture.UnwrapAgreesIffSameCounts | renderdoc/driver/vulkan/wrappers/vk_queue_funcs.cpp:378-389 | the as-written unwrapping is right exactly when every submit has submit 0's command buffer count |
| Capture.SubmitChunksDecode | renderdoc/driver/vulkan/wrappers/vk_queue_funcs.cpp:565-573 | each QUEUE_SUBMIT chunk recorded reads back as its own submit, with the call's queue and fence and its command buffers' baked records |
| Capture.WrappedVulkan.constructor | renderdoc/driver/vulkan/wrappers/vk_queue_funcs.cpp:354-585 | a capture with the given records and maps, before any submission: nothing dirty, referenced or recorded |
| Capture.WrappedVulkan.MarkDirtyAll | renderdoc/driver/vulkan/wrappers/vk_queue_funcs.cpp:435-436 | every resource in the set is marked dirty |
| Capture.WrappedVulkan.MarkPendingDirtyAll | renderdoc/driver/vulkan/wrappers/vk_queue_funcs.cpp:428-429 | every resource in the set is marked pending-dirty |
| Capture.WrappedVulkan.MarkDescSets | renderdoc/driver/vulkan/wrappers/vk_queue_funcs.cpp:443-461 | each bound descriptor set and every resource bound to it are frame referenced, and those resources join refdIDs |
| Capture.WrappedVulkan.AddSubcmd | renderdoc/driver/vulkan/wrappers/vk_queue_funcs.cpp:475-479 | one secondary: its references are frame referenced and join refdIDs, it is frame referenced, and its baked record gains a reference |
| Capture.WrappedVulkan.AddSubcmds | renderdoc/driver/vulkan/wrappers/vk_queue_funcs.cpp:473-480 | the secondaries in order: frame references, refdIDs and reference counts as AddSubcmd says for each |
| Capture.WrappedVulkan.PushRecords | renderdoc/driver/vulkan/wrappers/vk_queue_funcs.cpp:487-492 | m_CmdBufferRecords gains the baked record, then each secondary's |
| Capture.WrappedVulkan.MarkReferences | renderdoc/driver/vulkan/wrappers/vk_queue_funcs.cpp:443-485 | the frame references and refdIDs of one in-frame command buffer are what FrameRefdBy and RefdBy say |
| Capture.WrappedVulkan.ReferenceInFrame | renderdoc/driver/vulkan/wrappers/vk_queue_funcs.cpp:443-494 | an in-frame command buffer's references, records and reference counts change as its Effect says |
| Capture.WrappedVulkan.MarkBaked | renderdoc/driver/vulkan/wrappers/vk_queue_funcs.cpp:411-438 | the buffer's barriers are applied and its dirtied resources are pending-dirty in the captured frame, dirty otherwise |
| Capture.WrappedVulkan.SubmitBuffer | renderdoc/driver/vulkan/wrappers/vk_queue_funcs.cpp:405-498 | one command buffer changes the bookkeeping exactly as Step says |
| Capture.WrappedVulkan.SubmitBatch | renderdoc/driver/vulkan/wrappers/vk_queue_funcs.cpp:405-498 | the command buffers of one submit change the bookkeeping exactly as Run says |
| Capture.WrappedVulkan.SubmitNext | renderdoc/driver/vulkan/wrappers/vk_queue_funcs.cpp:405-498 | after the first i command buffers, the next one extends the Run by one step |
| Capture.WrappedVulkan.SubmitAll | renderdoc/driver/vulkan/wrappers/vk_queue_funcs.cpp:400-499 | both loops, from an empty refdIDs and capframe false, change the bookkeeping exactly as Accounting says |
| Capture.WrappedVulkan.FlushMap | renderdoc/driver/vulkan/wrappers/vk_queue_funcs.cpp:511-562 | one coherent mapping is flushed as FlushOne says; the flush wrapper's own effects are left out |
| Capture.WrappedVulkan.FlushCoherentMaps | renderdoc/driver/vulkan/wrappers/vk_queue_funcs.cpp:503-563 | the coherent mappings are flushed in order as FlushAll says |
| Capture.WrappedVulkan.SerialiseSubmits | renderdoc/driver/vulkan/wrappers/vk_queue_funcs.cpp:565-580 | one QUEUE_SUBMIT chunk per submit is added to the frame record, and every wait and signal semaphore is frame referenced |
| Capture.WrappedVulkan.QueueSubmit | renderdoc/driver/vulkan/wrappers/vk_queue_funcs.cpp:354-585 | the driver gets each submit's command buffers; the bookkeeping is Accounting; in the captured frame the maps are flushed and chunks and semaphore references recorded, otherwise neither |
| Capture.WrappedVulkan.RecordFrame | renderdoc/driver/vulkan/wrappers/vk_queue_funcs.cpp:501-581 | the in-frame tail of the call: the map flush, then the chunks and semaphore references |
| Capture.WrappedVulkan.QueueWaitIdle | renderdoc/driver/vulkan/wrappers/vk_queue_funcs.cpp:659-675 | the driver waits; in the captured frame a QUEUE_WAIT_IDLE chunk naming the queue is recorded and the queue is frame referenced, otherwise nothing is recorded |
| Queues.WrappedVulkan.constructor | renderdoc/driver/vulkan/wrappers/vk_queue_funcs.cpp:64-126 | a device with no wrapped queue yet |
| Queues.WrappedVulkan.Wrap | renderdoc/driver/vulkan/wrappers/vk_queue_funcs.cpp:82 | the handle's wrapper gets a fresh id, never the empty one and no other wrapper's |
| Queues.WrappedVulkan.TakeQueueIfFamily | renderdoc/driver/vulkan/wrappers/vk_queue_funcs.cpp:116-123 | m_Queue becomes the queue and queued commands are submitted iff the family matches m_QueueFamilyIdx |
| Queues.WrappedVulkan.AddQueueRecord | renderdoc/driver/vulkan/wrappers/vk_queue_funcs.cpp:84-109 | the queue's record holds one GET_DEVICE_QUEUE chunk that reads back as the call's arguments, and it becomes a pooled child of the instance |
| Queues.WrappedVulkan.WrapNewQueue | renderdoc/driver/vulkan/wrappers/vk_queue_funcs.cpp:80-124 | a new handle is wrapped with a fresh id, then recorded under capture or made live otherwise, then taken as m_Queue if its family matches |
| Queues.WrappedVulkan.GetDeviceQueue | renderdoc/driver/vulkan/wrappers/vk_queue_funcs.cpp:64-126 | a handle wrapped before is returned as its wrapper and nothing else changes; a new handle gets a fresh id with a record and chunk under capture, a live resource otherwise |
| Queues.WrappedVulkan.SerialiseGetDeviceQueue | renderdoc/driver/vulkan/wrappers/vk_queue_funcs.cpp:27-61 | READING wraps the driver's queue as the live resource of the captured queue id and takes it as m_Queue if the family matches; a bad chunk or unknown device is an error that changes nothing; other states only decode |

## Left out

- Locks and threads: `m_ImageLayoutsLock`, `m_CapTransitionLock`, `m_CmdBufferRecordsLock` and `m_CoherentMapsLock` are not modelled. The effect of another thread changing the capture state between command buffers is covered by the per-buffer observed state in `Bookkeeping.Run`. `Capture.WrappedVulkan.QueueSubmit` itself assumes a state that does not change during the call.
- The `#if 0` block of `vkQueueBindSparse` (lines 587-644) is not compiled and is not modelled.
- Sparse-map references (lines 454-459, 463-464) are not modelled. The records they read (`sparseInfo`, `cmdInfo->sparse`) are not part of this model.
- The read/write kind of each frame reference (`eFrameRef_Read` and the descriptor binding's kind) is dropped; a frame reference is modelled as membership of a set.
- Temporary memory for the unwrapped submits (lines 360-373) and the address arithmetic over it are not modelled; `Capture.Unwrapped` gives the batches the driver receives. Semaphores are not unwrapped in the model, and the driver-call log does not carry them.
- Driver return values (`VkResult`) are not modelled; `vkQueueSubmit` and `vkQueueWaitIdle` return nothing, and no driver call fails.
- `AddEvent`, `AddDrawcall` and the drawcall stack (lines 202-214, 222-231, 251) are not part of this model. `m_Events` receives only the events `RefreshIDs` appends. The submission's own drawcall node is not built; the READING branch returns the renumbered children of each command buffer.
- Image layout tracking: `ApplyBarriers` is not part of this model; the barrier lists applied are recorded, in order, in a ghost log.
- `FindDiffRange`'s body is not part of this model. It is a function parameter; only `MapFlush.FlushOneTwice` assumes anything of it (no range for equal buffers).
- `memcpy` into the snapshot and the aligned allocation of `refData` (lines 553-556) are modelled as the snapshot becoming the mapped bytes.
- `GetLiveHandle` and `GetLiveID` on an id with no live resource are not part of this model's resource manager; such an id is an `UnknownResource` error that changes nothing, with one exception: `GetLiveID` of the empty id (lines 198, 325) is the empty id (`Replay.LiveIDs`), so a null command buffer applies the barriers of the default `BakedCmdBufferInfo` entry instead of failing. This includes the keep branch of the partial trim (line 297), which looks each kept id up again with no test for the empty id: a kept null command buffer is an `UnknownResource` error there (`Replay.PartialKeepsEmptyId`).
- `vkGetDeviceQueue` calls the driver with the device's real handle and records its resource id. Both are parameters of `Queues.WrappedVulkan.GetDeviceQueue`; the model does not check that they name the same device.
- `m_RootEventID`, `m_RootDrawcallID`, event counts and event ids are `uint32_t` in the source. They are unbounded here; 32-bit wrap-around of the counters is not modelled.
- `RDCDEBUG`, `RDCLOG` and the debug string of the chunk are not modelled.
- The empty partial trim at line 307 is an assertion followed by `&trimmedCmds[0]` on an empty vector. The model makes it an `EmptyPartialSubmission` error that submits nothing (`Replay.WrappedVulkan.ReplayPartial`). `Timeline.TrimConsistentCursor` shows the trim is never empty when the base event starts a buffer of the submission.
- Replay.ResolveSubmit: while reading, a command buffer id with no `BakedCmdBufferInfo` is an `UnknownResource` error before any driver call. The source submits (line 194) and applies barriers (line 198) first, then dereferences the null `draw` of a default-constructed entry (line 234).
- Capture.WrappedVulkan.FlushMap: line 547 calls the layer's own `vkFlushMappedMemoryRanges` wrapper (the wrapped device from `GetDev()`, the wrapped memory, no `ObjDisp`), not the driver. The wrapper's body is not part of this model: whatever it records in the frame, marks as referenced or dirty, and any `mapFlushed` it sets before line 548 clears it, are left out; the model logs the call with its range and nothing else. So `Capture.WrappedVulkan.QueueSubmit`'s `frameChunks` and `frameRefs` ensures cover only what this file adds, not what the flush wrapper adds.
- Capture.WrappedVulkan.QueueSubmit: the driver receives the corrected batches (`Capture.Unwrapped`), not the as-written ones (see Findings).

## Findings

| source | as written | input that shows it | evidently intended | confidence | as-written member | corrected member |
|---|---|---|---|---|---|---|
| renderdoc/driver/vulkan/wrappers/vk_queue_funcs.cpp:378 | `unwrappedSubmits[i] = *pSubmits;` copies submit 0 into every slot, so every batch keeps submit 0's `commandBufferCount` (and semaphore counts) while its arrays are filled from submit i | two submits with command buffers [1] and [2, 3]: the driver receives [1] and [2], and command buffer 3 is never executed; with the counts the other way round, the loop at line 387 reads past the end of submit 1's array | `unwrappedSubmits[i] = pSubmits[i];`, so each batch carries its own submit's counts | high; not executed | Capture.UnwrapAsWritten, Capture.UnwrapDropsCommandBuffers | Capture.Unwrapped, Capture.UnwrapAgreesIffSameCounts |
