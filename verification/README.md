# Two verified cores: the skyline packer and the capture synchroniser

This project models two independent parts of the repository in Dafny and proves what they are for.

**The skyline rectangle packer** (`Skyline.dfy`, `SkylinePacker.dfy`, `PackRects.dfy`), in its 16-bit build. `Skyline` is
the geometry: a skyline as a sequence of points, the height function it denotes, highest rows, wasted areas, and the
effect of a splice. `SkylinePacker.Context` is the packer with its linked nodes, spliced in place between an active and a
free list; ghost sequences name the two lists. `PackRects` packs an array of rectangles: sort, place, sort back, flag.

**The depth/color capture synchroniser** over its queues, captures, images and allocator.

- `Pairing.dfy` is the algorithm alone: timestamps, the window tests, the greedy drain of two pending sequences, arrivals
  one at a time, and the log of what was merged, published alone or dropped. `Matching.dfy` proves the drain optimal.
- `CaptureStore.dfy` holds captures and images behind counted handles, with ghost multisets of the handles that exist.
- `QueueProtocol.dfy` has the queue as a bounded FIFO with its critical sections as functions (`QueueModel`) and every
  interleaving of producers, consumers and stoppers over them (`QueueProtocol`). `RingQueue.dfy` is the ring array, each
  method proved to act on the FIFO as the model says.
- `Frames.dfy` is one sensor's held sample, `CaptureSyncState.dfy` the state of the whole synchroniser as a value with what
  each kind of step keeps, and `CaptureSync.dfy` the synchroniser itself: its methods are proved to act on the pairing
  model's state as `Arrive` does, on the real rings, with every reference accounted for.
- `Allocator.dfy` is the hookable allocator with its headers and per-source counters.

A method that changes state is proved against a function of the old state, and what the source promises is proved of that
function: `AddCapture` performs `Arrive` and `Feed` a run of it, and `Matching.GreedyIsOptimal`,
`Pairing.InterleavingDoesNotMatter` and `Pairing.RunAccounts` are about every such run, from the first session's start or
from what earlier sessions have left; `Splice` performs `Raise`, and `Skyline.RaiseHeights` says what
`Raise` does to the height function; `Pack` performs a course of turns, tallest first, and `PackRects.PackingIsDetermined`
says that sizes and skyline determine it.

Where a property of the code holds only under a condition, the condition is stated and proved exact:

- The splice raises [x, x+w) and nothing else exactly if the span starts at its node or reaches the next one
  (`Skyline.PointUpdateIff`). Packing meets that for bottom-left, and for best fit with alignment 1 or any width that is a
  multiple of the alignment (`SkylinePacker.Context.PackRectangle`). Best fit with a rounded width can miss it:
  `SkylinePacker.RoundedWidthRaisesMore` is a run of three rectangles that does.
- Best fit finds a first tail for its right-aligned candidates exactly if the rounded width is at most the target's
  (`SkylinePacker.Context.SomeTailIff`); its callers are asked for that and no more.
- A source counter equals the live blocks exactly if none of that source's allocations was refused
  (`Allocator.CounterIsExactIff`): the increment is not undone when the hook returns NULL.
- No pop succeeds without a capture, as the assertion after `Condition_Wait` wants, exactly if nobody pops, or one thread
  does and no enable overtakes a disable (`QueueProtocol.NeverEmptyHandedIff`).
- A request to the allocator's hook has room for header and buffer exactly if their sum does not wrap around
  (`Allocator.RequestHasRoomIff`).

Code and documentation disagree in one place, and the model follows the code: `allocator_set_allocator` is documented to
fail when a callback is already set, but replaces it. `DEC_REF_VAR` is assumed to yield the decremented value, as its
documentation says; the definition that `extern/azure_c_shared/src/pal/linux/refcount_os.h:68` gives for C11 is not the
one of a build in C 99.

## Model

| member | source | states |
|---|---|---|
| `Skyline.MaxHeightBounds` | extern/imgui/src/imstb_rectpack.h:285-333 | The value `MaxHeight` is an upper bound of the skyline over the whole span (with MaxHeightLeast: the least one), so it is the row a rectangle over that span can rest on. |
| `Skyline.MaxHeightLeast` | extern/imgui/src/imstb_rectpack.h:285-333 | No smaller row clears the span. |
| `Skyline.WastedAreaRaise` | extern/imgui/src/imstb_rectpack.h:309-319 | Charging the columns seen so far when the row rises gives the area under the higher row: the incremental sum equals the area definition. |
| `Skyline.SlideLeft` | extern/imgui/src/imstb_rectpack.h:354-376 | Sliding a span left to the start of its segment never rests it higher. |
| `Skyline.NodeStartsSuffice` | extern/imgui/src/imstb_rectpack.h:354-376 | If a node start is lowest and leftmost among node starts, it is so among all integer positions. |
| `Skyline.LeftmostLowestIsUnique` | extern/imgui/src/imstb_rectpack.h:354-378 | The lowest and then leftmost position is unique: the bottom-left rule determines the answer. |
| `Skyline.RaiseIsSkyline` | extern/imgui/src/imstb_rectpack.h:451-486 | The splice yields a list strictly increasing in x from 0 to the sentinel at the target width. |
| `Skyline.RaiseHeights` | extern/imgui/src/imstb_rectpack.h:451-486 | The splice is a point update of the height function: the new top exactly on the raised stretch and no change at any other column. The stretch is [x, x+w) except when the span starts and ends strictly inside one segment, where it reaches to the end of that segment. |
| `Skyline.PointUpdateIff` | extern/imgui/src/imstb_rectpack.h:451-486 | The splice raises the columns [x, x+w) and no other if and only if the span starts at its node or reaches the next node. |
| `Skyline.RaisedStretchWasLow` | extern/imgui/src/imstb_rectpack.h:474-486 | With the span rounded up, every column of the raised stretch was at or below the chosen row, so the wider stretch of that exception covers nothing else up. |
| `Skyline.PlaceKeepsPacking` | extern/imgui/src/imstb_rectpack.h:436-486 | Putting a box on its lowest row keeps the packing invariant: all boxes inside the target, pairwise disjoint, and none above the skyline. |
| `Skyline.EmptyTarget` | extern/imgui/src/imstb_rectpack.h:271-281 | The initial two-node list is a skyline with nothing placed. |
| `Skyline.RaiseRises` | extern/imgui/src/imstb_rectpack.h:436-486 | Packing lowers the skyline nowhere. |
| `Skyline.SkylineLength` | extern/imgui/src/imstb_rectpack.h:182-182 | A skyline has at most width + 1 nodes: at most one start per column and the sentinel. |
| `SkylinePacker.AlignedWidthRoundsUp` | extern/imgui/src/imstb_rectpack.h:347-350 | The rounded width is a multiple of the alignment and, with alignment 1, the width itself. |
| `SkylinePacker.Context.SetupAllowOutOfMem` | extern/imgui/src/imstb_rectpack.h:232-250 | Alignment 1 when running out of nodes is allowed; otherwise the least alignment with num_nodes * align >= width. Context stays valid. |
| `SkylinePacker.Context.SetupHeuristic` | extern/imgui/src/imstb_rectpack.h:220-230 | Selects bottom-left or best fit and keeps the context valid. |
| `SkylinePacker.Context.LinkInOrder` | extern/imgui/src/imstb_rectpack.h:259-261 | The caller's nodes form one list in array order. |
| `SkylinePacker.Context.InitTarget` | extern/imgui/src/imstb_rectpack.h:252-282 | For every width from 0 on: nothing placed, all num_nodes + 2 nodes in the two lists, a flat skyline, the alignment as computed. From width 1 on the whole invariant holds; a target of width 0 gets the alignment 0, with which no width can be rounded. |
| `SkylinePacker.Context.FreeNodeLeft` | extern/imgui/src/imstb_rectpack.h:182-182 | With num_nodes >= width the free list is never empty, in any valid state. |
| `SkylinePacker.Context.FindMinY` | extern/imgui/src/imstb_rectpack.h:285-333 | Returns exactly the highest skyline over [x0, x0+width) and, as the waste, the running sum `Waste`, in every case; that sum is the exact wasted area whenever the first node starts at x0 or lies above 0. |
| `SkylinePacker.WasteIsExact` | extern/imgui/src/imstb_rectpack.h:291-333 | The running sum with its corrections is the area between skyline and row whenever the span starts at a node or in a segment above the ground. |
| `SkylinePacker.GroundWaste` | extern/imgui/src/imstb_rectpack.h:291-333 | For a span that starts inside a segment on the ground: the reported waste is exact if the span ends in that segment too; otherwise it exceeds the area by the charge for the columns of that segment left of the span, which is at most the row times the smaller of the two overhangs: left of the span within the segment, and right of the segment within the span. |
| `SkylinePacker.Context.ScanStarts` | extern/imgui/src/imstb_rectpack.h:352-376 | Left-aligned scan: the lowest node start with room, leftmost on ties for bottom-left; for best fit the candidate under the height that is least by row, then waste, then x. |
| `SkylinePacker.Context.ScanEnds` | extern/imgui/src/imstb_rectpack.h:397-428 | Right-aligned scan of best fit: of all spans that start at a node, and all that end at one strictly under the height, the result is the least by row, then waste, then x; or there is none and nothing fits. |
| `SkylinePacker.BestOfIsUnique` | extern/imgui/src/imstb_rectpack.h:397-428 | That choice determines the position. |
| `SkylinePacker.BestOfMeans` | extern/imgui/src/imstb_rectpack.h:354-428 | The preference in plain terms: against every span that starts at a node and fits under the height, and every one that ends at a node strictly under it, the chosen one has the lower row, then the smaller waste, then the smaller x; with no room to spare it starts at a node. |
| `SkylinePacker.BestIsLowest` | extern/imgui/src/imstb_rectpack.h:397-428 | The chosen candidate rests on a lowest row over all integer positions, although the comparison is among candidates at nodes only and their waste can be inexact. |
| `SkylinePacker.Context.SomeTailIff` | extern/imgui/src/imstb_rectpack.h:400-403 | The walk to the first admissible tail finds a node if and only if the rounded width is at most the target's; otherwise it passes the sentinel, whose next is null. So what FindBestPos asks of its caller for best fit is exact. |
| `SkylinePacker.Context.FindBestPos` | extern/imgui/src/imstb_rectpack.h:341-434 | The returned y is the minimum over every integer x of the highest skyline over the span; for bottom-left x is the leftmost such, for best fit the least candidate by row, waste and x. Found or not, the later height test decides whether anything fits at all. |
| `SkylinePacker.Context.Splice` | extern/imgui/src/imstb_rectpack.h:451-486 | The in-place list surgery: both lists stay acyclic, disjoint and complete, and the active list denotes `Raise` of the old one. |
| `SkylinePacker.Context.FreeCovered` | extern/imgui/src/imstb_rectpack.h:472-480 | Moves exactly the nodes whose whole segment ends within the rectangle to the free list. |
| `SkylinePacker.Context.PackRectangle` | extern/imgui/src/imstb_rectpack.h:436-513 | Places where the heuristic chooses and updates lists and placed boxes, or fails and changes nothing; it fails exactly if no node is free or no integer position admits the rectangle. For bottom-left, and for best fit whenever the width needs no rounding, the skyline rises to the top of the box on [x, x+w) and nowhere else. The checks of lines 488-510 hold, as the invariant. |
| `SkylinePacker.FlushUpdate` | extern/imgui/src/imstb_rectpack.h:436-486 | Why: a position flush with a node, at its left end or with an unrounded width, raises exactly the columns of the box. |
| `SkylinePacker.RoundedWidthRaisesMore` | extern/imgui/src/imstb_rectpack.h:397-486 | A run in which best fit with alignment 4 raises more: after 7x2 and 2x4 on a target of 11x9 with three nodes, the box 5x4 lands on columns 1 to 5 and column 6 rises with it. |
| `SkylinePacker.NothingFitsLater` | extern/imgui/src/imstb_rectpack.h:446-449 | What fits nowhere now fits nowhere on any later skyline. |
| `PackRects.HeightCompareIsLexicographic` | extern/imgui/src/imstb_rectpack.h:515-524 | The comparator is the order "taller first, then wider first", antisymmetric, zero only on equal sizes. |
| `PackRects.CompareIsPreorder` | extern/imgui/src/imstb_rectpack.h:515-531 | Both comparators are total and transitive, as a library sort demands. |
| `PackRects.SortExists` | extern/imgui/src/imstb_rectpack.h:551-552 | A sorted permutation always exists: the contract assumed of the library sort can be met. |
| `PackRects.SortingBackRestores` | extern/imgui/src/imstb_rectpack.h:568-569 | Sorting by the saved positions brings every rectangle back to its original index. |
| `PackRects.PlaceAll` | extern/imgui/src/imstb_rectpack.h:554-566 | The placing loop, for any order of the array: each rectangle is placed, empty at (0,0), or marked; what is marked while nodes suffice still fits nowhere at the end. |
| `PackRects.SetFlags` | extern/imgui/src/imstb_rectpack.h:571-576 | The flag is false exactly for the MAXVAL marker; the result is true exactly if all flags are. |
| `PackRects.Pack` | extern/imgui/src/imstb_rectpack.h:539-580 | Original order, id, w and h restored; was_packed exactly for empty and placed rectangles, and no placement equals the marker; result true iff all are packed; with num_nodes >= width every rejected rectangle fits nowhere. The rectangles had their turns tallest first, of equal heights widest first, each exactly once: each one's outcome is decided on the skyline its predecessors have left, where it is rejected exactly if no node is free or it fits nowhere and otherwise put where the heuristic says; the new boxes of the context are those of the turns, in that order. |
| `PackRects.DecidedWithout` | extern/imgui/src/imstb_rectpack.h:551-566 | A rectangle that comes strictly first by height and width is decided before the other one has had its turn. |
| `PackRects.BoxesComeInTurn` | extern/imgui/src/imstb_rectpack.h:551-566 | The new boxes are in non-increasing height, and for equal heights in non-increasing width. |
| `PackRects.SkyIsBoxes` | extern/imgui/src/imstb_rectpack.h:554-566 | For bottom-left, and whenever no width needs rounding, the skyline of a turn has at each column the top of the last box put over it, or the height it had at first: a turn sees the boxes before it and nothing else. With `Tried`, each new bottom-left box is at the leftmost of the lowest positions over the boxes before it. |
| `PackRects.TriedIsUnique` | extern/imgui/src/imstb_rectpack.h:554-566 | Skyline and size determine a turn: where the rectangle goes, whether it is rejected, and the next skyline. |
| `PackRects.PackingIsDetermined` | extern/imgui/src/imstb_rectpack.h:551-566 | Two calls with the same sizes in any order put down the same boxes over the same skylines, however the library sort treats equal sizes. |
| `PackRects.DeliveredIsApart` | extern/imgui/src/imstb_rectpack.h:539-580 | For any call on any context: placed rectangles lie inside the target, are pairwise disjoint, and are disjoint from everything placed by earlier calls. |
| `Pairing.WindowIs` | src/capturesync/capturesync.c:321-327 | The clamped quarter-period window written out for both signs of the delay. |
| `Pairing.JudgePairsExactlyMatches` | src/capturesync/capturesync.c:317-364 | The two window tests let a pair through exactly if begin <= ts <= begin + fps_period. |
| `Pairing.DroppedForGood` | src/capturesync/capturesync.c:317-364 | A sample dropped by a test matches nothing at or after the sample that condemned it. |
| `Pairing.Exchange` | src/capturesync/capturesync.c:317-375 | Two crossing matches can be uncrossed. |
| `Pairing.DrainAccounts` | src/capturesync/capturesync.c:315-389 | Each sensor's samples are those in the log followed by those still pending: exactly once, in order. |
| `Pairing.DrainIsQuiescent` | src/capturesync/capturesync.c:315-389 | After the loop at most one sensor has anything pending. |
| `Pairing.MergesMatch` | src/capturesync/capturesync.c:366-382 | Every merged pair respects the window. |
| `Pairing.DrainEarly` | src/capturesync/capturesync.c:315-389 | Draining before more samples arrive gives the same log and rest as draining afterwards. |
| `Pairing.OnlineIsBatch` | src/capturesync/capturesync.c:263-389 | From any state in which one sensor has nothing pending, for every run of arrivals without overflow: the log, the pending samples and the clean-timestamp state are those of one two-pointer merge of what was pending and the two whole sequences. |
| `Pairing.InterleavingDoesNotMatter` | src/capturesync/capturesync.c:263-389 | Two interleavings of the same two sequences, from the same such state, publish the same events in the same order and end in the same pending state. |
| `Pairing.RunAccounts` | src/capturesync/capturesync.c:263-389 | In every run from such a state, overflow included, each accepted sample is in exactly one place, each sensor's samples leave in arrival order, at most one sensor has anything pending, and the refused depth samples are exactly the stale prefix. |
| `Pairing.ArriveIs` | src/capturesync/capturesync.c:267-312 | Of one arrival: while no depth timestamp is trusted, a depth sample is refused if and only if it is at eleven periods or more, and then only counted; the first other one ends the wait. What is not refused is taken, as its sensor's newest, unless the queues are disabled and the sensor has something pending. |
| `Pairing.RunTrustsFrom` | src/capturesync/capturesync.c:267-282 | Of a run that starts out waiting: the depth samples before the first one below eleven periods are refused and counted, and that one and all after it are taken. |
| `Pairing.RunMatches` | src/capturesync/capturesync.c:293-389 | In every run, overflow included, merged samples respect the window. |
| `Pairing.OutputsConcat` | src/capturesync/capturesync.c:91-95 | What a log sends to the output queue is sent piece by piece. |
| `Matching.NoMatchingIsLarger` | src/capturesync/capturesync.c:315-389 | No one-to-one matching within the window is larger than the number of merges. |
| `Matching.DrainIsMatching` | src/capturesync/capturesync.c:315-389 | The merges form such a matching. |
| `Matching.GreedyIsOptimal` | src/capturesync/capturesync.c:315-389 | With non-decreasing timestamps per sensor and no overflow the number of merged captures is the maximum size of a matching of what was pending and what arrives, for either sign of the delay and every interleaving, in a first session or a later one. |
| `Matching.NoLostPartner` | src/capturesync/capturesync.c:317-364 | Under the same conditions a dropped sample matches no pending and no future sample of the other sensor. |
| `CaptureStore.Store.ImageDecRef` | src/image/image.c:331-347 | One reference less; at zero the image is destroyed and its handle dies. |
| `CaptureStore.Store.ImageIncRef` | src/image/image.c:349-355 | One reference more; an invalid handle is ignored. |
| `CaptureStore.Store.ImageCreateFromBuffer` | src/image/image.c:53-107 | Rejects exactly the bad arguments; otherwise the caller owns the only reference. |
| `CaptureStore.Store.CaptureCreate` | src/allocator/allocator.c:325-340 | A new capture with one reference, the caller's, and no images; every other capture is as it was. |
| `CaptureStore.Store.CaptureIncRef` | src/allocator/allocator.c:317-323 | The holder count of the capture grows by one, nothing else changes; an invalid handle is ignored. |
| `CaptureStore.Store.CaptureDecRef` | src/allocator/allocator.c:293-315 | One holder less; at zero every image slot gives up its reference and the capture is destroyed. An invalid handle is ignored. All counts stay equal to the number of holders. |
| `CaptureStore.Store.ReleaseSlots` | src/allocator/allocator.c:304-310 | The loop over the slots releases each slot's reference once. |
| `CaptureStore.Store.CaptureGetImage` | src/allocator/allocator.c:342-387 | Hands out the image in the slot together with a new reference; nothing for an empty slot or an invalid handle. |
| `CaptureStore.Store.CaptureSetImage` | src/allocator/allocator.c:395-450 | The slot drops its old image and references the new one; every other slot shows what it showed. An invalid capture handle changes nothing. |
| `CaptureStore.HoldersAfterSet` | src/allocator/allocator.c:401-411 | Writing a slot takes one holder from the old image and gives one to the new, also when they are the same image. |
| `CaptureStore.NothingSurvives` | src/allocator/allocator.c:293-315 | Without outside holders no capture and no image is alive, and each one ever created was destroyed exactly once. |
| `RingQueue.WindowIsModular` | src/queue/queue.c:44-46 | The k-th oldest stored capture lies k places after the read location modulo the depth. |
| `RingQueue.TestsAreExact` | src/queue/queue.c:45-46 | Equal locations mean empty, one short of the read location means full, exactly. |
| `RingQueue.Ring.Create` | src/queue/queue.c:48-84 | Fails exactly for depth 0 or above 10000; otherwise an empty disabled queue of that capacity. |
| `RingQueue.Ring.PopInternal` | src/queue/queue.c:86-97 | Removes the oldest capture, if there is one. |
| `RingQueue.Ring.PushInternal` | src/queue/queue.c:183-189 | Appends as newest. |
| `RingQueue.Ring.PushWDropped` | src/queue/queue.c:191-233 | Refines the bounded FIFO of capacity depth - 1: a disabled queue takes nothing; otherwise the capture becomes the newest, and a full queue gives up precisely its oldest, to the caller or released; references move accordingly. |
| `RingQueue.Ring.PopEnter` | src/queue/queue.c:99-181 | queue_pop up to its return or to Condition_Wait: FAILED on a disabled queue; SUCCEEDED with the oldest capture if there is one; on an empty queue TIMEOUT for timeout 0 and a wait for any other. References move accordingly. |
| `RingQueue.Ring.PopContinue` | src/queue/queue.c:138-181 | queue_pop after Condition_Wait: FAILED if the queue is disabled by then; TIMEOUT, with nothing taken, if the wait timed out; SUCCEEDED with the oldest capture, if there is one, if it was posted. |
| `RingQueue.Ring.SetEnabled` | src/queue/queue.c:257-265 | The queue is enabled and no longer stopped; contents kept. |
| `RingQueue.Ring.Disable` | src/queue/queue.c:267-290 | Returns with no blocked pop, an empty ring and every reference the ring held given up. |
| `RingQueue.Ring.Stop` | src/queue/queue.c:292-302 | Marks the queue stopped and disables it. |
| `QueueModel.PushIs` | src/queue/queue.c:191-233 | Accepted, evicted, released and counted as dropped, for each case of enabled, full and wanted. |
| `QueueModel.PopStartIs` | src/queue/queue.c:99-181 | The model's pop up to its wait, branch by branch; a pop that returns resets the dropped count. |
| `QueueModel.PopResumeIs` | src/queue/queue.c:138-181 | The model's pop after its wait, branch by branch. |
| `QueueModel.PushAllKeepsNewest` | src/queue/queue.c:204-225 | A run of pushes leaves the newest captures, in order. |
| `QueueProtocol.RunKeepsInv` | src/queue/queue.c:99-302 | In every interleaving of producers, consumers and stoppers: queue_pop_blocked counts the waiters, the ring fits, and every reference ever taken is in the ring, handed out or released. |
| `QueueProtocol.DisableReturnsClean` | src/queue/queue.c:267-290 | In every interleaving queue_disable returns only with no blocked pop, an empty ring, and all references handed out or released. |
| `QueueProtocol.ClosedUntilEnabled` | src/queue/queue.c:108-180 | From then until the next enable no push stores or references anything and every pop fails without a capture. |
| `QueueProtocol.WokenPopHasCapture` | src/queue/queue.c:139-146 | The assertion after the wait holds in every run with a single consumer and no enable during a disable. |
| `QueueProtocol.TwoConsumersBreakIt` | src/queue/queue.c:139-146 | It fails in a run in which two threads pop and every enable comes while no disable is under way. |
| `QueueProtocol.EnableDuringDisableBreaksIt` | src/queue/queue.c:139-146 | It fails in a run in which a single thread pops and an enable comes during a disable. |
| `QueueProtocol.NeverEmptyHandedIff` | src/queue/queue.c:139-146 | The exact condition: no run under the discipline has a pop that succeeds without a capture if and only if nobody pops, or one thread does and no enable overtakes a disable. |
| `Frames.FrameInfo.Load` | src/capturesync/capturesync.c:293-298 | The frame caches the image it references and that image's timestamp. |
| `Frames.FrameInfo.Refill` | src/capturesync/capturesync.c:104-136 | The oldest ring capture takes the held place; a disabled queue, an empty ring or a missing image empties the frame, with all references returned. |
| `Frames.FrameInfo.Replace` | src/capturesync/capturesync.c:150-164 | The held capture and image are released and the new capture takes their place. |
| `Frames.FrameInfo.LetGo` | src/capturesync/capturesync.c:548-572 | Stop releases what is held and marks the timestamp. |
| `CaptureSyncState.PublishKeeps` | src/capturesync/capturesync.c:91-95 | Publishing keeps the whole-system books and, in synchronised-only mode, that every output capture is synchronised. |
| `CaptureSyncState.DropKeeps` | src/capturesync/capturesync.c:98-136 | Dropping the held sample keeps them. |
| `CaptureSyncState.MergeKeeps` | src/capturesync/capturesync.c:169-178 | Linking a matching color image into the depth capture keeps them and makes the capture synchronised. |
| `CaptureSyncState.AddKeeps` | src/capturesync/capturesync.c:293-306 | Taking a sample in keeps them. |
| `CaptureSyncState.PushOutKeeps` | src/capturesync/capturesync.c:302-312 | Overflow of a sensor's ring keeps them, with the evicted capture in the caller's hands. |
| `CaptureSyncState.ReplaceKeeps` | src/capturesync/capturesync.c:139-165 | Replacing the held sample by the evicted one keeps them. |
| `CaptureSyncState.HaltKeeps` | src/capturesync/capturesync.c:204-207 | Emptying the three queues keeps them and leaves the held samples. |
| `CaptureSyncState.TakeKeeps` | src/capturesync/capturesync.c:586-590 | Handing the oldest output to the client keeps them; in synchronised-only mode it carries matching color and IR images. |
| `CaptureSyncState.TurnSettles` | src/capturesync/capturesync.c:315-389 | A turn of the loop leaves the outcome of the whole drain unchanged and strictly reduces the pending samples. |
| `CaptureSync.Context.constructor` | src/capturesync/capturesync.c:399-460 | A new synchroniser holds nothing and owns no reference. |
| `CaptureSync.FifteenFit` | include/zsainternal/queue.h:29-32 | Fifteen samples fit behind the held one; the seventeenth pending sample pushes out the oldest. |
| `CaptureSync.Context.SixteenPending` | src/capturesync/capturesync.c:302-312 | A sensor never has more than sixteen samples pending. |
| `CaptureSync.Context.DropSample` | src/capturesync/capturesync.c:72-137 | The sensor's oldest sample leaves, published unless only synchronised captures are wanted; the next one is held; the wait result says whether there is one. |
| `CaptureSync.Context.ReplaceSample` | src/capturesync/capturesync.c:139-165 | The held sample is published or discarded and the evicted one takes its place. |
| `CaptureSync.Context.MergeCaptures` | src/capturesync/capturesync.c:169-178 | The held color image ends up in the held depth capture with exactly the two samples' timestamps; synchronised captures stay so and references balance. |
| `CaptureSync.Context.TurnOnce` | src/capturesync/capturesync.c:317-382 | One loop turn is one `Turn` of the pairing model; the output queue receives exactly what the event publishes, and a merged capture carries the two timestamps that the event names. |
| `CaptureSync.Context.DrainSamples` | src/capturesync/capturesync.c:315-389 | The loop terminates, has the effect of `Settle`, and leaves at most one sensor with anything pending. |
| `CaptureSync.Context.Enqueue` | src/capturesync/capturesync.c:302-312 | A sensor with something pending takes the capture as the model's `Accept` says, overflow included. |
| `CaptureSync.Context.AddCapture` | src/capturesync/capturesync.c:180-397 | In synchronising mode the call is one `Arrive` of the pairing model, on the concrete rings, and the output queue ends with the newest seven of what was there and what the new events publish; each merged capture that is still alive carries color and IR images within the window. While waiting for a clean timestamp exactly the depth samples at eleven periods or more are dropped, counted, and change nothing else; the first one below ends the wait and is taken. Otherwise the capture is pushed as it is, or nothing changes; a capture error stops the queues. An invalid handle changes nothing. Timestamps change only in the color slots of pending depth captures. In all cases every count equals the existing references. |
| `CaptureSync.Context.Feed` | src/capturesync/capturesync.c:180-397 | A whole sequence of calls does what `Run` says, so the theorems about runs hold of the synchroniser: its log is that of the run, its output the newest seven of what the run publishes, and each capture merged in the run that is still alive carries images within the window. |
| `CaptureSync.Context.Start` | src/capturesync/capturesync.c:486-525 | Succeeds exactly for a known rate; sets the period to 200000, 66666 or 33333 microseconds for 5, 15 or 30 frames per second and its quarter accordingly, delay and mode, enables the queues and waits for a clean depth timestamp, in a stopped or a running synchroniser. A failed start changes the mode and the wait alone. The promise of synchronised captures begins with an empty output. |
| `CaptureSync.Context.Stop` | src/capturesync/capturesync.c:527-574 | Nothing is pending or queued afterwards and only the clients own references. |
| `CaptureSync.Context.GetCapture` | src/capturesync/capturesync.c:576-592 | The consumer waits exactly if the output is enabled and empty and the timeout is not 0. Otherwise it gets FAILED if the output is disabled, TIMEOUT if it is empty, and the oldest output with its reference if there is one; if synchronised captures only were asked for with both sensors on, and the output was empty then, that carries color and IR images within the window. |
| `CaptureSync.Context.ResumeGetCapture` | src/capturesync/capturesync.c:576-592 | After the wait: FAILED if the output has been disabled, TIMEOUT with the output untouched if the wait timed out, and otherwise the oldest output, as above. |
| `CaptureSync.Context.ClientReleases` | src/allocator/allocator.c:293-315 | A client may give a handle back at any time; the books stay exact. |
| `CaptureSync.Context.ClientReleasesImage` | src/image/image.c:331-347 | The same for an image handle. |
| `CaptureSync.Context.ClientCreates` | src/allocator/allocator.c:325-340 | A client may make a capture at any time; it owns the one reference, the capture is pending nowhere, and the books stay exact. |
| `CaptureSync.Context.ClientRetains` | src/allocator/allocator.c:317-323 | A client may take a further reference to a capture; an invalid handle is ignored. |
| `CaptureSync.Context.ClientCreatesImage` | src/image/image.c:53-107 | A client may make an image and owns the one reference; bad arguments give none. |
| `CaptureSync.Context.ClientRetainsImage` | src/image/image.c:349-355 | A client may take a further reference to an image. |
| `CaptureSync.Context.ClientGetsImage` | src/allocator/allocator.c:342-387 | A client may ask for an image of a capture, also of one inside the synchroniser, and gets a reference of its own. |
| `CaptureSync.Context.ClientSetsImage` | src/allocator/allocator.c:395-450 | A client may set an image of a capture, unless the synchroniser goes by that slot: the timestamp slot of a pending sample, or what makes a capture of the output a synchronised one. |
| `CaptureSync.Context.DeliverColor` | src/color/uvc_camerareader.cpp:1198-1268 | A reader's whole frame: it makes image and capture, hands the capture over and gives up both references; the call is one `Arrive` of the pairing model with the image's timestamp, or a capture error if no image could be made, and the reader is left with nothing. |
| `CaptureSync.Context.NothingIsLeaked` | src/capturesync/capturesync.c:527-574 | After a stop and the release of the clients' handles no capture and no image survives, and each one ever created, before or after the synchroniser, was destroyed exactly once. |
| `Allocator.PairedOneMore` | src/allocator/allocator.c:188-195 | The log property is inductive: allocations ask the hook in force, releases undo an allocation as it was made. |
| `Allocator.Allocator.constructor` | src/allocator/allocator.c:58-65 | The default hooks are in force at first. |
| `Allocator.CallsUseLastSet` | src/allocator/allocator.c:188-257 | Each allocation asks the hook of the last setting before it, and each release uses the free hook of the last setting before the allocation it undoes; without a setting, the defaults. |
| `Allocator.DefaultsUntilSet` | src/allocator/allocator.c:58-65 | As long as no hooks have been set every call uses the defaults. |
| `Allocator.Allocator.HooksAreLastSet` | src/allocator/allocator.c:130-144 | The hooks in force are those of the last setting, or the defaults. |
| `Allocator.CounterIsExactIff` | src/allocator/allocator.c:182-203 | A source's counter equals its live blocks if and only if no allocation of that source was refused by the hook, as the increment is never undone. |
| `Allocator.CountersAddUp` | src/allocator/allocator.c:289-290 | The counters add up to the live blocks plus the refused allocations. |
| `Allocator.Allocator.SetAllocator` | src/allocator/allocator.c:130-144 | Both hooks or neither; neither restores the defaults; earlier blocks keep their free function. |
| `Allocator.Allocator.Alloc` | src/allocator/allocator.c:146-213 | Refuses bad sources and sizes without effect; otherwise asks the hook in force for size plus header, in the arithmetic of size_t, and remembers free function and context in force. |
| `Allocator.RequestHasRoomIff` | src/allocator/allocator.c:153-154 | The block that is asked for has room for header and buffer if and only if their sum does not wrap around. |
| `Allocator.RequestIsSmallIff` | src/allocator/allocator.c:153-154 | The sizes that pass the test: up to 2147483615, and the 32 largest, whose sum with the header wraps around. |
| `Allocator.Allocator.Free` | src/allocator/allocator.c:215-257 | Calls the free function and context that were in force when the block was allocated, whatever hooks were set since. |
| `Allocator.Allocator.TestForLeaks` | src/allocator/allocator.c:259-291 | 0 while sessions are open; else the live blocks plus the refused allocations. |

## Left out

- SkylinePacker.Context.PackRectangle: best fit requires the rounded width to be at most the target's (SomeTailIff); wasted areas are unbounded integers where the code uses int. Where a span starts inside a segment on the ground, the compared waste is off by what GroundWaste says, as in the code.
- SkylinePacker.Context.InitTarget: at least one node, as the alignment divides by their number; a rectangle is packed into a target of width at least 1, and node sufficiency for alignments above 1 is not claimed.
- PackRects.Sort: the library sort is known by its contract only, as any sorted permutation.
- The large-rectangle build of the packer (`STBRP_LARGE_RECTS`) and its debug-only list checks as running code; the checks hold as part of `Valid()`.
- CaptureStore.Store.ImageCreateFromBuffer: the device timestamp is given at creation and never changed later; pixel geometry, stride and metadata are not kept.
- CaptureStore.Store.ImageDecRef: the destroy callback is recorded as the destruction of the image, in order, not as a call.
- CaptureStore.Store.CaptureSetImage: get and set are single steps; the getter's second read of the slot after unlocking (`src/allocator/allocator.c:354-355`) is not modelled, and the caller of set owns a reference to the image.
- Failures of memory allocation and of lock creation outside `allocator_alloc`, among them `image_create_empty_image`, which releases a reference from zero when it fails (`src/image/image.c:140-144`).
- QueueProtocol.WokenPopHasCapture: a condition post wakes at most one waiter and nothing else does; spurious wake-ups are not modelled.
- CaptureSync.Context.AddCapture: a call is one step; the three queue stops of a capture error, which the code makes outside the lock, are part of it. The capture, if the handle is valid, is the caller's and not pending for the other sensor. Timestamps stay below 2^63, and the counters of dropped captures within int.
- CaptureSync.Context.GetCapture: a blocking get is two steps, up to the wait and after it; the interleavings in between are those of QueueProtocol.
- CaptureSync.Context.Start: is one step, although the code does not take the lock for it.
- CaptureSync.Context.ClientSetsImage: clients leave alone the slots that the synchroniser goes by; it keeps the timestamp of a held sample and would not notice the change.
- The block that clears `running` inside the loop (`src/capturesync/capturesync.c:384-388`): every branch before it continues, so it is never reached.
- Allocator.Allocator.Alloc: the hook answers with a block that is not in use and sets the context; what is written into a block without room, after a size that wraps, is not modelled.
- Device I/O, the SDK layer, logging, global initialisation and handle tables: a handle is a valid object or not.
