# Minde: a verified model of its state machines, geometry and encoders

Minde is a Wayland compositor. This project models, in Dafny, the parts of it
that decide something by themselves, and proves what they promise:

- **Session lock and repaint loop** (`Desk`, `DeskLock`, `DeskLoop`,
  `DeskEffects`, `Compositor`). `Desk` says what every event does to a value: lock requests,
  takeovers, deaths, renders, page flips, watchdogs, pause and resume, hotplug
  and DPMS. The class `Compositor` does the same to its fields in place and is
  proved to agree with it event by event, and so to keep the barrier itself.
  `DeskLock` proves the lock barrier and lock ownership over all runs,
  `DeskLoop` that nothing dirty is stranded, and `DeskEffects` what events
  achieve, said of the states alone: who gets the lock, what is repainted, and
  that nothing dirty becomes clean but by a render.
- **Pointer confinement** (`Geometry`, `PointerConstraints`): ordered regions,
  and clipping a motion by a sorted sweep of intervals.
- **PNG writer** (`Bytes`, `Crc32`, `Adler32`, `Zlib`, `Png`): each checksum
  against its definition, the whole against a reader.
- **Event journal and fan-out** (`EventJournal`, `EventFanout`,
  `EventSubscribers`, `EventPublisher`): the retained window, delivery to slow
  readers, and event sources that only one thread may touch.
- **Output configuration and layout** (`OutputConfig`, `OutputLayout`,
  `AutoLayout`): validation, application with rollback, packing, clamping.
- **Smaller machines** (`SyntheticInput`, `SyntheticKeys`,
  `AutomationResults`, `ForeignToplevel`).

Methods with loops and classes with fields follow the source where it works in
place; each is proved against a relation or function stated beside it, and the
lemmas are about that. Whatever the code cannot decide itself (what the kernel,
the renderer, the backend, a socket or another client answers) is a parameter
that every theorem quantifies over.

The methods of `Compositor.Compositor` that are not in the table below are its
event handlers, each proved to do what the matching `Desk` function does: the lock's
in `src/handlers/session_lock.rs:88-306`, heads in `src/udev.rs:753-1159`, the
repaint loop in `src/udev.rs:1199-1407` and `src/udev.rs:1804-1958`, power in
`src/udev.rs:1462-1535` under `src/state.rs:2470-2479`, and the seat in
`src/udev.rs:469-518`.

`dafny verify dfyconfig.toml` checks everything (Dafny 4.11).

## Where the code and its documentation disagree

The model follows the code in each case.

- `src/udev.rs:1290-1294` says that a vblank nobody accounted for leaves the
  repaint loop alone, but `src/udev.rs:1286-1287` has already set it to idle.
  `DeskLoop.FinishLoopsIffAccounted` says exactly when that does harm,
  `DeskLoop.StrandedRun` is a run in which it does, and
  `DeskLoop.CalmRunsAreOrderly` says what keeps it from happening. The comment
  at `src/udev.rs:1271-1274` overlooks that the watchdog's own render may find
  nothing to draw.
- `src/handlers/pointer_constraints.rs:276-278` promises a full protocol unit
  to the exclusive edges. The inset is measured on the faster axis only:
  `PointerConstraints.FullUnitAtFarEdge`, `PointerConstraints.ConfinedKeepsUnitIff`
  and, with an input, `PointerConstraints.FullUnitCanBeLost`.
- `src/state.rs:1778-1779` promises key press/release pairs. A focus change
  drops the releases still queued (`src/state.rs:1553-1567`):
  `SyntheticKeys.CutTextIsReleasedIff`, `SyntheticKeys.LostFocusLeavesShiftDown`.
- `src/udev.rs:925-928` says that a mode whose CRTC could not be initialised
  is taken off the output again. On a head that had none before it stays:
  `OutputConfig.OutputManagement.ConnectHead`.
- The PNG writer takes any buffer, but a data chunk of 2^32 bytes or more does
  not fit its length field. `Png.RoundTripIffItFits` gives the condition on
  width and height, `Png.LargeImageIsLost` a size that fails.
- `src/state.rs:2718-2720` says that packing should close holes and overlaps.
  Heads the user placed can make that impossible: `AutoLayout.RepackSettlesIff`,
  `AutoLayout.HoleStays`.

## Model

| member | source | states |
|---|---|---|
| DeskLock.LockBarrier | src/handlers/session_lock.rs:277-306 | in every run, when an acknowledgement is sent the seat is not paused, the lock is confirmed, every head that is enabled and powered on drives a CRTC, and each shows a blank or a lock frame of the current generation with only such frames queued behind it; while the lock is confirmed no desktop frame is shown or queued on any head, through takeover, hotplug, output configuration, DPMS, pause and resume |
| DeskLock.ReceiptsAreDeliveries | src/handlers/session_lock.rs:50-64 | in every run an output has a receipt exactly if, since the last reset, a completion delivered a frame of the current generation on its head while a lock was pending |
| DeskLock.CheckAcknowledgesIff | src/handlers/session_lock.rs:280-299 | in every run a check for a live pending owner acknowledges exactly if the seat is running and every lit head has had such a delivery |
| DeskLock.StepReceipts | src/handlers/session_lock.rs:264-275 | an event voids all receipts or adds exactly what it delivers |
| DeskLock.LockOwnership | src/handlers/session_lock.rs:188-201 | in every run the session is unlocked only by a request of its live owner, which was itself acknowledged; the death of an object never unlocks; while the owner lives no other object takes the session; a pending or confirmed lock is a locked session. Who does take it, and that its owner can release it, is `DeskEffects.LockGrantedIff` and `DeskEffects.UnlockedIff` |
| DeskLock.RunKeeps | src/handlers/session_lock.rs:42-66 | the lock invariant (who holds it, what each CRTC shows and has queued, which receipts are held) holds in every state of every run |
| DeskLock.StepKeeps | src/handlers/session_lock.rs:88-145 | each event, whatever the renderer, kernel and clients answer, keeps the lock invariant |
| DeskLock.StepBarrier | src/handlers/session_lock.rs:277-306 | the barrier for one event from any state that meets the invariant |
| DeskLock.ConnectKeeps | src/handlers/output_management.rs:470-476 | a new head voids the receipts of a pending lock before it can be rendered: a new generation, none presented; the holder and the invariant stay |
| DeskLock.DisconnectKeeps | src/handlers/output_management.rs:480-484 | a head that goes voids the receipts of a pending lock, one that was not there changes no lock; the holder and the invariant stay |
| DeskLock.SwitchKeeps | src/state.rs:2470-2479 | a power switch that is not refused voids the receipts of a pending lock, a refused one changes nothing; the holder and the invariant stay |
| DeskLock.ReadyIsCovered | src/handlers/session_lock.rs:62-64 | once every output that must answer has a receipt, no head can show or have queued anything but blank or current lock frames |
| DeskLock.ConfirmedHidesDesktop | src/handlers/session_lock.rs:280-306 | a confirmed lock means no desktop frame on any driven screen or in any queue |
| DeskLock.TimelineAcknowledged | src/handlers/session_lock.rs:56-60 | a receipt may be recorded for a frame of the current generation only because everything queued behind such a frame is of that generation too |
| DeskLock.TimelineReset | src/handlers/session_lock.rs:51-54 | a new generation voids every receipt: what was rendered before cannot count, however late its flip completes |
| DeskLock.SurfaceRendered | src/udev.rs:1876-1958 | a frame rendered while locked is stamped with the generation it was queued under, and keeps the order of what its CRTC shows, also when it replaces a frame not yet submitted |
| DeskLock.SurfaceSubmitted | src/udev.rs:1205-1243 | the completion that is reported is of the frame now shown, and what is left queued is still in order |
| DeskLock.OnlyConfirmAcknowledges | src/handlers/session_lock.rs:280-299 | an acknowledgement is sent only by the check after dispatch, to a live pending owner, with every receipt in hand |
| DeskLock.LoopEventsKeepHolder | src/handlers/session_lock.rs:88-115 | rendering, flips, timers, hotplug, DPMS, pause and resume never change who holds the lock or how it stands |
| DeskEffects.LockGrantedIff | src/handlers/session_lock.rs:88-145 | a request takes the session if and only if nobody alive holds it and it does not come from the client whose lock was abandoned; then it is locked and pending under a higher generation with no receipt, and every driven head is to be repainted; otherwise only the object itself is new |
| DeskEffects.UnlockedIff | src/handlers/session_lock.rs:147-201 | a live object unlocks a locked session if and only if it owns it and was acknowledged; then nobody holds it and every driven head is to be repainted; otherwise nothing changes |
| DeskEffects.CheckedIff | src/handlers/session_lock.rs:280-306 | a check acknowledges and confirms a live pending owner if and only if the seat runs and every enabled powered head has a receipt; a dead one stops waiting and stays locked; otherwise nothing changes |
| DeskEffects.LockedRun | src/handlers/session_lock.rs:88-201 | a concrete run from the start: a client locks while a desktop frame is in flight, the lock scene is rendered and shown, the lock is acknowledged and confirmed, and its owner unlocks |
| DeskEffects.SwitchedAsAsked | src/state.rs:2470-2479 | a power switch is refused exactly for a head that is not enabled or a CRTC that cannot be initialised; otherwise the head ends with the power asked for, drives a CRTC exactly if it is on, and no other head loses anything |
| DeskEffects.EnabledAsAsked | src/udev.rs:896-960 | a head is enabled, on and driving a CRTC exactly if its CRTC can be initialised; one that was enabled is left alone |
| DeskEffects.DisabledAsAsked | src/udev.rs:1063-1087 | a disabled head is kept, drives nothing, and its power state is forgotten |
| DeskEffects.ConnectedIsNew | src/udev.rs:753-884 | a connector that appears is a new output, enabled exactly if its CRTC can be initialised |
| DeskEffects.DisconnectedIsGone | src/udev.rs:1149-1159 | a connector that goes takes its head, and no other, with it |
| Compositor.Compositor.Dispatch | src/handlers/session_lock.rs:277-306 | whatever event the compositor handles on its fields: the lock invariant holds again; an acknowledgement goes out only for a confirmed lock on a running seat with every lit head driven and blank or locked, also in what is queued; while the lock is confirmed no desktop frame is shown or queued; and an event the loop can account for keeps the loop invariant, strands no head, and cleans a dirty one only by rendering it |
| Compositor.Compositor.ParkAll | src/udev.rs:484-494 | parks every loop in place, whatever the order: all stored timers are cancelled and no other |
| DeskLoop.NothingStranded | src/udev.rs:144-183 | in every run whose completions find the loop waiting for them: between events a dirty head on a running seat has its idle callback queued or its stored timer registered, no two heads store the same timer, and no registered timer is forgotten. That a dirty head becomes clean only by a render is `DeskEffects.CleanedInRun` |
| DeskLoop.CalmRunsAreOrderly | src/udev.rs:1270-1294 | in every run where each render over a frame in flight brings another, and completions are of queued frames and submit the next, every completion finds the loop ready for it, so nothing is ever stranded |
| DeskLoop.CalmIsOrderly | src/udev.rs:1281-1294 | the same for one event: while the newest frame is in flight its loop waits for it, or is parked |
| DeskLoop.StepFlight | src/udev.rs:1804-1872 | every such event keeps that |
| DeskLoop.FinishLoopsIffAccounted | src/udev.rs:1281-1298 | a completion keeps the loop invariant if and only if it is stale or the loop is waiting for a vblank or idle: in any other state the code overwrites what the loop was doing, against its own comment |
| DeskLoop.FinishStrandsIff | src/udev.rs:1281-1298 | a completion leaves its head dirty, idle and running, with nothing to render it, if and only if nobody accounted for it, the seat is running and the head was dirty |
| DeskLoop.StepStrandsNone | src/udev.rs:1332-1407 | an event that is accounted for strands no head |
| DeskLoop.StrandedRun | src/udev.rs:1270-1294 | a concrete run from the start, by a forced render or by the watchdog alone: a render without damage during a flip, a scene change, the flip's vblank, the forgotten timer; it ends with a dirty idle head and nothing queued or registered that would ever render it |
| DeskLoop.StaleLoops | src/udev.rs:1274-1277 | the late completion of an abandoned flip changes neither the loop state nor any timer, and what the loop waits for is still in flight |
| DeskLoop.WaitEndsWithNewest | src/udev.rs:1236-1243 | a completion ends a vblank wait exactly when no newer flip is queued behind it |
| DeskLoop.StepLoops | src/udev.rs:1332-1407 | every event other than an unexpected completion keeps the loop invariant |
| DeskLoop.RunLoops | src/udev.rs:144-163 | the loop invariant holds in every state of every orderly run |
| DeskLoop.RenderOne | src/udev.rs:1804-1872 | after a render the head waits for exactly one registered timer, of the right kind, and no other head's timer is touched |
| DeskLoop.PauseLoops | src/udev.rs:484-494 | a pause leaves no timer of any head registered |
| DeskLoop.ResumeLoops | src/udev.rs:497-517 | a resume restarts the loop of every head, including what became dirty while paused |
| DeskLoop.IdleLoops | src/udev.rs:1362-1371 | an idle callback renders a head that is still scheduled and is harmless for one that no longer is |
| DeskLoop.TimerLoops | src/udev.rs:1377-1407 | a watchdog or rate-limit timer that fires is the one its head has stored, and its head goes on |
| DeskLoop.DisableLoops | src/udev.rs:1063-1087 | a disabled head takes its timer with it |
| DeskEffects.CleanedInRun | src/udev.rs:1281-1298 | in every orderly run, over any stretch in which a head keeps driving its CRTC: if it was dirty and is clean, an event in between found it due and rendered it. A change is never just forgotten |
| DeskEffects.CleanedByRender | src/udev.rs:1281-1298 | whatever the event, a head goes from dirty to clean only if it was due and was rendered, successfully, in that event |
| DeskEffects.DueIsRendered | src/udev.rs:1281-1407 | a scheduled head whose callback runs, one whose watchdog fires, a dirty one whose rate limit is over or whose awaited flip completes, each on resume, and any on demand is rendered: it waits on a new timer, and its newest frame is what the lock demands |
| DeskEffects.ResumeRenders | src/udev.rs:497-518 | a resume renders every enabled head that drives a CRTC, in whatever order they are walked |
| DeskEffects.SceneChangedDirties | src/udev.rs:1332-1373 | a scene change makes exactly the heads it concerns dirty and queues a callback for each of them at rest on a running seat |
| DeskEffects.PausedIsParked | src/udev.rs:471-496 | a pause parks every loop and leaves dirty what was dirty |
| PointerConstraints.RegionRectangles | src/handlers/pointer_constraints.rs:187-207 | a point is in the result exactly if it is in bounds and the last listed rectangle that covers it is an addition; no region means all of the bounds |
| PointerConstraints.ConstraintRegion | src/handlers/pointer_constraints.rs:175-183 | a point is in the result exactly if it is in the input region and in the constraint region |
| PointerConstraints.LastCoverOfAppended | src/handlers/pointer_constraints.rs:185-186 | later operations override earlier ones point by point |
| PointerConstraints.ClipMotion | src/handlers/pointer_constraints.rs:223-285 | the whole motion if it never leaves the union of rectangles; otherwise the first point where it leaves, moved back by one protocol unit of the faster axis but never behind the start |
| PointerConstraints.SweepStopsAtExit | src/handlers/pointer_constraints.rs:264-271 | stopping the sorted sweep at the first interval that does not touch what is covered so far finds the greatest covered fraction |
| PointerConstraints.ClippedStaysCovered | src/handlers/pointer_constraints.rs:209-210 | from a start in the closed union, no point of the clipped motion is outside it, so no hole or gap is crossed |
| PointerConstraints.ClippedIsComplete | src/handlers/pointer_constraints.rs:264-275 | a motion inside the half-open union all along is returned exactly, over any number of adjacent rectangles |
| PointerConstraints.ClippedIsUnique | src/handlers/pointer_constraints.rs:223-285 | the clipping rule determines its result |
| PointerConstraints.ClippedOnOneRectangle | src/handlers/pointer_constraints.rs:276-285 | on one rectangle a clipped motion ends inside it, exclusive edges included |
| PointerConstraints.ConfineMotion | src/handlers/pointer_constraints.rs:211-221 | the result is the motion clipped, then what is left of it horizontally, then vertically |
| PointerConstraints.ConfinedPathIsCovered | src/handlers/pointer_constraints.rs:209-221 | all three legs stay in the closed union |
| PointerConstraints.ConfinedIsComplete | src/handlers/pointer_constraints.rs:211-221 | a motion inside all along is taken as proposed |
| PointerConstraints.ConfinedIsClampOnOneRectangle | src/handlers/pointer_constraints.rs:211-221 | on one rectangle the result is inside and is the per-axis clamp of the proposal within 1/256, exactly the proposal on every axis where that is inside |
| PointerConstraints.ClippedStaysInside | src/handlers/pointer_constraints.rs:223-285 | a clipped motion that starts inside the half-open union ends inside it, whatever rectangles make it up: where only far edges meet there is a pixel to the next exit |
| PointerConstraints.ConfinedStaysInside | src/handlers/pointer_constraints.rs:211-221 | so does a confined one |
| PointerConstraints.ConfinedForever | src/handlers/pointer_constraints.rs:211-221 | any sequence of confined motions in any region stays in its half-open union, so an active confinement is never released by the motions it allows |
| PointerConstraints.ConfinedNeverEscapes | src/handlers/pointer_constraints.rs:211-221 | any sequence of confined motions stays in the closed union of the region |
| PointerConstraints.FullUnitAtFarEdge | src/handlers/pointer_constraints.rs:276-285 | in any region, a motion clipped where it reaches an exclusive right or bottom edge ends a full protocol unit inside it if and only if that axis is the faster one and the start was that far inside; the comment promises it always |
| PointerConstraints.ConfinedKeepsUnitIff | src/handlers/pointer_constraints.rs:211-221 | what the pointer gets from all three legs on one rectangle: a proposal short of an exclusive edge is a unit inside it if and only if the proposal is; one past it if and only if the first leg, computed from the inputs, ends a unit inside |
| PointerConstraints.ExitFractionIsExit | src/handlers/pointer_constraints.rs:264-271 | where a motion leaves a single rectangle, computed from the inputs |
| PointerConstraints.FullUnitCanBeLost | src/handlers/pointer_constraints.rs:276-285 | a concrete motion that ends closer to the bottom edge than the comment promises, after all three legs |
| PointerConstraints.ConstrainPointer | src/handlers/pointer_constraints.rs:78-121 | an active constraint is kept exactly if its region admits the parked pointer, and released otherwise; a kept lock holds the pointer where it is, a kept confinement confines the motion, anything else leaves it alone; a kept constraint still admits the pointer afterwards |
| PointerConstraints.ActivateIfEntered | src/handlers/pointer_constraints.rs:126-153 | an inactive constraint becomes active exactly if its region admits the pointer |
| Geometry.Intersection | src/handlers/pointer_constraints.rs:196-198 | a point is in the intersection exactly if it is in both rectangles |
| Geometry.SubtractFromAll | src/handlers/pointer_constraints.rs:201-203 | a point is in the result exactly if it is in some rectangle and not in the removed one |
| Png.RoundTripIffItFits | src/png.rs:88-124 | for every image of positive size, a reader that checks signature, chunk names and CRCs, zlib header, stored blocks and Adler-32, and takes sample size and channels from the header, recovers width, height, 8-bit RGBA and exactly the pixels if and only if n + 5 * max(1, ceil(n / 65535)) + 6 < 2^32 for n = height * (4 * width + 1) |
| Png.LargeImageIsLost | src/png.rs:59-59 | no image of 32768 by 32768 pixels survives |
| Png.PayloadLength | src/png.rs:69-86 | the length of the data chunk follows from the dimensions alone |
| Png.DecodeUndoesEncode | src/png.rs:88-124 | the reader undoes the writer whenever the dimensions leave the data chunk shorter than 2^32 bytes |
| Png.CutPayloadIsTooShort | src/png.rs:59-59 | a length that was cut to 32 bits leaves too few bytes for the image |
| Png.EncodeRgba | src/png.rs:90-124 | fails exactly for a short buffer or an empty image; otherwise writes the PNG of exactly the first width * height * 4 bytes |
| Png.AppendChunk | src/png.rs:58-66 | appends the chunk of section 3.2 of RFC 2083, its CRC over kind and payload |
| Png.ReadUndoesChunk | src/png.rs:58-66 | a reader that checks the CRC recovers kind, payload and everything behind the chunk |
| Png.UnfilterUndoesScanlines | src/png.rs:101-107 | removing the filter bytes recovers the rows |
| Zlib.ZlibStored | src/png.rs:69-86 | writes the stored-block zlib stream of the data, also when it is empty |
| Zlib.InflateUndoesStored | src/png.rs:69-86 | a zlib reader recovers any data from it |
| Zlib.ReadUndoesStored | src/png.rs:76-83 | the stored blocks alone read back as the data, whatever follows them |
| Zlib.StoredLength | src/png.rs:69-86 | the stream is longer than the data by exactly five bytes for each started 65535-byte block, at least one, and six more |
| Crc32.ComputeCrc | src/png.rs:37-43 | the table-driven loop computes the bit-by-bit reflected division by 0xEDB88320 of every input |
| Crc32.BuildTable | src/png.rs:14-32 | entry i is i shifted through the division eight times |
| Crc32.ShiftIsLinear | src/png.rs:20-26 | a division step distributes over exclusive or |
| Crc32.TableStep | src/png.rs:40-40 | eight division steps are one table entry and a shift by a byte |
| Crc32.ByteStep | src/png.rs:39-41 | feeding a byte through the table is dividing by its eight bits, low bit first |
| Crc32.CheckValue | src/png.rs:131-135 | the digits 1 to 9 have the checksum 0xCBF43926 |
| Adler32.ComputeAdler | src/png.rs:45-56 | deferring the reduction gives the per-byte sums of section 2.2 of RFC 1950 for every input |
| Adler32.SumBlock | src/png.rs:47-51 | no addition within 5552 bytes overflows 32 bits, whatever the data |
| Adler32.DeferralIsMaximal | src/png.rs:47-47 | 5552 is the greatest number of bytes for which that holds |
| Adler32.CheckValue | src/png.rs:137-141 | the letters of Wikipedia have the checksum 0x11E60398 |
| Bytes.ByteOrder | src/png.rs:59-79 | lengths and checksums are written with the most significant byte first, block lengths with the least significant first |
| EventJournal.EventJournal.Record | src/events.rs:72-91 | what is retained is always the longest suffix of everything ever recorded that fits 128 entries and 16 KiB; eviction never meets an empty journal |
| EventJournal.EventJournal.EvictFor | src/events.rs:80-85 | evicts no more than needed for the new line |
| EventJournal.EventJournal.Since | src/events.rs:93-110 | a page has a gap exactly if the cursor is in the future or a later publication was dropped; otherwise it is exactly the later publications in order |
| EventJournal.RetainedIffFits | src/events.rs:61-69 | a publication is still there exactly if everything from it on fits |
| EventJournal.WindowIsUnique | src/events.rs:72-91 | the retained window is determined by the history |
| EventJournal.DroppedIffUnfit | src/events.rs:94-94 | something after the cursor was dropped exactly if not all of it fits |
| EventJournal.PageCatchesUp | src/events.rs:127-131 | a polling client that has everything up to its cursor has everything after a gap-free page |
| EventFanout.TryFlush | src/events.rs:163-177 | writes pending bytes until none are left, the socket is full or the connection broke, and says which as `EventFanout.FlushUsesAnswers` characterises it |
| EventFanout.FlushConserves | src/events.rs:163-177 | a flush loses, repeats and reorders nothing, whatever the socket answers, and gives up only on a failed write |
| EventFanout.FlushUsesAnswers | src/events.rs:163-177 | of the kernel's answers a flush uses up a prefix: all but the last were interruptions or took bytes; it gives up if and only if the last was a failure or took nothing; it stops early with bytes left only on a full socket; and the peer got exactly what was taken in all |
| EventFanout.DeliveryUsesAnswers | src/events.rs:184-207 | the same for a delivery over its flush and its direct writes: the connection counts as broken if and only if a failed or empty write was used up |
| EventFanout.Deliver | src/events.rs:184-207 | flush, write through, keep the rest if the ceiling allows |
| EventFanout.WriteThrough | src/events.rs:187-197 | writes directly what nothing pending holds up |
| EventFanout.DeliveryConserves | src/events.rs:184-207 | a kept subscriber has, taken or pending, exactly one more line; a dropped one has taken a prefix; one that is not broken is dropped if and only if more than the ceiling would be left pending |
| EventSubscribers.SubscriberSet.PublishTo | src/events.rs:226-248 | every live subscriber is given the line once and keeps its place; whose delivery went well is still there afterwards and everyone else is disconnected; everything due is accounted for, and if bytes or sources are left for the loop a ping is outstanding |
| EventSubscribers.SubscriberSet.Retire | src/events.rs:210-217 | the removed subscriber's sources are remembered for removal |
| EventSubscribers.SubscriberSet.RegisterSubscriber | src/events.rs:347-396 | a new subscriber is owed everything from now on; none is taken past sixteen, and one whose watcher cannot be registered only spends an id |
| EventSubscribers.SubscriberSet.WatcherFired | src/events.rs:371-381 | the hung-up subscriber is removed with all its sources; a source whose subscriber is gone only removes itself |
| EventSubscribers.SubscriberSet.WriterFired | src/events.rs:274-299 | drains what the peer takes; a drained source removes itself and is forgotten; a connection that broke, which `EventFanout.FlushUsesAnswers` pins to a failed or empty write, takes its subscriber along; otherwise nobody is disconnected |
| EventSubscribers.SubscriberSet.ReadPing | src/events.rs:307-309 | between reading the ping and running its callback a publication can only add work that is announced again |
| EventSubscribers.SubscriberSet.FlushCallback | src/events.rs:309-343 | afterwards nobody has pending bytes without a writer, nobody was disconnected who needed none or could get one, and the registered sources are exactly those live subscribers own |
| EventSubscribers.RetiringKeepsAccounts | src/events.rs:210-217 | owned sources stay registered, registered ones are owned or retired, never both |
| EventSubscribers.DrainingSettlesAccounts | src/events.rs:311-313 | once the retired sources are removed, a source is registered exactly if a live subscriber owns it |
| EventSubscribers.FiredIsOwned | src/events.rs:275-278 | a source that fires for a live subscriber is the very one it owns |
| EventSubscribers.DeliveryServes | src/events.rs:184-207 | after a publication a kept subscriber has what was published since it joined, a dropped one a prefix of it |
| EventSubscribers.SurvivorsAre | src/events.rs:226-248 | after a publication a subscriber is there exactly if its own delivery went well, and each of the others was disconnected, none twice |
| EventSubscribers.NobodyStaysStuck | src/events.rs:314-340 | a wake-up leaves those who need no writer as they were, gives the others one each as far as it can be registered, and disconnects exactly the rest |
| EventSubscribers.ReadersCatchUp | src/events.rs:163-177 | a peer that takes what it is offered ends up with everything due |
| EventPublisher.Publisher.PublishLine | src/events.rs:252-264 | journal and sockets get every line in one order |
| EventPublisher.PushAgreesWithJournal | src/events.rs:22-23 | what a subscriber got or has pending is exactly what the journal lists after the cursor at which it joined |
| OutputConfig.OutputManagement.ApplyOutputConfiguration | src/handlers/output_management.rs:570-645 | all or nothing: an invalid or validation-only request changes nothing; refused anywhere, every head ends as it was (mode, location, scale, transform, shown or not, explicit mark) even if the backend fails again on the way back; accepted, each named head is as asked and the others untouched, and one stays enabled unless overridden. An enabled head ends with the advertised mode asked for; for a custom one with the nearest advertised of its size within 1 Hz, or the custom mode exactly if there is none; if it was off and no mode was asked for, with the preferred one, else the one it had |
| OutputConfig.AcceptableIff | src/handlers/output_management.rs:181-260 | a configuration is acceptable if and only if its heads are known and named once each, every enabled one asks for an advertised mode, a custom one of positive size, or has one to fall back on, scales are positive, adaptive sync is turned on only where there is any, and a head stays enabled unless overridden |
| OutputConfig.AcceptedIff | src/handlers/output_management.rs:588-608 | an application is accepted if and only if the backend accepts, for each change in turn, a request with the resolved mode and no custom one, made of the head as it was before all |
| OutputConfig.RefusalAsksBack | src/handlers/output_management.rs:610-620 | when the k-th change is the first refused, the heads up to it are asked in reverse for their former mode, place, state and adaptive sync, each once, and each ends with the adaptive sync the backend answers then |
| OutputConfig.RefusalRollsBack | src/handlers/output_management.rs:609-642 | wherever the backend refuses and whatever it answers to being asked to go back, every head is as it was, but for a mode where there was none |
| OutputConfig.RefusalRestores | src/handlers/output_management.rs:609-642 | a head with a current mode is restored in everything but adaptive sync |
| OutputConfig.ModesStay | src/handlers/output_management.rs:587-642 | no application of a configuration takes a mode away |
| OutputConfig.OutputManagement.ConnectHead | src/udev.rs:753-768 | a head that appears has its preferred mode from then on, also when its CRTC cannot be initialised |
| OutputConfig.ModeSurvivesRefusalIff | src/handlers/output_management.rs:621-626 | a refused configuration is bound to leave a named head's mode alone if and only if the head had a current mode or was not to be given one |
| OutputConfig.TriedModeStays | src/handlers/output_management.rs:621-626 | for every head without a mode that is to be given one there is a backend under which the tried mode stays |
| OutputConfig.AcceptanceConfigures | src/handlers/output_management.rs:651-669 | an accepted change leaves its head enabled or not as asked, with the resolved mode and the requested position, scale and transform, marked explicit if it was positioned |
| OutputConfig.UnnamedUntouched | src/handlers/output_management.rs:587-608 | a head that is not named is never touched, whether it goes well or not |
| OutputConfig.EnabledAsForetold | src/handlers/output_management.rs:240-259 | validation foretells which heads are enabled after an accepted configuration, whatever the backend does |
| OutputConfig.Validate | src/handlers/output_management.rs:181-260 | accepts exactly the configurations in which no change is at fault and a head stays enabled; otherwise reports the first fault |
| OutputConfig.NearestAdvertisedMode | src/handlers/output_management.rs:264-273 | the earliest of the nearest advertised modes of that size within 1 Hz, none exactly if there is none |
| OutputConfig.NearestIsNearest | src/handlers/output_management.rs:264-273 | what a custom mode resolves to is an advertised mode of its size within 1000 mHz that no other comes nearer than, or the custom mode itself exactly if none is within that |
| OutputConfig.OutputManagement.CommitHead | src/handlers/output_management.rs:651-669 | commits a change that the backend realised |
| OutputConfig.OutputManagement.Revert | src/handlers/output_management.rs:612-638 | puts back what was saved, whatever the backend did |
| OutputConfig.OutputManagement.ApplyResolved | src/handlers/output_management.rs:583-645 | heads are applied in order and taken back in reverse from the first refusal |
| OutputLayout.ClampPointToRectangles | src/state.rs:106-139 | the pointer itself if a head has it; otherwise the nearest of all points that the heads, inset at their far edges, offer, the earliest head's when several do |
| OutputLayout.ClampedIsContained | src/state.rs:99-105 | with heads of size at least 1 the result is on one of them, exclusive edges included |
| OutputLayout.ClampIsIdempotent | src/state.rs:106-139 | clamping twice is clamping once |
| OutputLayout.ClampedIsUnique | src/state.rs:106-139 | no other point would do |
| AutoLayout.OutputSpace.RepackAutoOutputs | src/state.rs:2348-2383 | a sound layout is left alone; otherwise the heads nobody placed lie edge to edge at y = 0 in their left-to-right order from the right of all placed ones, which do not move |
| AutoLayout.PackedIsDisjoint | src/state.rs:2341-2347 | packed heads overlap neither each other nor any placed head |
| AutoLayout.RepackIsIdempotent | src/state.rs:2344-2345 | packing twice is packing once |
| AutoLayout.RepackSettles | src/state.rs:2725-2743 | where nobody placed a head, a packed layout needs no packing |
| AutoLayout.RepackSettlesIff | src/state.rs:2718-2743 | with placed heads, a layout that needed packing still needs it afterwards if and only if two placed heads overlap, or the packed heads start right of x = 0 and no placed head that ends there is level with the first of them |
| AutoLayout.HoleStays | src/state.rs:2718-2724 | a layout with a hole before and after packing: one head placed by the user at (0, 1000), the next beside it at y = 0 |
| AutoLayout.RepackKeepsOrder | src/state.rs:2342-2343 | two heads nobody placed keep their left-to-right order |
| AutoLayout.SoundLayoutIsAnchored | src/state.rs:2718-2724 | in a layout left alone, touching heads lead from every head to x = 0 or to one the user placed |
| SyntheticInput.RequestsRunInOrder | src/state.rs:1514-1648 | executed actions are never interleaved: request by request in submission order a prefix of its actions, each in the focus it was pinned to; with nothing queued all of them, unless that focus was lost |
| SyntheticInput.SyntheticInput.EnqueueSynthetic | src/state.rs:1514-1545 | a request joins behind all others, pinned to the focus of that moment if asked, which may be gone when it runs; afterwards a timer is armed exactly if something is queued |
| SyntheticInput.SyntheticInput.AdvanceSyntheticInput | src/state.rs:1547-1648 | runs or gives up what is due, stops at a delay, and terminates, exactly as the stated advance of the queue does |
| SyntheticInput.DelaysAreWaitedOut | src/state.rs:1627-1647 | an advance arms a timer exactly if something is left, and only behind an action with a delay; no action with a delay is followed by another in the same advance unless no timer could be had |
| SyntheticInput.SyntheticInput.TimerFired | src/state.rs:1635-1639 | a timer takes the queue further |
| SyntheticInput.CancellingKeepsRecords | src/state.rs:1553-1567 | giving a request up removes exactly what remains of it |
| SyntheticInput.RunningKeepsRecords | src/state.rs:1570-1626 | running the head of the queue is the next step of the oldest unfinished request |
| SyntheticKeys.TypingLeavesNothingHeld | src/state.rs:1858-1928 | whatever the text and the layout, the typed list is well bracketed, leaves no key down, and is one stroke per character with exactly its modifiers held, a paste where no key types it, nothing where there is neither |
| SyntheticKeys.CutTextIsReleasedIff | src/state.rs:1553-1567 | a typed list cut short after any number of actions leaves nothing down if and only if the cut is between two strokes, or right after what is to be pasted was copied |
| SyntheticKeys.CutTapIsReleasedIff | src/state.rs:1553-1567 | a key press with modifiers cut short leaves nothing down if and only if it had not begun or was over |
| SyntheticKeys.CutTapHolds | src/state.rs:1741-1774 | and what it leaves down is exactly the outermost keys |
| SyntheticKeys.CancelledTapHoldsIff | src/state.rs:1553-1567 | a pinned key press that is given up leaves nothing down if and only if none of it had run |
| SyntheticKeys.LostFocusLeavesShiftDown | src/state.rs:1553-1567 | a concrete run: the focus is elsewhere at the second look, the releases are dropped with the rest, and Shift stays down |
| SyntheticKeys.TapIsOneStroke | src/state.rs:1741-1774 | a key inside its modifiers is one stroke with exactly those held and leaves held what was held before |
| SyntheticKeys.SendKey | src/state.rs:1717-1774 | gives up exactly if the layout lacks the key, Shift although asked for or needed for the level, or Ctrl, Alt or Super although asked for; otherwise whoever receives the actions, 8 ms apart, sees one stroke of that key with exactly the Shift, Ctrl, Alt and Super keys asked for held in that order, then Shift if only the level needs it, and nothing left down |
| SyntheticKeys.SendString | src/state.rs:1857-1928 | the list for a text: keys held 8 ms, characters apart by the delay, the last without |
| SyntheticKeys.CharsInOrder | src/state.rs:1867-1928 | the list has character by character what types each, with the delay behind all but the last |
| SyntheticKeys.CharWaits | src/state.rs:1885-1925 | a character's key is held 8 ms, its last release waits for the delay between characters, at least 30 ms when it is pasted, and nothing else waits |
| AutomationResults.AutomationRegistry.Record | src/automation_dnd.rs:141-153 | what is kept is always the last few, up to the limit, of the newest results of all requests ever recorded |
| AutomationResults.AutomationRegistry.Get | src/automation_dnd.rs:155-161 | a request's last result is found exactly as long as fewer other requests than the limit were recorded since |
| AutomationResults.KeptIffFewNewer | src/automation_dnd.rs:94-95 | a late result is as good as new: only newer requests push it out |
| AutomationResults.NewestIsLastOfEach | src/automation_dnd.rs:94-95 | there is one entry per request, its last record |
| AutomationResults.RecordingKeepsLast | src/automation_dnd.rs:141-153 | bounding after each record loses nothing that bounding at the end would keep |
| AutomationResults.AutomationRegistry.NextToken | src/automation_dnd.rs:120-128 | counts up, wraps at 2^64 and never gives out 0 |
| AutomationResults.AutomationRegistry.Allocate | src/automation_dnd.rs:131-139 | a new request is at once on record as pending |
| AutomationResults.AutomationDndSource.Complete | src/automation_dnd.rs:327-339 | a source says how its drag ended at most once, and is alive until then |
| AutomationResults.AutomationDndSource.Finish | src/automation_dnd.rs:449-457 | accepted exactly if something was dropped to be copied, unless already ended |
| ForeignToplevel.LateManagersSeeTheSame | src/handlers/foreign_toplevel.rs:318-344 | replaying what any two live handles of a window were sent gives the same, its title, app id, outputs and state as they are, however late one came |
| ForeignToplevel.ForeignToplevels.Retitle | src/handlers/foreign_toplevel.rs:148-172 | only what changed is sent and every handle shows the new names |
| ForeignToplevel.ForeignToplevels.Focus | src/handlers/foreign_toplevel.rs:186-200 | a window is activated afterwards if and only if it is the focused one, in whatever order they are walked, nothing else changes, and only handles of windows that changed hear of it |
| ForeignToplevel.ForeignToplevels.SetFullscreen | src/handlers/foreign_toplevel.rs:203-215 | every handle hears of a change, nothing is sent without one |
| ForeignToplevel.ForeignToplevels.RefreshOutputs | src/handlers/foreign_toplevel.rs:221-259 | afterwards every window is on exactly the outputs given for it and is otherwise as it was; its handles hear exactly which it came to and left, and nothing if there are none |
| ForeignToplevel.NewsOfMove | src/handlers/foreign_toplevel.rs:227-256 | a move is told if and only if the set of outputs changed: an enter exactly for each output come to, a leave exactly for each one left, and one done at the end |
| ForeignToplevel.NewsOfNames | src/handlers/foreign_toplevel.rs:148-200 | a title, an app id or a state is told if and only if it changed, with one done at the end |
| ForeignToplevel.ForeignToplevels.Created | src/handlers/foreign_toplevel.rs:119-144 | a new window gets a handle on every manager whose client can take one; every other window is as it was |
| ForeignToplevel.ForeignToplevels.ClosedWindow | src/handlers/foreign_toplevel.rs:176-182 | every handle of the window is told, and the window is forgotten |
| ForeignToplevel.ForeignToplevels.Bind | src/handlers/foreign_toplevel.rs:318-344 | a late manager gets a handle for every window, told all about it, while the handles of others hear nothing |
| ForeignToplevel.ForeignToplevels.HandleDestroyed | src/handlers/foreign_toplevel.rs:408-417 | exactly the destroyed handle is dropped; every other window and everything else of this one is as it was |
| ForeignToplevel.ForeignToplevels.ManagerStopped | src/handlers/foreign_toplevel.rs:359-372 | exactly the stopped manager is dropped |
| ForeignToplevel.MovesMirror | src/handlers/foreign_toplevel.rs:227-256 | outputs are entered only if not yet entered and left only if entered, and the client then shows exactly the new ones |
| ForeignToplevel.InitialMirrors | src/handlers/foreign_toplevel.rs:103-115 | a fresh handle shows the window after one done |
| ForeignToplevel.ClosingKeepsMirrors | src/handlers/foreign_toplevel.rs:176-182 | every handle there ever was mirrors its window, was told it closed, or was destroyed by its client |

## Left out

Environment and assumptions:

- Rounding of floating point: coordinates are reals, so the order of additions and the last bits do not matter here.
- Wrap-around of the flip counter, the lock generation, publication and request numbers, and of 32-bit coordinates: they are unbounded.
- Overflow of `width * height * 4` in the machine's word size, and writing the file.
- Completions of one CRTC arrive in the order its frames were submitted, a third queued frame replaces the one not yet submitted, and a newly initialised CRTC shows blank: taken from how the DRM library is used.
- A VT switch may lose queued flips and leave something foreign on the screen; both are parameters of the resume event.
- Timer inserts of the repaint loop succeed; a failed one leaves the loop idle until the next change. For synthetic input failure is modelled.
- Focus, grabs, IME, touch and the Guile hooks in `lock` and `unlock`, and lock surfaces beyond whether a frame was rendered while locked.
- The winit backend's side of the lock confirmation and of output configuration beyond refusing or accepting a change.
- The order in which hash maps are walked is a parameter (resume, toplevels) or does not matter (idle callbacks are a multiset).
- Which outputs a scene change concerns is a parameter of the event, and so is whether a connector has a mode to come up with.
- Power-on tries the preferred mode when the recorded one fails: one parameter says whether either worked.

Events:

- Each callback of the event loop runs as one step together with what it returns; the shared lock makes publications one step too.
- Accepting connections, socket permissions and the eviction log.
- Subscribers are values in a sequence that is replaced, where the source updates them in place.

Outputs:

- OutputConfig.RefusalRollsBack: says nothing of adaptive sync, DPMS, the identity of the `wl_output` global or the order of outputs in the space, because the code does not restore all of these.
- OutputConfig.AcceptanceConfigures: says nothing of the mode of a head that was to keep it, because the backend may change that.
- OutputConfig.ModeSurvivesRefusalIff: is about the function alone. A head without a mode, which it is about, does not come up: `src/udev.rs:921` sets one before anything can fail, `src/udev.rs:938-940` cannot clear it, and `src/winit.rs:77-83` sets it at the start.
- The list of advertised modes is fixed, although the library may extend it with a mode that was set.
- The names of transforms and the integer or fractional form of a scale: both are taken over as they are.
- AutoLayout.RepackIsIdempotent: like the lemmas beside it, asks that heads have positive width and height, as validation and connectors ensure.
- AutoLayout.OutputSpace.RepackAutoOutputs: sorting is an insertion sort, where the source calls the library's stable sort.

Smaller machines:

- Actions that enqueue further actions while they run, and what an action does beyond being executed.
- Scanning the keymap: which keys the layout has, and which key and modifiers type a character, are parameters; the modifier mask is four flags.
- Handles of clients that bound an output several times or not at all; every output is taken to be bound once.
- The byte encoding of the state array, requests from clients to windows, and the window registry apart from its keys.

Not modelled at all: rendering and screen capture, cursor themes, EDID, the
Guile layer, the command line, runtime directories, Xwayland, xdg-shell, layer
shell, selections, tablets, and gamma control.
