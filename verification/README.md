# The msgq ring buffer, verified

A model, with proofs, of the shared-memory queue in `msgq/msgq.cc`: one writer and up to 25 readers
over a ring of bytes. Messages have an 8-byte size header and are padded to 8 bytes. When a message
does not fit behind the write offset the writer leaves a header of -1, counts one more cycle and goes
on at offset 0. It never waits. It clears the validity flag of readers it is about to overrun, and
readers look at their flag around every copy and reset themselves.

`dafny verify dfyconfig.toml` checks the whole project.

## Layout

One operation at a time:

- `Machine`: fixed-width arithmetic, `ALIGN`, `PACK64`/`UNPACK64`, the int64 header as bytes.
- `Buffer`: what it means for a message or a tag to be intact at an offset, and what a store leaves alone.
- `Ring`: the segment as a value, the history it stands for (the log of all messages sent, where each
  was put, which are still intact, each slot's position in the log), the invariant, and the effect of
  every operation in terms of the log.
- `RingInvariant`: every operation keeps the invariant, for all readers at once.
- `Delivery`: what receiving, polling, draining and conflating deliver, related to the log, to the
  bytes and to each other.
- `ReceiveLoop`: the turns of the retry loop of a receive, with a measure.
- `World`, `Gaps`, `Lag`, `Updated`, `Backlog`, `Eviction`, `Membership`, `Witness`: whole runs by any
  number of handles.
- `SharedQueue`: the program's form. A `Segment` updated in place, a `Connection` per handle, the
  `SubSocket` and the drain loop, with the loops of the original; each method is proved against the
  functions of `Ring`.

Access by access:

- `Steps`: one send and any number of receives interleaved under sequential consistency. Flags,
  pointers and headers are accessed word by word, payloads byte by byte.
- `StepInvariant`, `StepProofs`: what every access of the writer or of a reader keeps.
- `StepReturns`, `StepGaps`: what a receive has seen of its flag when it returns, and when interleaved
  receives miss nothing.
- `StepTear`: an interleaving that shows the one condition on resets to be needed.
- `StepLink`, `StepReceive`: the two views meet. Any state the operations leave behind can start an
  interleaving; a send or a receive that nobody interrupts does what the atomic one does.

## Main results

- No torn reads, as long as no pointer that a reset has loaded is overrun unseen before the reset
  stores it: `StepProofs.NoTornReads`, and from every state the operations can leave,
  `StepLink.NoTornReadsFromAnyQuietState`. Without that condition a read can tear:
  `StepTear.TornRead`.
- Every run refines an append-only log with one position per reader: `World.RunsRefineLog`. The
  layout behind it, on the bytes: `Delivery.WalkIsUnreadLog`.
- Messages are missed exactly when a reader is reset, registers again, or is skipped by a wrapping
  send while it stands on the write offset with an older cycle: `Gaps.SendSkipsExactly`,
  `Gaps.SendClearsExactly`, `Gaps.NoGaps`.
- When "empty" is wrong, exactly, for every reader in every reachable state:
  `Lag.EmptyIsWrongExactly`, `Lag.EmptyIsWrongIffCyclesDiffer`.
- Interleaved receives miss nothing as long as the writer clears no flag and skips no reader:
  `StepGaps.NoGapsInterleaved`. A receive that was invalidated resets before it returns:
  `StepReturns.ReceiveReturns`.
- All readers count as updated exactly when each valid one has delivered the whole log:
  `Updated.UpdatedExactly`.
- There is one publisher at a time and 25 subscribers fit: `Membership.OnePublisher`,
  `Membership.TwentyFiveFit`, `Membership.TwentySixthEvicts`.
- A bound on the backlog makes delivery lossless: `Backlog.LosslessFromReset`.
- Evictions settle: `Eviction.EvictionSettles`, `Eviction.CleanRun`.
- Draining, conflating and polling agree with receiving: `Delivery.DrainIsSuffix`,
  `Delivery.ConflateIsLastOfDrain`, `Delivery.ReadyAgreesWithReceive`.

## Where the code and its documentation differ

Section "Under the hood" of the repository's README.md says that a reader that lags too much is
invalidated and reset. The code does less. `msgq_msg_recv` and `msgq_msg_ready` compare offsets only
(`msgq/msgq.cc:345`, `msgq/msgq.cc:375`), and the first invalidation loop compares strictly
(`msgq/msgq.cc:269`). A reader exactly one lap behind is told "empty" although messages are unread, and
a wrapping send then skips it without clearing its flag. The model follows the code.

- `Witness.FalseEmptyAndSilentGap` gives a run in which both happen.
- `Lag.EmptyIsWrongIffCyclesDiffer`: a reader that has not been skipped since its last reset is told
  "empty" wrongly exactly when its cycle is not the writer's. For any reader the same holds of its cycle
  plus the number of sends that have lost messages for it (`Lag.EmptyIsWrongExactly`), and exactly then
  a wrapping send loses messages silently.
- That number is kept nowhere. `Witness.SegmentDoesNotTell` gives two runs that end in the same segment,
  byte for byte, one with everything read and one with three messages unread.

The same section calls a reset three steps: set the flag, set the cycle, set the pointer. In the code
the last two are one load of the write pointer and one store (`msgq/msgq.cc:75`), with a gap between
them. If the writer completes a lap in that gap, neither of its loops sees the pointer that is about to
be stored. What must not happen is `Steps.Missed`: the second loop spares a slot although the pointer
its reset has loaded lies in the area about to be written. `StepProofs.NoLapSeesResets` shows that this
needs a lap to begin inside the gap, `StepProofs.ExposedIffMissed` that it is exactly what leaves a
valid reader inside the area, and `StepTear.TornRead` that reads do tear then.

## Assumptions

- Every message is non-empty and three of it fit in the buffer: documented at README.md:74 of the
  repository and asserted at `msgq/msgq.cc:246` and `msgq/msgq.cc:400`.
- The segment is smaller than 0xFFFFFFFF bytes (`msgq/msgq.cc:85`) and all handles use the same size.
- Identifiers are drawn at random (`msgq/msgq.cc:32-44`). They are parameters here, assumed non-zero
  and different from those in use.
- The cycle counter does not overflow: fewer than 2^32 laps. Cycles are unbounded in the
  specifications; the packed 32-bit form is used by the methods of `SharedQueue`.
- Memory is sequentially consistent, and headers and packed pointers are single 64-bit accesses.
- The operations of `World` run one at a time. In the interleaved model membership is fixed.
- In the interleaved model a reader's own slot pointer is stored by that reader only, so loading it
  again gives the local copy the code keeps.

## Model

| member | source | states |
|---|---|---|
| Machine.Align | msgq/msgq.h:10 | the least multiple of 8 not below the argument |
| Machine.AlignMask | msgq/msgq.h:10 | adding 7 and clearing the low three bits with the 64-bit mask -8 is what `Align` computes, as long as the addition does not overflow |
| Machine.EndFormulasAgree | msgq/msgq.cc:402 | the reader's formula for a message's end and both of the writer's (lines 285 and 306) give the same place from an aligned start |
| Machine.RemainingSpace | msgq/msgq.cc:257 | the unsigned subtraction read as signed is the mathematical difference for every legal size, so the sign test is the inequality |
| Machine.Pack | msgq/msgq.h:14 | the cycle is the upper half of the packed word and the offset the lower one |
| Machine.PackUnpack | msgq/msgq.h:13-14 | unpacking and packing again is the identity; two packed words are equal exactly when both halves are |
| Machine.DecodeEncode | msgq/msgq.cc:298-299 | every int64, -1 included, survives being stored as a header and loaded |
| Machine.EncodeDecode | msgq/msgq.cc:381-382 | every 8-byte word is the header of exactly one int64 |
| Buffer.WordReadsBack | msgq/msgq.cc:381-382 | a header loads as v exactly when the word is the encoding of v |
| Buffer.HeaderStored | msgq/msgq.cc:260 | a stored header is there and no other byte moves |
| Buffer.MessageStored | msgq/msgq.cc:298-302 | after the header and payload stores the message is intact at its offset and no byte outside it has moved |
| RingInvariant.WrapKeeps | msgq/msgq.cc:258-281 | tag, first loop and cycle bump keep the invariant for all readers |
| RingInvariant.PutKeeps | msgq/msgq.cc:284-307 | second loop, store and publication keep the invariant for all readers |
| RingInvariant.RoomAfterWrap | msgq/msgq.cc:242-258 | the tag always fits at the write offset, and after turning back the message and the next tag fit because three messages do |
| RingInvariant.SendKeeps | msgq/msgq.cc:234-316 | every send, wrapping or not, keeps the invariant for all readers at once |
| RingInvariant.ResetKeeps | msgq/msgq.cc:72-76 | a reset keeps the invariant and leaves the slot with nothing unread |
| RingInvariant.AdvanceKeeps | msgq/msgq.cc:402-422 | moving a reader behind any unread message keeps the invariant |
| RingInvariant.EvictAllKeeps | msgq/msgq.cc:196-211 | evicting everyone keeps the invariant |
| RingInvariant.NewPublisherKeeps | msgq/msgq.cc:157-170 | a new publisher, which keeps the data and the write pointer, keeps the invariant |
| RingInvariant.SubscribeKeeps | msgq/msgq.cc:184-232 | registering, with or without an eviction, keeps the invariant; the new slot lies below the reader count, is valid and has nothing unread |
| Delivery.RefreshKeeps | msgq/msgq.cc:353-363 | whatever happened to the handle before, it then owns a valid slot; nothing changes if it already did, and otherwise nothing is unread |
| Delivery.ReceiveKeeps | msgq/msgq.cc:348-433 | a receive keeps the invariant; it returns a message exactly when the offsets differ, never one below the slot's position, and the slot then stands behind it |
| Delivery.ReceiveIsNext | msgq/msgq.cc:365-432 | a valid non-conflating handle receives exactly the next unread message of the log |
| Delivery.ReadyAgreesWithReceive | msgq/msgq.cc:319-346 | polling says yes exactly when a receive on the same handle would return a message, and does not change that receive - also for evicted handles, invalid slots and slots on a tag |
| Delivery.MeaningOfEmpty | msgq/msgq.cc:365-378 | "empty" exactly when the offsets are equal; with equal cycles nothing is unread, with different ones the next send that does not wrap invalidates the reader. When the answer is wrong is stated exactly in Lag.EmptyIsWrongExactly |
| Delivery.AdvanceTwice | msgq/msgq.cc:390-411 | moving past message j and then past k is moving past k, with the tag in between crossed once |
| Delivery.DrainIsSuffix | msgq/__init__.py:54-68 | receiving until nothing is left yields exactly the log from the reader's position on, in order, and leaves the reader level with the writer |
| Delivery.ReceiveIsDrainRound | msgq/__init__.py:57-66 | a receive is one round of draining, conflating or not, for every state of the handle |
| Delivery.ConflateIsLastOfDrain | msgq/msgq.cc:404-411 | a conflating receive returns the newest message, the last one draining would return, and leaves the same read pointer and cycle; the next receive returns nothing |
| Delivery.WalkIsUnreadLog | msgq/msgq.cc:380-408 | following the headers in the bytes from a valid reader's offset, through at most one tag, reaches the write offset and meets exactly the unread messages of the log |
| Delivery.BelowIsCurrentLap | msgq/msgq.cc:262-307 | an intact message lies below the write offset exactly when it belongs to the current lap |
| Delivery.AgeOrdering | msgq/msgq.cc:391-395 | every intact message below the write offset is newer than every one at or above it, so following a tag never goes back in time |
| Delivery.UpdatedMeansNothingToReceive | msgq/msgq.cc:496-504 | when all readers are updated, the next receive of any slot owner yields nothing |
| Delivery.LevelReaderSurvives | msgq/msgq.cc:244-294 | a reader level with the writer survives the next send, wrapping or not, and has exactly that message to read |
| Delivery.SynchronisedDelivery | msgq/msgq.cc:496-504 | one send after all readers were updated: every valid reader receives exactly that message and then nothing |
| World.CopyIsMessage | msgq/msgq.cc:413-419 | the bytes a receive copies are the message of that index |
| World.ReceiveDelivers | msgq/msgq.cc:348-433 | a receive by one handle adds at most one entry to what that handle has got, at or past its position, byte for byte, and moves no slot back |
| World.StepKeeps | msgq/msgq.cc:157-433 | every operation by any handle keeps the world invariant, and the log only grows |
| World.RunsRefineLog | msgq/msgq.cc:234-433 | after any run from an unused segment, what each handle has received is a strictly index-increasing selection from the log of sent messages, byte for byte |
| World.MembershipSafe | msgq/msgq.cc:192-231 | in every reachable state there are at most 25 readers and the slot of every handle that may read lies below the reader count, so both invalidation loops reach it |
| World.ArithmeticFaithful | msgq/msgq.cc:242-258 | in every reachable state the write offset is a multiple of 8 with room for the next tag, no slot is ahead of the writer's cycle, and truncating an offset to 32 bits loses nothing |
| Gaps.SendSkipsExactly | msgq/msgq.cc:264-294 | a send moves a valid reader past unread messages if and only if it wraps while the reader's offset is the write offset and its cycle is older; then everything unread is skipped and the flag stays set |
| Gaps.UndisturbedStep | msgq/msgq.cc:348-433 | an operation that passes the guards - no test of a send applies to the slot, nobody is evicted, no reset of the slot, no new publisher - leaves the handle its slot and flag, and delivers exactly the next message or changes nothing for it |
| Gaps.StepDistinct | msgq/msgq.cc:184-228 | no two connected handles ever carry the same identifier |
| Gaps.NoGaps | msgq/msgq.cc:264-432 | over any run of such operations the handle keeps its slot and receives consecutive log entries, none missing and none repeated |
| Gaps.SendClearsExactly | msgq/msgq.cc:264-294 | a send clears a valid slot's flag if and only if a test of one of its two loops applies to the pointers before the send, and never moves the slot's pointer |
| Lag.LagDecides | msgq/msgq.cc:264-272 | for a slot whose cycle is `lag` behind the lap it reads, "empty" is wrong if and only if the offsets are equal and the cycle plus the lag is not the writer's; a send silently loses messages if and only if in addition it wraps |
| Lag.AdvanceLags | msgq/msgq.cc:390-422 | moving along the log keeps the lag, across the tag too |
| Lag.SendLags | msgq/msgq.cc:264-294 | a send that leaves the slot valid adds one to the lag exactly when it loses messages, and otherwise keeps it |
| Lag.StepLags | msgq/msgq.cc:157-433 | every operation by any handle keeps count of the lag of every slot |
| Lag.EmptyIsWrongExactly | msgq/msgq.cc:365-378 | in every reachable state and for every handle with a valid slot: "empty" is wrong if and only if the offsets are equal and the cycle, plus the number of sends that lost messages for the slot since its reset, is not the writer's; exactly then a wrapping send loses messages silently |
| Lag.EmptyIsWrongIffCyclesDiffer | msgq/msgq.cc:375-378 | for a handle that was reset and not skipped since, whatever else happened before and after: "empty" is wrong if and only if the offsets are equal and the cycles differ |
| Updated.UpdatedIffCaughtUp | msgq/msgq.cc:496-504 | all readers are updated if and only if there is at least one and every valid one has delivered the whole log with its cycle not lagging; invalidated ones do not matter |
| Updated.UpdatedExactly | msgq/msgq.cc:496-504 | the same in every reachable state, the lag being the number of sends that lost messages for the slot since its reset |
| Updated.UpdatedAfterSubscribing | msgq/msgq.cc:496-504 | after the first subscription on an unused segment the answer is true |
| Updated.NotUpdatedAfterSend | msgq/msgq.cc:496-504 | right after a send that leaves at least one reader valid the answer is false |
| Updated.DrainCatchesUp | msgq/__init__.py:54-68 | draining a valid slot that is not told "empty" wrongly brings it behind the whole log and leaves the other slots alone |
| Updated.UpdatedAfterDraining | msgq/msgq.cc:496-504 | once every valid reader has drained, none of them skipped since its reset or told "empty" wrongly, the answer is true |
| Backlog.BacklogIsDistance | msgq/msgq.cc:390-402 | for a reader in sync the unread bytes are the distance to the write offset, through the tag if it is on the previous lap |
| Backlog.NeverFalselyEmpty | msgq/msgq.cc:375-378 | for a reader in sync the offsets differ exactly when something is unread |
| Backlog.SendTagHigh | msgq/msgq.cc:255-260 | with messages of at most M bytes the tag leaves at most M + 8 bytes of the buffer unused |
| Backlog.SendKeepsSync | msgq/msgq.cc:255-294 | within the backlog bound a send neither invalidates nor skips the reader |
| Backlog.AdvanceKeepsSync | msgq/msgq.cc:390-422 | receiving the next message keeps the reader's cycle truthful, across the tag too |
| Backlog.CalmStep | msgq/msgq.cc:184-433 | every send within the bound, and every other operation that leaves the slot alone, leaves the reader undisturbed and in sync |
| Backlog.LosslessWithinBound | msgq/msgq.cc:255-402 | if the unread bytes U satisfy U + t + M + 8 < size before each send of t <= M bytes, a reader in sync is never invalidated, never falsely told "empty" and receives every message exactly once in order |
| Backlog.LosslessFromReset | msgq/msgq.cc:72-76 | the same from an unused segment: any earlier history, then a reset, then a bounded run |
| Eviction.CleanHasRoom | msgq/msgq.cc:192-211 | if every slot has a living owner and there are at most 25 subscribers, beside any number of publishers, a subscriber without a slot finds one free |
| Eviction.CleanStep | msgq/msgq.cc:319-363 | then no operation evicts, and every handle keeps the slot it has |
| Eviction.EvictionCleans | msgq/msgq.cc:196-226 | after an eviction every slot has a living owner |
| Eviction.CleanRun | msgq/msgq.cc:319-363 | after that no run evicts again, and every handle keeps the slot it claims |
| Eviction.EvictionSettles | msgq/msgq.cc:184-232 | with at most 25 subscribers, beside any number of publishers, no new ones and no publisher restart, any run holds at most one eviction, whatever slots were left over |
| Eviction.EvictsExactly | msgq/msgq.cc:324-328 | a receive, poll, send or reset evicts if and only if it lowers the reader count; one that does not leaves every owner its slot, whatever slots are left over |
| Membership.OnlySendsWrite | msgq/msgq.cc:157-433 | no operation but a send touches the data, the write pointer or the log, and only a new publisher changes who may send |
| Membership.OnePublisher | msgq/msgq.cc:157-170 | from the moment a handle takes over as publisher until another does, over any run with evictions: each of its legal sends appends exactly its message, and a send of any other handle changes nothing |
| Membership.PublishVacates | msgq/msgq.cc:161-167 | after a new publisher no slot is valid and no handle owns one |
| Membership.SubscribeEvicts | msgq/msgq.cc:196-226 | a subscription that finds all slots taken leaves the newcomer as the only owner, and its slot as the only valid one |
| Membership.ReceiveEvicts | msgq/msgq.cc:324-328 | so does a receive or a poll that has to register again and finds all slots taken |
| Membership.TwentyFiveFit | msgq/msgq.cc:192-226 | after 25 different handles have subscribed on an unused segment each owns a valid slot of its own and the reader count is 25 (msgq/msgq.h:9) |
| Membership.TwentySixthEvicts | msgq/msgq.cc:192-226 | after one more subscription exactly the newcomer has a slot and the reader count is 1 |
| ReceiveLoop.HeaderIsTrusted | msgq/msgq.cc:380-400 | every header read from a valid reader with unequal offsets is -1, on the tag, or the positive size, below the queue size, of the message it delivers next: the assertions never fire |
| ReceiveLoop.CrossTagKeeps | msgq/msgq.cc:391-395 | following the tag keeps the invariant, and something is still unread |
| ReceiveLoop.CrossTagSameReceive | msgq/msgq.cc:391-395 | following the tag does not change what the receive returns or where it ends |
| ReceiveLoop.StepOverSameReceive | msgq/msgq.cc:405-410 | stepping over a message when conflating does not change it either |
| ReceiveLoop.RefreshSameReceive | msgq/msgq.cc:353-363 | nor does registering again or revalidating, which is never needed twice |
| ReceiveLoop.TagTurn | msgq/msgq.cc:391-395 | a turn on the tag keeps the outcome and lowers the measure |
| ReceiveLoop.TakeTurn | msgq/msgq.cc:397-432 | a turn on a message, with the size and end the code computes: the bytes behind the header are the next message, and the turn returns it or keeps the outcome and lowers the measure |
| SharedQueue.Segment.InvalidateBeyond | msgq/msgq.cc:264-272 | the first loop clears exactly the flags of registered readers strictly beyond the write offset with another cycle |
| SharedQueue.Segment.InvalidateWithin | msgq/msgq.cc:287-294 | the second loop clears exactly the flags of registered readers in [start, end) with another cycle |
| SharedQueue.Segment.WrapAround | msgq/msgq.cc:259-277 | tag, first loop and cycle bump have the specified effect on the whole segment |
| SharedQueue.Segment.Append | msgq/msgq.cc:284-307 | second loop, stores and publication have the specified effect on the whole segment |
| SharedQueue.Segment.VacateAll | msgq/msgq.cc:164-167 | the loop clears every slot's flag and identifier and nothing else (also lines 200-208) |
| SharedQueue.Connection.InitPublisher | msgq/msgq.cc:157-170 | the segment becomes the specified one, with data, write pointer and history kept, and stays valid |
| SharedQueue.Connection.Send | msgq/msgq.cc:234-316 | -1 and no change for a replaced publisher; otherwise the message joins the log as specified and its size is returned |
| SharedQueue.Connection.AllReadersUpdated | msgq/msgq.cc:496-504 | true exactly when there is a reader and every valid one has the writer's offset and cycle |
| SharedQueue.Connection.ResetReader | msgq/msgq.cc:72-76 | the slot becomes valid and level with the writer; nothing else changes |
| SharedQueue.Connection.ClaimSlot | msgq/msgq.cc:215-226 | the handle gets the slot number counted before, and the slot its identifier, not yet valid |
| SharedQueue.Connection.InitSubscriber | msgq/msgq.cc:184-232 | the loop terminates, with the next free slot taken and reset, after evicting everyone exactly when all were taken |
| SharedQueue.Connection.Repair | msgq/msgq.cc:353-363 | the head of the retry loop refreshes the handle, and is not needed a second time |
| SharedQueue.Connection.Ready | msgq/msgq.cc:319-346 | the loop terminates with the specified answer and effect |
| SharedQueue.Connection.Take | msgq/msgq.cc:397-432 | returns the next message's bytes and moves behind it, or steps over it and keeps the outcome with a smaller measure |
| SharedQueue.Connection.Turn | msgq/msgq.cc:365-432 | one turn ends the receive as specified, or keeps the outcome with a smaller measure |
| SharedQueue.Connection.Receive | msgq/msgq.cc:348-433 | the retry loop terminates; return code, bytes, handle and segment are those of the specification |
| SharedQueue.SubSocket.Receive | msgq/ipc.cc:83-123 | a message exactly when the queue has one for the handle, with its bytes |
| SharedQueue.DrainSockRaw | msgq/__init__.py:54-68 | the loop terminates and returns the log from the reader's position on - from a conflating socket its newest message - or nothing if the offsets are equal after the refresh |
| StepInvariant.ReachPublished | msgq/msgq.cc:305-307 | publishing prolongs every chain of intact messages that reaches the write offset |
| StepInvariant.ReachBecomesTail | msgq/msgq.cc:260 | a chain that reaches the write offset ends in the tag once the writer turns back |
| StepInvariant.TailTagged | msgq/msgq.cc:259-260 | a tag stored at the write offset leaves every older chain at or above it usable |
| StepInvariant.TagStored | msgq/msgq.cc:259-260 | storing the tag keeps everything true of a reader in any phase, with a copy in flight over that very header included |
| StepInvariant.Bumped | msgq/msgq.cc:274-277 | so does the cycle bump |
| StepInvariant.BumpedExactly | msgq/msgq.cc:274-277 | a cycle bump leaves a reader of the current lap with every message up to the tag in reach |
| StepInvariant.AreaWritten | msgq/msgq.cc:297-302 | so does any store into the area the second loop has cleared |
| StepInvariant.Published | msgq/msgq.cc:305-307 | so does the publication |
| StepProofs.FloorRaised | msgq/msgq.cc:291-293 | a valid slot the second loop has passed is not in the area to be written, or not on an older lap, unless the loop missed its reset |
| StepProofs.HeaderLoads | msgq/msgq.cc:380-400 | a reader in flight loads -1 or the size of its next message, whatever the writer is doing |
| StepProofs.WriterSafe | msgq/msgq.cc:256-307 | every access of the writer stays in the buffer and keeps the memory in order, whatever the readers are doing |
| StepProofs.WriterKeeps | msgq/msgq.cc:256-307 | every access of the writer keeps what is true of every reader, unless the second loop misses a reset |
| StepProofs.ReaderKeeps | msgq/msgq.cc:359-432 | every access of any reader stays in the buffer and keeps the invariant |
| StepProofs.AfterKeeps | msgq/msgq.cc:256-432 | so does every interleaving in which no reset is missed, and the log only grows |
| StepProofs.NoTornReads | msgq/msgq.cc:359-432 | in every such interleaving, what a receive delivers after its final check is one message that was sent, byte for byte, strictly ordered by index; no access can leave the buffer and the size assertions hold |
| StepProofs.NoLapSeesResets | msgq/msgq.cc:72-76 | no reset is missed as long as the writer begins no lap between a reset's load of the write pointer and its store |
| StepReturns.ReceiveReturns | msgq/msgq.cc:359-429 | in every interleaving a receive returns only if its last look at the flag found it true, and delivers only if this very access does; by then its slot has left behind everything sent before the flag was last found false |
| StepReturns.EmptyReturnMayBeInvalid | msgq/msgq.cc:360-378 | an interleaving in which a receive returns empty while its flag is already false, cleared between its look at the flag and the comparison of the offsets |
| StepGaps.PastFirstLoop | msgq/msgq.cc:264-272 | a valid reader that the first loop has passed and spared is not on an older lap |
| StepGaps.WriterCompletes | msgq/msgq.cc:256-307 | an access of the writer that neither clears the reader's flag nor stores a tag where it stands unread with another cycle keeps every message from the reader's place on in reach |
| StepGaps.SparedStep | msgq/msgq.cc:256-432 | such an access of anyone lets the reader deliver exactly the next message or nothing, whatever the other readers are doing |
| StepGaps.NoGapsInterleaved | msgq/msgq.cc:256-432 | in every interleaving of such accesses a non-conflating reader delivers consecutive log entries byte for byte, none missing and none repeated |
| StepGaps.StartComplete | msgq/msgq.cc:184-433 | every valid reader of a state the operations leave can start such an interleaving |
| StepProofs.NeverExposed | msgq/msgq.cc:287-302 | as long as no reset is missed, no valid reader stands inside the area being written with an older cycle |
| StepProofs.ExposedIffMissed | msgq/msgq.cc:72-76 | a reset that stores its pointer inside the area after the second loop has passed the slot leaves the reader standing there, with its flag set, if and only if the loop missed it |
| StepTear.TornRead | msgq/msgq.cc:72-76 | an interleaving, from an unused segment, with such a lap: a receive returns bytes that were never sent, with its flag set all along |
| StepLink.StartOk | msgq/msgq.cc:184-433 | every state the operations leave satisfies the interleaved invariant |
| StepLink.NoTornReadsFromAnyQuietState | msgq/msgq.cc:256-432 | no torn reads from any such state on, under either condition |
| StepLink.SoloSendIsAtomicSend | msgq/msgq.cc:234-307 | a send nobody interrupts, access by access and whatever the readers were doing, is the atomic send |
| StepReceive.SoloReceiveIsAtomicReceive | msgq/msgq.cc:348-433 | a receive nobody interrupts returns after finitely many accesses, with what the atomic receive returns and with the segment it leaves |
| Witness.FalseEmptyAndSilentGap | msgq/msgq.cc:264-272 | a run after which a valid reader is told "empty" with three messages unread, and one more send skips them with the flag still set |
| Witness.SegmentDoesNotTell | msgq/msgq.cc:365-378 | two runs that end in the same segment byte for byte, the same handles and the same log: in one the subscriber has read everything, in the other it is told "empty" with three messages unread |

## Left out

- SharedQueue.Connection.Receive: the two checks of the flag after the header and after the copy (`msgq/msgq.cc:385`, `msgq/msgq.cc:425`) cannot fire when the call runs alone; they are steps of the interleaved model. The allocation failure at `msgq/msgq.cc:414-415` is not modelled.
- SharedQueue.Connection.Send: assumes the cycle counter does not overflow; the wake-up signals at `msgq/msgq.cc:309-313` are not modelled.
- SharedQueue.Connection.InitSubscriber: the compare-and-swap cannot fail when the call runs alone, so its retry is not exercised; waking evicted readers is not modelled.
- SharedQueue.SubSocket.Receive: the non-blocking path only; the blocking loop and the fake-event handshake depend on time.
- SharedQueue.DrainSockRaw: without `wait_for_one`, which blocks.
- Delivery.MeaningOfEmpty: with different cycles it says what follows, not whether the answer is right; Lag.EmptyIsWrongExactly says that.
- StepProofs.NoTornReads: membership is fixed; subscribing, evicting and replacing the publisher during a send are covered one operation at a time only. The condition on resets is exact for readers left inside the area (StepProofs.ExposedIffMissed); whether such a reader then returns torn bytes depends on what the buffer holds, so for torn reads themselves it is sufficient, with StepTear.TornRead as the case where they occur.
- StepGaps.StartComplete: a reader that starts on the write offset counts as having read everything; whether it has is the matter of Lag.EmptyIsWrongExactly.
- Opening and closing a queue: files, memory mapping, the environment, handles of different sizes.
- `msgq_poll` and `msgq_wait_for_subscriber`: sleeping, time-outs and signals. The loop of `msgq_poll` that counts ready items is not modelled.
- Weak memory: the code uses sequentially consistent atomics and full fences around its copies.
- More than 2^32 laps, and identifiers that collide.
- `Poller` and the events of `msgq/event.cc`: pipes and polling of the operating system.
- `msgq/visionipc`: file descriptors, device memory and threads.
- The Python bindings. The unit tests at `msgq/msgq_tests.cc:182-218` write into the segment's pointers directly; the states they set up are not covered by the results on reachable states.
