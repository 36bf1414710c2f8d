# Event path of the KubeArmor Windows driver: a model and its proofs

The driver turns file operations into events, queues them in a lock-free byte ring, and a worker thread
sends them to a user-mode service, which parses them. This project models that path in Dafny and proves
what it keeps over every run. It also covers the structures around it: the process cache, the rule table,
the service's bounded queue, the serialization buffer and the typed field writer.

| files | what they hold |
|---|---|
| `Wrappers`, `Bytes`, `RingLayout` | shared generics, bytes, little-endian fields, ring constants, slot header, 32-bit head arithmetic |
| `RingProtocol` | the dispatcher as a step system: producers in `ProduceSlot`, the worker, clients |
| `RingInvariant`, `RingSteps`, `RingWorkerSteps` | the invariant and its preservation by every step |
| `RingCalls`, `RingTheorems`, `RingSends` | which call made which claim; what holds after every run; what becomes of the events read, told from the steps alone |
| `RingSolo`, `Dispatcher` | one call running alone: as a function, as a run of steps, as methods over a byte array |
| `RingLimits`, `RingWitnesses` | exact conditions for the ring's promises, and runs of the code outside them |
| `EventBuffer`, `FieldSerializer` | the sticky-overflow buffer; typed fields with a decoder that inverts the writer |
| `EventWire`, `EventSerializers`, `ProcessEvents` | the wire format, both serializers, the parser, round trips |
| `EndToEnd` | serialize, enqueue, drain and parse, over every run |
| `ProcessCache`, `RuleTable`, `BoundedQueue` | the three indexes and queues against a map, a list and a sequence |

## How the ring is modelled

A `State` holds the program's own ring (bytes, two wrapping 32-bit heads, counters, the auto-reset event), every
producer's position in `ProduceSlot`, and the worker's position in its loop. Beside it, `Hist` keeps unbounded
heads, the slots between them, and logs. `Hist` never decides what the program does; it only tells the bookkeeping
which call owned a slot that is skipped as stuck (`Forget`). Any number of producers run, and a run is
any list of steps that can be taken in turn.

The code's promises do not hold over all runs. Six named predicates say what a run must respect, each attached
to the step it concerns:

- `FreshSnapshot`: fewer than 2^32 bytes pass between a producer's read of the write head and its swap.
- `ClaimLeavesGap`: a claim does not take the last free byte. The space test at driver/AsyncEventDispatcher.cpp:180 admits it,
  and the mask at lines 175-177 then reads a full ring as empty.
- `WrapLeavesHeader`: the tail left by a wrap holds a header. At line 196 a tail of 8, 16 or 24 bytes gets none.
- `HeaderVisible`: the worker does not look at a slot between its reservation and its header stores.
- `OnlyDeadPoisoned`: a slot is skipped as stuck only if its producer has stopped, and had stopped before counting the
  event as enqueued.
- `NonEmpty`: events have bytes. `EndToEnd.FileRunRespects` proves this one of every run fed by `Enqueue`.

`RingLimits` proves each of the conditions on a fresh swap, on looking at a slot and on poisoning necessary as well as
sufficient for the invariant. It gives the exact condition for a swap on a snapshot of any age, and for a whole call
from what a caller can read off the ring. `RingWitnesses` gives concrete runs for four of the conditions, and one run
that respects all of them and still loses an event; every event in these runs is a file event that fits the driver's buffer.

## Findings

- `STATUS_TIMEOUT` is 0x102, which `NT_SUCCESS` accepts. So the timeout branches of `SendOne` and of the
  worker loop are never taken: a timed-out send counts as sent and is not counted as dropped.
  driver/PR_DESCRIPTION.md:41-47 says the opposite; the model follows the code.
- A full ring reads as empty, a short tail is left without a header, and a slow producer that is taken for
  dead is counted both as poisoned and as enqueued (`RingWitnesses`).
- A call that has read the write head before the worker passes it takes an empty ring for nearly full and drops its
  event, in a run that respects every condition (`RingWitnesses.EmptyRingRefuses`); `RingLimits.RefusedIff` says exactly
  when the space test refuses.
- `RemoveRule` reads the action of an entry after freeing it. The whitelist counter stays right exactly when
  what it reads agrees with the removed rule, apart from one harmless case (`RuleTable.CounterExactIff`).
- The size test of `Buffer::WriteBytes` is made in 32 bits (`EventBuffer.SizeTestExactWhen`). No caller in the driver
  passes a length that makes it wrap.
- The parser halves byte lengths, so a path of odd length loses its last byte and no other does
  (`EventWire.UnitsLoseNothingIff`).

## Model

| member | source | states |
|---|---|---|
| `RingLayout.MaskIdioms` | driver/AsyncEventDispatcher.h:110-118 | the masks `& (RING - 1)` and `& ~7` are remainder and rounding on every 32-bit value |
| `RingLayout.WrappedHeadsAreExact` | driver/AsyncEventDispatcher.cpp:175-189 | offsets and occupancy from wrapped heads equal those of unbounded heads after any number of wraps; the occupancy is right exactly below a full ring |
| `RingLayout.UsedIsDistance` | driver/AsyncEventDispatcher.cpp:175-177 | for any two heads, also when the read head has passed the other, the computed occupancy is their distance modulo the ring |
| `RingLayout.StrideBounds` | driver/AsyncEventDispatcher.h:114-122 | for every accepted size the stride is a multiple of 8 in [32, RING/4] and holds header and payload |
| `RingLayout.PadStride` | driver/AsyncEventDispatcher.cpp:203-205 | the stride recomputed from a pad's stored payload length is the pad's own length |
| `RingLayout.PhysicallyDisjoint` | driver/AsyncEventDispatcher.h:123-127 | stretches that follow each other within one lap share no physical byte |
| `RingLayout.HeaderReadsBack` | driver/AsyncEventDispatcher.h:53-66 | every field of a packed slot header, the reserved word included, reads back as stored |
| `RingLayout.TimedOutIff` | driver/AsyncEventDispatcher.h:134-139 | in unbounded arithmetic, a claim is old exactly when 500 milliseconds' worth of ticks have gone by since, on a 64-bit counter that may have wrapped and a clock of known rate |
| `RingLayout.RestateHeader` | driver/AsyncEventDispatcher.cpp:241-241 | storing the state word changes nothing else in the header |
| `RingInvariant.InitInv` | driver/AsyncEventDispatcher.h:157-183 | the dispatcher starts inside the invariant |
| `RingInvariant.SlotsDisjoint` | driver/AsyncEventDispatcher.h:123-131 | any two slots of a tiling occupy disjoint physical ranges |
| `RingSteps.StartKeeps` | driver/AsyncEventDispatcher.cpp:147-166 | entering `ProduceSlot`, with the size refusal, keeps the invariant |
| `RingSteps.CheckSpaceKeeps` | driver/AsyncEventDispatcher.cpp:175-191 | the space test, on a read head that may be stale by the swap, keeps the invariant |
| `RingSteps.SnapshotCurrent` | driver/AsyncEventDispatcher.cpp:194-217 | a swap that succeeds on a fresh snapshot finds the very unbounded head the producer read |
| `RingSteps.CasClaimKeeps` | driver/AsyncEventDispatcher.cpp:216-221 | a claiming swap that leaves a gap keeps the invariant, whatever the age of its snapshot |
| `RingSteps.CasPadKeeps` | driver/AsyncEventDispatcher.cpp:191-195 | a wrapping swap that leaves a gap and room for a header keeps the invariant, whatever the age of its snapshot |
| `RingSteps.FreshSwapFits` | driver/AsyncEventDispatcher.cpp:173-221 | on a fresh snapshot the space test leaves a swap only two ways to go wrong: taking the last byte, and a tail too short for a header |
| `RingSteps.CasFailKeeps` | driver/AsyncEventDispatcher.cpp:194-222 | a failed swap changes nothing but its own call's place and failure count, is charged to a reservation made by another call since the snapshot, and keeps the invariant |
| `RingSteps.PublishKeeps` | driver/AsyncEventDispatcher.cpp:198-235 | the header stores keep the invariant, in whatever state the other producers are |
| `RingSteps.CopyKeeps` | driver/AsyncEventDispatcher.cpp:237-238 | the payload copy stays inside its own slot and keeps the invariant |
| `RingSteps.CommitKeeps` | driver/AsyncEventDispatcher.cpp:208-241 | committing a pad or an event keeps the invariant, including the pending signal |
| `RingSteps.SignalKeeps` | driver/AsyncEventDispatcher.cpp:184-244 | setting the event and returning keeps the invariant |
| `RingWorkerSteps.HeadFound` | driver/AsyncEventDispatcher.cpp:260-273 | at the read head the worker finds the oldest slot's header, whole and inside the ring |
| `RingWorkerSteps.InspectKeeps` | driver/AsyncEventDispatcher.cpp:260-287 | looking at the head slot, with pad skip and copy-out, keeps the invariant |
| `RingWorkerSteps.PoisonExact` | driver/AsyncEventDispatcher.cpp:308-313 | the sanity test accepts every stored stride, and the poison stride is the slot's own |
| `RingWorkerSteps.JudgeKeeps` | driver/AsyncEventDispatcher.cpp:289-327 | waiting for or poisoning the head slot keeps the invariant, also if it was committed since its state was read |
| `RingWorkerSteps.WakeKeeps` | driver/AsyncEventDispatcher.cpp:407-418 | waking, with the auto-reset of the event, keeps the invariant |
| `RingWorkerSteps.PollKeeps` | driver/AsyncEventDispatcher.cpp:253-258 | ending a drain on an empty ring keeps the invariant |
| `RingWorkerSteps.SendKeeps` | driver/AsyncEventDispatcher.cpp:337-453 | every result of a send keeps the invariant and its counters |
| `RingWorkerSteps.StepKeeps` | driver/AsyncEventDispatcher.cpp:97-460 | every step of every participant keeps the invariant |
| `RingWorkerSteps.RunKeeps` | driver/AsyncEventDispatcher.cpp:97-460 | every run keeps the invariant |
| `RingTheorems.EachCallOnce` | driver/AsyncEventDispatcher.cpp:153-246 | after every run, every call the run started has claimed once, for the very bytes it was started with, or was refused once, or is still without a claim; a call in progress holds the bytes of the latest start under its number |
| `RingTheorems.RingStaysTiled` | driver/AsyncEventDispatcher.cpp:171-334 | after every run the bytes between the heads are tiled by whole aligned slots, none across the ring end, pairwise disjoint; the read head is a slot start and the computed occupancy is the true one |
| `RingTheorems.SwapNeverOvercommits` | driver/AsyncEventDispatcher.cpp:173-221 | a successful swap never takes more than is free at that moment, though the read head was read earlier |
| `RingTheorems.RingIsFifo` | driver/AsyncEventDispatcher.cpp:188-287 | after every run, what was read followed by what is outstanding is what was claimed, in claim order, without the claims that were poisoned: the flags name them, claim by claim; each claim is the bytes of a call of the run, no call twice; pads never show |
| `RingTheorems.StepRefinesQueue` | driver/AsyncEventDispatcher.cpp:188-327 | every step of the ring is a step of a plain queue of byte strings: nothing, an append, or the removal of the front |
| `RingTheorems.NoLostWakeup` | driver/AsyncEventDispatcher.cpp:180-457 | a worker asleep before a committed head slot has its event set, or that slot's producer is live and on its way to set it, or it stopped for good on that way, or the last drain ended on a hard send error |
| `RingTheorems.NothingStranded` | driver/AsyncEventDispatcher.cpp:407-457 | with no call in progress and no signal pending, a sleeping worker has left nothing behind, and every attempt was read, refused or poisoned |
| `RingTheorems.OnlyTheDeadStrand` | driver/AsyncEventDispatcher.cpp:407-457 | with every call in progress stopped and no signal pending, a sleeping worker has an empty ring or waits at a slot of a stopped call, which never finished it or never signalled it |
| `RingTheorems.TimeoutTakenForSuccess` | driver/AsyncEventDispatcher.cpp:359-449 | a timed-out send is recorded as sent and is not counted as dropped |
| `RingTheorems.EventsConserved` | driver/AsyncEventDispatcher.cpp:131-453 | at every moment of every run: attempts = enqueued + refused + poisoned + in flight; enqueued = sent + timed out + without client + hard errors + held + committed in the ring; dropped = refused + without client |
| `RingSends.EventsFare` | driver/AsyncEventDispatcher.cpp:337-453 | after every run, each event that was read, in order, has fared as the run's own steps say or is in the worker's hands: dropped exactly if no client was connected when it was taken up, else sent if a client was there and the status was not negative, else failed |
| `RingSends.AllHandedOver` | driver/AsyncEventDispatcher.cpp:420-441 | over every run in which a client is there and sends succeed, the messages handed to the port are the events read, in order |
| `RingSends.SendFares` | driver/AsyncEventDispatcher.cpp:337-453 | a send logs the bytes in the worker's hands; the drain goes on exactly if a client was connected and the status was not negative |
| `RingSends.WorkerFollows` | driver/AsyncEventDispatcher.cpp:73-120 | after any steps from start-up the client, the wake-up event and the stop are what the steps say; a worker asleep for a hard error was stopped by a failed send; it exits only after a stop, and never sleeps again once it has seen one |
| `RingSends.WakingStartsDrain` | driver/AsyncEventDispatcher.cpp:407-422 | waking starts a drain whatever the cause; for a stop alone once there was one, for a timeout only while the event is not set |
| `RingSends.PollFindsHead` | driver/AsyncEventDispatcher.cpp:253-258 | a drain looks at a slot if and only if there is one, and ends otherwise |
| `RingSends.NoCallAfterStop` | driver/AsyncEventDispatcher.cpp:79-128 | after a stop no call starts any more |
| `RingTheorems.DropCounterExactWhen` | driver/AsyncEventDispatcher.cpp:439-449 | the drop counter equals the events lost other than by poisoning if and only if no send timed out or failed hard |
| `RingTheorems.AgeDecides` | driver/AsyncEventDispatcher.cpp:289-327 | judging a claimed event skips its slot if and only if 500 milliseconds' worth of ticks have gone by since its claim; otherwise nothing changes and the drain ends |
| `RingTheorems.PadsNeverPoisoned` | driver/AsyncEventDispatcher.cpp:207-292 | a pad at the head never counts as stuck |
| `RingTheorems.PoisonStaysInSlot` | driver/AsyncEventDispatcher.cpp:308-320 | poisoning zeroes exactly the stuck slot's bytes and lands on the next slot's start |
| `RingTheorems.RetriesArePaidFor` | driver/AsyncEventDispatcher.cpp:171-222 | a call never retries more often than other calls have reserved slots since it began; its own pads and claim are not counted |
| `RingTheorems.InspectShrinks` | driver/AsyncEventDispatcher.cpp:267-287 | passing a committed slot strictly shrinks the outstanding bytes |
| `RingTheorems.PoisonShrinks` | driver/AsyncEventDispatcher.cpp:299-323 | so does poisoning, so the drain loop cannot go round for ever |
| `RingTheorems.HeldFitsSendBuffer` | driver/AsyncEventDispatcher.cpp:280-282 | what the worker copies out always fits the send buffer |
| `RingTheorems.EveryAccessInside` | driver/AsyncEventDispatcher.cpp:198-320 | after every run, every live producer's next step can be taken, and its stores, like the worker's reads, copies and clears, lie inside the ring |
| `RingSolo.WrapsAtMostOnce` | driver/AsyncEventDispatcher.cpp:191-214 | after a wrap no accepted size needs another one |
| `RingSolo.CallOutcome` | driver/AsyncEventDispatcher.cpp:153-246 | when a lone call is too large, accepted or refused, in the code's own numbers |
| `RingSolo.SoloCall` | driver/AsyncEventDispatcher.cpp:153-246 | from any state of an active dispatcher, a call that runs alone is a run of the step system that leaves the ring of the sequential function and adds exactly its slots; the run starts that one call, and respects every condition exactly when the event is not empty and its size is safe |
| `RingLimits.SwapKeepsInvariantIff` | driver/AsyncEventDispatcher.cpp:180-221 | a swap, on a snapshot of any age, keeps the invariant if and only if it fails, or what it takes leaves a gap and, for a wrap, a tail that holds a header |
| `RingLimits.FreshSwapKeepsInvariantIff` | driver/AsyncEventDispatcher.cpp:180-221 | on a fresh snapshot, if and only if a claim leaves a gap and a wrap leaves a header |
| `RingLimits.InspectKeepsInvariantIff` | driver/AsyncEventDispatcher.cpp:260-332 | looking at the head slot keeps the invariant if and only if its header has been stored, whatever the bytes there read as |
| `RingLimits.LookIsTwoSteps` | driver/AsyncEventDispatcher.cpp:260-327 | the look followed by its judgement, as one function |
| `RingLimits.LookKeepsInvariantIff` | driver/AsyncEventDispatcher.cpp:260-332 | a look and its judgement together keep the invariant if and only if: with the header stored, a claimed slot is poisoned only when that is safe; with the header still to come, the stale bytes read as claimed and are not taken for stuck, or the skip they lead to happens to be a stopped producer's whole slot |
| `RingLimits.RefusedIff` | driver/AsyncEventDispatcher.cpp:173-186 | when the space test refuses an event, for a write head of any age: exactly by the heads' distance modulo the ring; exactly on lack of space while the write head stands; rightly while the worker has not passed the head that was read; by the distance beyond it once it has |
| `RingLimits.PoisonKeepsInvariantIff` | driver/AsyncEventDispatcher.cpp:299-323 | skipping the head slot as stuck keeps the invariant if and only if its producer has stopped and, if the slot was committed since its state was read, stopped before counting it |
| `RingLimits.CallKeepsInvariantIff` | driver/AsyncEventDispatcher.cpp:153-246 | a whole call keeps the invariant if and only if its size is safe for the two heads it finds; an accepted event is queued last, and the call's run respects every condition under the same condition |
| `RingWitnesses.FullRingLooksEmpty` | driver/AsyncEventDispatcher.cpp:175-258 | eight file events that fit the driver's buffer are accepted and fill the ring, which then reads as empty: the worker sleeps before eight committed events with no signal pending |
| `RingWitnesses.ShortTailLeftBehind` | driver/AsyncEventDispatcher.cpp:191-213 | nine accepted file events and one read leave eight bytes between two slots that hold no header and that nobody will write |
| `RingWitnesses.TailSkipOvershoots` | driver/AsyncEventDispatcher.cpp:329-332 | skipping such a tail as a free slot lands inside the header at the start of the ring |
| `RingWitnesses.LateHeaderMisleads` | driver/AsyncEventDispatcher.cpp:217-332 | a worker that looks between the swap and the header stores of a file event moves into the middle of its slot |
| `RingWitnesses.EmptyRingRefuses` | driver/AsyncEventDispatcher.cpp:173-186 | a run that respects every condition in which a file event is dropped by an empty ring, because another one was claimed, committed and read between the call's two head reads |
| `RingWitnesses.SlowProducerCountedTwice` | driver/AsyncEventDispatcher.cpp:241-322 | a slow producer of a file event is poisoned, then finishes: one attempt, counted as poisoned and as enqueued, never delivered |
| `Dispatcher.NextEventLeavesEnd` | driver/AsyncEventDispatcher.cpp:251-333 | what one drain call leaves is an end part of the slots: it never drops a slot out of order |
| `Dispatcher.NextEventStops` | driver/AsyncEventDispatcher.cpp:289-327 | a drain call that returns nothing has stopped at a slot that is neither committed nor, at the time it was looked at, claimed for 500 milliseconds' worth of ticks |
| `Dispatcher.NextEventIsOldest` | driver/AsyncEventDispatcher.cpp:251-333 | with every slot committed, a drain call returns the oldest outstanding event, and nothing only when there is none |
| `Dispatcher.AsyncEventDispatcher.constructor` | driver/AsyncEventDispatcher.cpp:10-71 | a new dispatcher is the step system's initial state |
| `Dispatcher.AsyncEventDispatcher.Wrap` | driver/AsyncEventDispatcher.cpp:193-213 | the head moves to the ring start and the tail becomes a committed pad if it holds a header |
| `Dispatcher.AsyncEventDispatcher.Append` | driver/AsyncEventDispatcher.cpp:216-244 | header, payload, commit, count and signal, as one change of the ring |
| `Dispatcher.AsyncEventDispatcher.ProduceSlot` | driver/AsyncEventDispatcher.cpp:153-246 | the retry loop ends in exactly the ring and status that `SoloCall` ties to the step system |
| `Dispatcher.AsyncEventDispatcher.Poison` | driver/AsyncEventDispatcher.cpp:315-322 | zeroing, freeing, advancing and counting, as one change of the ring |
| `Dispatcher.AsyncEventDispatcher.TakeHead` | driver/AsyncEventDispatcher.cpp:267-287 | copies out exactly the head slot's payload, or skips a pad, as one clean worker step |
| `Dispatcher.AsyncEventDispatcher.WaitOrSkip` | driver/AsyncEventDispatcher.cpp:289-327 | poisons an uncommitted head exactly when 500 milliseconds' worth of ticks have gone by since its claim, and otherwise changes nothing, as clean worker steps |
| `Dispatcher.AsyncEventDispatcher.ConsumeOne` | driver/AsyncEventDispatcher.cpp:249-334 | beside producers that pause anywhere, with a clock reading of its own for each slot, the drain loop over the byte array returns exactly the bytes of the next event, and is a clean run of the step system |
| `EventBuffer.BufferHoldsPrefix` | driver/Buffer.h:80-98 | whatever is written, the buffer holds a prefix of it all, and all of it exactly when no overflow is recorded, which is exactly when it fits |
| `EventBuffer.AcceptsIff` | driver/Buffer.h:80-98 | a write returns true exactly when there is memory and no overflow is recorded after it |
| `EventBuffer.SizeTestExactWhen` | driver/Buffer.h:90-93 | the 32-bit size test is the intended one if and only if the sum does not wrap; with an input where it is not |
| `EventBuffer.Buffer.constructor` | driver/Buffer.h:14-34 | an empty buffer, usable exactly when its size is not zero and memory was had |
| `EventBuffer.Buffer.WriteBytes` | driver/Buffer.h:80-98 | appends or records a sticky overflow, and returns whether the bytes are now held |
| `EventBuffer.Buffer.Patch` | driver/FileEvent.h:65-68 | overwrites the start of the buffer and nothing after it |
| `EventBuffer.Buffer.Reset` | driver/Buffer.h:70-77 | empties the buffer, zeroes its memory and clears the overflow |
| `FieldSerializer.FieldsFillPrefix` | driver/Serializer.h:14-157 | after any field writes the buffer is a prefix of the full encoding, and the whole exactly when no overflow occurred, which is exactly when it fits |
| `FieldSerializer.FieldBytes` | driver/Protocol.h:10-22 | each field's bytes: id, the type's own code, then a number in two's complement, low byte first, in its type's width, or a length in two or four bytes and the data |
| `FieldSerializer.DecodeInvertsEncode` | driver/Serializer.h:14-157 | a decoder recovers every sequence of fields from its encoding |
| `FieldSerializer.EncodingsDiffer` | driver/Serializer.h:14-157 | different sequences of fields have different encodings |
| `FieldSerializer.Serializer.WriteHead` | driver/Serializer.h:14-20 | writes id and data type, and stops at the first refused byte |
| `FieldSerializer.Serializer.WriteField` | driver/Serializer.h:23-157 | a field's separate writes leave the buffer as its chunks do, and report whether all were held |
| `FieldSerializer.Serializer.WriteFields` | driver/Serializer.h:14-157 | so for any sequence of fields |
| `EventWire.RecordWord` | driver/EventStructs.h:25-67 | each data word reads back at its packed offset |
| `EventWire.RecordLayout` | driver/EventStructs.h:25-67 | the packed layout byte by byte: time at 0, type 1 at 8, operation at 12, blocked at 16, data words from 17, zeros up to 66, then the strings |
| `EventWire.ImageFields` | driver/EventStructs.h:57-67 | time, operation, blocked flag and all data words read back from a finished event |
| `EventWire.UnitsLoseNothingIff` | kasvc/src/comm/message_parser.cpp:60-61 | reading a byte string as 16-bit units loses nothing if and only if its length is even, and otherwise only its end |
| `EventWire.UnitsOfBytes` | kasvc/src/comm/message_parser.cpp:60-61 | every unit sequence survives being laid out as bytes and read back |
| `EventWire.UnitsShow` | kasvc/src/comm/message_parser.cpp:60-61 | units are the bytes two by two, low byte first |
| `EventWire.StringOutcome` | kasvc/include/comm/kernel_message.h:72-83 | a string is empty if its length or place says so, leaves the message exactly if its end does, and else shows the bytes it leads to |
| `EventWire.ParseOutcome` | kasvc/src/comm/message_parser.cpp:10-41 | any message is unknown exactly unless its operation is 1, 2 or 3; a parsed one has that operation's tag and variant, its own time and blocked flag |
| `EventWire.NetworkRead` | kasvc/src/comm/message_parser.cpp:133-147 | a network record's operation, protocol, ports in network byte order and data length are read from their own places |
| `EventWire.StringReadsBack` | kasvc/include/comm/kernel_message.h:72-83 | the stored offset and length of a string, present or absent, lead the parser to exactly that string |
| `EventSerializers.FreshSerialized` | driver/FileEvent.h:47-74 | in a fresh buffer serializing succeeds exactly when record and strings fit, and the back-patch leaves the strings intact |
| `EventSerializers.AppendString` | driver/FileEvent.h:51-55 | appends a present string at the reported offset; an absent one changes nothing and stores zeros |
| `EventSerializers.Finish` | driver/FileEvent.h:63-74 | patches the record only without overflow, and reports the overflow |
| `EventSerializers.SerializeFileEvent` | driver/FileEvent.h:13-75 | for any buffer, its whole new contents and the status; for a fresh one, success exactly when the event fits, and then its bytes are the event's image |
| `EventSerializers.FileRoundTrip` | kasvc/src/comm/message_parser.cpp:10-84 | parsing a serialized file event shows, field by field, the operation number of its kind (0 for 100, 1 for 102, 2 for 103, 3 for 104, 4 for 105, 5 for 106, 7 for 101), the pid's low half, both paths, the time floored to microseconds, not blocked, and an agreeing tag, with no read outside the message |
| `EventSerializers.FileLayout` | driver/EventStructs.h:25-67 | the bytes of a serialized file event, field by field, with the offsets of the strings that are present |
| `ProcessEvents.WriteCreation` | driver/ProcessEvent.h:77-117 | the cache gains the process first; then path, command line and the cached parent's path are appended at the stored places |
| `ProcessEvents.WriteTermination` | driver/ProcessEvent.h:118-131 | the cached parent and path are reported, and the process leaves the cache |
| `ProcessEvents.SerializeProcessEvent` | driver/ProcessEvent.h:46-145 | buffer, status and cache after any notification, for any buffer; for a fresh one, success exactly when everything fits; the cache is untouched exactly when the blank record is refused |
| `ProcessEvents.ProcessRoundTrip` | kasvc/src/comm/message_parser.cpp:86-131 | parsing a serialized process event gives back every field, absent strings as empty ones, with no read outside the message |
| `ProcessEvents.ProcessLayout` | driver/EventStructs.h:34-67 | the bytes of a serialized process event, field by field, with the offsets of the strings that are present |
| `ProcessEvents.ViewIsCached` | driver/ProcessEvent.h:77-131 | the serializer's updates over any history, failed allocations included, give the cache that the history determines |
| `ProcessEvents.TerminateReportsOldest` | driver/ProcessEvent.h:118-131 | after any history, failed allocations included, the parsed terminate event shows parent and image path (cut to 520 bytes) of the oldest allocated creation of that pid that has not ended, or zero and nothing; the pid is then uncached |
| `ProcessEvents.CreateReportsWhole` | driver/ProcessEvent.h:77-117 | after any history, the parsed create event shows operation 0, the pid, the notification's own parent, the image name if the open name was available, the command line, and as parent path that of the parent's oldest allocated creation that has not ended, this one included if it was allocated, or nothing |
| `EndToEnd.Enqueue` | driver/AsyncEventDispatcher.cpp:123-150 | inactive: nothing; no memory or too long: one drop and no signal; otherwise exactly what `ProduceSlot` does with the event's image, never refused as too large |
| `EndToEnd.FileRunRespects` | driver/AsyncEventDispatcher.cpp:138-149 | runs fed by `Enqueue` meet the condition on payloads by themselves |
| `EndToEnd.FileEventsArrive` | driver/AsyncEventDispatcher.cpp:123-287 | over every run whose calls are those `Enqueue` makes for a given list of events: each claim is one of these events, none is claimed twice, one not claimed was refused or is still waiting, and the messages read show, field by field and in claim order, exactly the claimed events without the poisoned ones |
| `ProcessCache.ProcessCache.constructor` | driver/ProcessNode.h:67-78 | an empty cache with exact statistics |
| `ProcessCache.ProcessCache.Find` | driver/ProcessNode.h:218-239 | finds the entry exactly when the pid is in the map, and then the map's entry |
| `ProcessCache.ProcessCache.AddProcess` | driver/ProcessNode.cpp:23-73 | the map gains the entry with its path cut to 520 bytes, a cached pid keeps its old entry, and the statistics follow |
| `ProcessCache.ProcessCache.RemoveProcess` | driver/ProcessNode.cpp:75-103 | the map loses exactly that pid, and the statistics follow |
| `ProcessCache.ProcessCache.GetProcessContext` | driver/ProcessNode.cpp:105-127 | returns the map's entry; hits plus misses equals gets |
| `ProcessCache.ProcessCache.IsProcessCached` | driver/ProcessNode.cpp:141-145 | true exactly when the map has the pid |
| `ProcessCache.ProcessCache.GetOrPopulate` | driver/ProcessNode.h:121-176 | the map gains what the kernel knows only on a miss, and the entry returned is the map's |
| `ProcessCache.ProcessCache.Cleanup` | driver/ProcessNode.cpp:7-21 | empties the map and leaves the statistics, which are then no longer exact |
| `ProcessCache.CutKeepsFront` | driver/ProcessNode.cpp:43-45 | a path of at most 520 bytes is kept whole, a longer one keeps exactly its first 520 bytes |
| `ProcessCache.CacheHoldsOldestOpen` | driver/ProcessNode.cpp:23-103 | after any history the cache holds, for each pid, the oldest creation that has not ended, and nothing else |
| `RuleTable.HashRespectsCase` | driver/Rule.cpp:35-49 | paths equal up to case have equal hashes |
| `RuleTable.MatchIffUpperEqual` | driver/Rule.cpp:41-49 | two paths match exactly when their upper-cased forms are the same |
| `RuleTable.ChainFindsEarliest` | driver/Globals.cpp:73-90 | searching one chain finds the earliest match of the whole insertion-ordered list |
| `RuleTable.ChainDropsEarliest` | driver/Globals.cpp:92-99 | removing it changes its own chain as the list changes, and no other chain |
| `RuleTable.CounterExactIff` | driver/Globals.cpp:64-102 | an operation keeps the whitelist counter equal to the number of allow rules if and only if an insertion does not wrap it and a removal reads an action that agrees with the removed rule, or reads allow while the counter is zero |
| `RuleTable.CounterExactOverHistory` | driver/Globals.cpp:50-105 | over every history whose removals read the right action, a whitelist is in force exactly when some rule allows |
| `RuleTable.LookupAfterHistory` | driver/Globals.cpp:54-105 | after any history, a lookup in any spelling gives the path and action of the earliest insertion for the path not yet removed, and nothing when there is none |
| `RuleTable.FreedEntryMisread` | driver/Globals.cpp:99-102 | one insertion and one removal that misreads leave a whitelist in force with no rule |
| `RuleTable.InsertThenRemove` | driver/Globals.cpp:54-105 | a rule for a new path is found under any spelling and its removal undoes it; one for a path with a rule is shadowed |
| `RuleTable.Globals.constructor` | driver/Globals.cpp:3-16 | an empty table with a zero counter |
| `RuleTable.Globals.InsertRule` | driver/Globals.cpp:54-71 | the list gains the rule at its end and the counter follows, unless there is no memory |
| `RuleTable.Globals.LookupRule` | driver/Globals.cpp:73-90 | returns the earliest inserted rule that matches up to case, and none exactly when none matches |
| `RuleTable.Globals.RemoveRule` | driver/Globals.cpp:92-105 | the list loses exactly the earliest match; the counter goes by the action that was read |
| `BoundedQueue.PushKeeps` | kasvc/include/common/thread_safe_queue.h:23-67 | a push, on entry or back from its wait, keeps the queue's invariant whichever popper is notified |
| `BoundedQueue.PopKeeps` | kasvc/include/common/thread_safe_queue.h:70-106 | a pop keeps it whichever pusher is notified |
| `BoundedQueue.StepKeeps` | kasvc/include/common/thread_safe_queue.h:23-135 | so does every step, with timeouts, spurious wake-ups, `Close` and `Clear` |
| `BoundedQueue.LogsAreReturns` | kasvc/include/common/thread_safe_queue.h:23-135 | the logs are what the calls of the run returned |
| `BoundedQueue.DeliversInOrder` | kasvc/include/common/thread_safe_queue.h:23-106 | after every run at most `max` items are held, and the items popped or cleared followed by those held are the pushed ones in push order |
| `BoundedQueue.NoLostWakeup` | kasvc/include/common/thread_safe_queue.h:26-134 | after every run a sleeping popper means no more items than signalled poppers, a sleeping pusher no more free places than signalled pushers, and once closed nobody sleeps |
| `BoundedQueue.SleeperHasHelper` | kasvc/include/common/thread_safe_queue.h:70-85 | whenever a popper sleeps beside a waiting item, some thread can step and take it |
| `BoundedQueue.SleepingPusherHasHelper` | kasvc/include/common/thread_safe_queue.h:23-35 | whenever a pusher sleeps beside a free place, some thread can step and fill it with its own item |
| `BoundedQueue.FailureMeans` | kasvc/include/common/thread_safe_queue.h:23-106 | `Push` and `Pop` fail only on a closed queue, `Pop` only when it is also empty; the timed calls otherwise only on a full or empty one |
| `BoundedQueue.WaitersKeepTheirCalls` | kasvc/include/common/thread_safe_queue.h:23-106 | after every run, a waiting pusher holds the item of its own latest call, and every waiting thread came by the kind of call, timed or not, that it made |
| `BoundedQueue.TimedPushReturns` | kasvc/include/common/thread_safe_queue.h:52-67 | a timed push whose time is up while it waits returns, whatever happens until it gets the mutex |
| `BoundedQueue.TimedPopReturns` | kasvc/include/common/thread_safe_queue.h:88-106 | so does a timed pop |
| `BoundedQueue.ClosedFollows` | kasvc/include/common/thread_safe_queue.h:118-123 | after any steps the queue is closed exactly if it was before or one of them closed it |
| `BoundedQueue.ClearEmpties` | kasvc/include/common/thread_safe_queue.h:130-135 | clearing leaves the queue empty and every pusher awake, and the poppers as they were |
| `BoundedQueue.ClosedAcceptsNothing` | kasvc/include/common/thread_safe_queue.h:30-123 | once closed, no run accepts another item |
| `BoundedQueue.ClosedStillDrains` | kasvc/include/common/thread_safe_queue.h:77-123 | a closed queue still delivers everything it holds, in order and without waiting, and then reports that it is empty |
| `BoundedQueue.ThreadSafeQueue.Push` | kasvc/include/common/thread_safe_queue.h:23-67 | one stretch of `Push` or `TryPush` inside the mutex, with its whole new state |
| `BoundedQueue.ThreadSafeQueue.Pop` | kasvc/include/common/thread_safe_queue.h:70-106 | one stretch of `Pop` or `TryPop` inside the mutex, with its whole new state |
| `BoundedQueue.ThreadSafeQueue.Close` | kasvc/include/common/thread_safe_queue.h:118-123 | closes and wakes everybody |
| `BoundedQueue.ThreadSafeQueue.Clear` | kasvc/include/common/thread_safe_queue.h:130-135 | empties the queue, wakes every pusher and no popper |

## Left out

- Steps are sequentially consistent. The header stores after a swap are one step, the payload copy is one step, and the worker's `Free` store and head advance are one step with its look at the slot; weak memory effects are not modelled.
- A step that would read or write outside the ring is not a step of the system; `RingTheorems.EveryAccessInside` proves that none is refused for that reason.
- Dispatcher.AsyncEventDispatcher.ProduceSlot: models a call that nobody disturbs, so every swap succeeds; interleaved calls are the step system's.
- Dispatcher.AsyncEventDispatcher.ConsumeOne: models a drain during which producers pause, and demands that no slot it reaches lacks its header and none it skips as stuck has a live producer; interleaved drains are the step system's, and `RingLimits` shows both demands necessary. The branch for an unexpected free slot is then not taken and appears only in the step system.
- EventBuffer.Buffer.WriteBytes: demands that current size plus length stay below 2^32, because beyond that the code's test lets a copy run past its memory; `EventBuffer.SizeTestExactWhen` states the exact condition.
- FieldSerializer.Serializer.WriteHead: demands room below 2^32 for the same reason.
- FieldSerializer.Serializer.WriteField: demands room below 2^32 for the same reason.
- FieldSerializer.Serializer.WriteFields: demands room below 2^32 for the same reason.
- EventSerializers.AppendString: demands a buffer at least 65536 bytes below 2^32, for the same reason.
- EventSerializers.SerializeFileEvent: demands a buffer at least 65536 bytes below 2^32, for the same reason; every buffer of the driver is 32768 bytes.
- ProcessEvents.WriteCreation: demands the same of its buffer.
- ProcessEvents.WriteTermination: demands the same of its buffer.
- ProcessEvents.SerializeProcessEvent: demands the same of its buffer, and models one notification at a time; concurrent notifications, entry reference counts and times are not modelled.
- ProcessEvents.TerminateReportsOldest: speaks of histories in which every notification is serialized into a buffer that takes the blank record, as those of 32768 bytes do.
- EventWire.StringReadsBack: keeps strings as 16-bit units; the conversion to UTF-8 is a library call.
- RuleTable.Globals.RemoveRule: takes the action read from freed memory as a parameter; the lifetime of rule entries, lookups that run beside updates, and table teardown are not modelled.
- BoundedQueue.ThreadSafeQueue.Push: is one stretch inside the mutex, not the whole call with its waits; whole calls are runs of the step system. Moving and copying items, and `Empty`, `Size` and `IsClosed`, are left out.
- BoundedQueue.ThreadSafeQueue.Pop: is one stretch inside the mutex, likewise.
- Order of slot sequence numbers: they are taken after the claim, so they do not follow ring position across producers.
- Parsing of network events: the driver emits none, and their addresses are formatted by library calls. The `type` field of an event is never set by the parser.
- svc/main.go: its parser reads strings right after the file record and ignores the offsets, so it is not the inverse of this format.
- Kernel services (allocation, clocks, sends, process queries, thread creation) are parameters or arbitrary results of steps.
- The I/O communicator, publisher, configuration, logging, ETW, volume, USB and stream-context code: plumbing around the modelled logic.
