/**
 Runs of the code, from start-up, that break the ring when one of the conditions is dropped.  Every call
 in them is one that `Enqueue` makes.
 */
module RingWitnesses {
  import opened Wrappers
  import opened Bytes
  import opened RingLayout
  import opened RingProtocol
  import opened RingInvariant
  import opened RingWorkerSteps
  import opened RingSolo
  import opened RingLimits
  import opened EndToEnd
  import EventSerializers

  /** One run after another. */
  lemma {:induction false} Joined(t: Trail, u: Trail) returns (v: Trail)
    requires Walked(t) && Walked(u) && u.from == t.now
    ensures Walked(v) && v.from == t.from && v.now == u.now && Fed(v) == Fed(t) + Fed(u)
    ensures Clean(t) && Clean(u) ==> Clean(v)
    decreases |u.steps|
  {
    if u.steps == [] {
      v := t;
      assert Fed(t) + [] == Fed(t);
    } else {
      FirstStep(u);
      hide Walked, Clean, Fed, Enabled, Assumed, Apply;
      var step := u.steps[0];
      var t1, rest := Then(t, step), Trail(Apply(u.from, step), u.steps[1..], u.now);
      v := Joined(t1, rest);
      Reassociate(Fed(t), if step.Start? then [Call(step.p, step.payload)] else [], Fed(rest));
    }
  }

  /** A run is its first step and a run from there. */
  lemma FirstStep(u: Trail)
    requires Walked(u) && u.steps != []
    ensures Enabled(u.from, u.steps[0])
    ensures var step, rest := u.steps[0], Trail(Apply(u.from, u.steps[0]), u.steps[1..], u.now);
            && Walked(rest)
            && Fed(u) == (if step.Start? then [Call(step.p, step.payload)] else []) + Fed(rest)
            && (!step.Start? ==> Fed(u) == Fed(rest))
            && (Clean(u) ==> Assumed(u.from, step) && Clean(rest))
  {
    hide Enabled, Assumed, Apply;
  }

  // ---- events of a given size ---------------------------------------------------------------------

  /** A file event that serializes to `n` bytes. */
  function Sized(n: nat): EventSerializers.FileFacts
    requires 66 <= n <= EVENT_BUFFER
  {
    EventSerializers.FileFacts(100, 0, 4, [], seq(n - 66, _ => 65))
  }

  function Payload(n: nat): (bytes: seq<byte>)
    requires 66 <= n <= EVENT_BUFFER
    ensures |bytes| == n && FromFile(bytes)
  {
    BytesLength(Sized(n));
    assert FitsBuffer(Sized(n));
    EventBytes(Sized(n))
  }

  /** Every call of the run was made by `Enqueue`. */
  ghost predicate FileFed(t: Trail) {
    forall i :: 0 <= i < |Fed(t)| ==> FromFile(Fed(t)[i].payload)
  }

  // ---- a claim that takes the last free byte -----------------------------------------------------

  const EIGHTH: nat := 32768
  const EIGHTH_PAYLOAD: nat := 32740

  /** Between calls, with `k` committed events of an eighth of the ring each and nothing read. */
  predicate Eighths(s: State, k: nat) {
    && s.active && !s.stopSignalled && !s.stopping && s.producers == map[] && s.worker == Parked(false)
    && s.ring.writeHead == k * EIGHTH && s.ring.readHead == 0 && s.h.r == 0
    && |s.h.slots| == k && s.h.consumed == []
    && (forall i :: 0 <= i < k ==>
          s.h.slots[i].phase.Committed? && !s.h.slots[i].pad && s.h.slots[i].stride == EIGHTH)
  }

  lemma AddEighth(s: State, k: nat) returns (t: Trail)
    requires Eighths(s, k) && Inv(s) && k < 8
    ensures Walked(t) && t.from == s && FileFed(t) && Eighths(t.now, k + 1) && t.now.ring.dataReady
    ensures Inv(t.now) <==> k < 7
  {
    hide Walked, Clean, Fed, FileFed, FromFile, Inv, Stride, Produced, CallSlots, Safe, Outstanding, Payload, CallDone, Eighths;
    var bytes := Payload(EIGHTH_PAYLOAD);
    EighthSafe(s, k);
    t := CallKeepsInvariantIff(s, 0, bytes, 1);
    EighthDone(s, bytes, t.now, k);
    FedOne(t, bytes);
  }

  lemma FedOne(t: Trail, bytes: seq<byte>)
    requires |Fed(t)| == 1 && Fed(t)[0].payload == bytes && FromFile(bytes)
    ensures FileFed(t)
  {
  }

  lemma EighthSafe(s: State, k: nat)
    requires Eighths(s, k) && k < 8
    ensures s.active && s.producers == map[] && (Safe(s.ring, EIGHTH_PAYLOAD) <==> k < 7)
  {
    EighthFits(s.ring, k);
  }

  lemma EighthDone(s: State, bytes: seq<byte>, s': State, k: nat)
    requires CallDone(s, 0, bytes, 1, s') && |bytes| == EIGHTH_PAYLOAD && Eighths(s, k) && k < 8
    ensures Eighths(s', k + 1) && s'.ring.dataReady
  {
    EighthCall(s, bytes, k);
    hide Produced, CallSlots;
    EighthAdded(s, s', CallSlots(s, 0, bytes, 1), k);
  }

  lemma EighthAdded(s: State, s': State, more: seq<Slot>, k: nat)
    requires Eighths(s, k) && s' == s.(ring := s'.ring, h := s'.h)
    requires s'.ring.writeHead == (k + 1) * EIGHTH && s'.ring.readHead == 0
    requires |more| == 1 && more[0].phase.Committed? && !more[0].pad && more[0].stride == EIGHTH
    requires s'.h.r == s.h.r && s'.h.slots == s.h.slots + more && s'.h.consumed == s.h.consumed
    ensures Eighths(s', k + 1)
  {
  }

  lemma EighthCall(s: State, bytes: seq<byte>, k: nat)
    requires k < 8 && s.ring.writeHead == k * EIGHTH && s.ring.readHead == 0 && |bytes| == EIGHTH_PAYLOAD
    ensures var ring := Produced(s.ring, bytes, 1).0;
            ring.writeHead == (k + 1) * EIGHTH && ring.readHead == 0 && ring.dataReady
    ensures var more := CallSlots(s, 0, bytes, 1);
            |more| == 1 && more[0].phase.Committed? && !more[0].pad && more[0].stride == EIGHTH
  {
    EighthFits(s.ring, k);
    hide Stride, Fits, NeedsWrap;
  }

  lemma EighthFits(ring: Ring, k: nat)
    requires k < 8 && ring.writeHead == k * EIGHTH && ring.readHead == 0
    ensures Stride(EIGHTH_PAYLOAD) == EIGHTH
    ensures Fits(ring, EIGHTH_PAYLOAD) && !NeedsWrap(ring, EIGHTH_PAYLOAD)
    ensures Safe(ring, EIGHTH_PAYLOAD) <==> k < 7
    ensures U32(ring.writeHead + EIGHTH) == (k + 1) * EIGHTH
  {
    hide Wrapped;
    RoundUp(EIGHTH);
    assert Masked(ring.writeHead) == k * EIGHTH && Used(ring.writeHead, ring.readHead) == k * EIGHTH;
  }

  lemma JoinedFed(t: Trail, u: Trail) returns (v: Trail)
    requires Walked(t) && Walked(u) && u.from == t.now && FileFed(t) && FileFed(u)
    ensures Walked(v) && v.from == t.from && v.now == u.now && FileFed(v)
    ensures Clean(t) && Clean(u) ==> Clean(v)
  {
    hide Walked, Clean, FromFile, Fed;
    v := Joined(t, u);
  }

  /** Up to seven such events, one after the other, from start-up. */
  lemma {:induction false} FillEighths(ticksPerMs: u64, k: nat) returns (t: Trail)
    requires k <= 7
    ensures Walked(t) && t.from == Init(ticksPerMs) && FileFed(t)
    ensures Eighths(t.now, k) && Inv(t.now)
  {
    InitInv(ticksPerMs);
    hide Walked, Fed, Inv, Eighths;
    if k == 0 {
      t := Begin(Init(ticksPerMs));
      NoEighths(ticksPerMs);
    } else {
      var t1 := FillEighths(ticksPerMs, k - 1);
      var t2 := AddEighth(t1.now, k - 1);
      t := JoinedFed(t1, t2);
    }
  }

  lemma NoEighths(ticksPerMs: u64)
    ensures Eighths(Init(ticksPerMs), 0)
  {
  }

  /** Eight events of an eighth of the ring each are accepted one after the other and fill the ring to
      the last byte.  The heads then read as an empty ring: the worker, woken, sleeps again with eight
      committed events in front of it, no signal pending and no call in progress. */
  lemma FullRingLooksEmpty(ticksPerMs: u64) returns (t: Trail)
    ensures Walked(t) && t.from == Init(ticksPerMs) && FileRun(t.steps)
    ensures Eighths(t.now, 8) && !t.now.ring.dataReady
    ensures Used(t.now.ring.writeHead, t.now.ring.readHead) == 0
    ensures !Inv(t.now)
  {
    hide Walked, Inv, FromFile;
    var t7 := FillEighths(ticksPerMs, 7);
    var t8 := AddEighth(t7.now, 7);
    var u := JoinedFed(t7, t8);
    t := WokenForNothing(u);
    FileFedRuns(u, t);
  }

  lemma WokenForNothing(u: Trail) returns (t: Trail)
    requires Walked(u) && Eighths(u.now, 8) && u.now.ring.dataReady
    ensures Walked(t) && Onward(u, t) && Eighths(t.now, 8) && !t.now.ring.dataReady && !Inv(t.now)
    ensures Used(t.now.ring.writeHead, t.now.ring.readHead) == 0
  {
    hide Walked, Clean, Fed, BookInv, CallInv, Stored;
    var t1 := Then(u, Wake(OnData));
    assert t1.now == DoWake(u.now, OnData);
    t := Then(t1, Poll);
    assert t.now == DoPoll(t1.now);
    var s := t.now;
    WrappedHeadsAreExact(RING, 0);
    assert U32(RING) == RING;
    if Tiling(s.h.slots, s.h.r, s.h.w) {
      assert s.h.w == s.h.w % TWO32;
    }
  }

  // ---- a wrap over a tail too short for a header --------------------------------------------------

  /** The worker, asleep with the event set, wakes and copies the head event out. */
  lemma ConsumeHead(t: Trail) returns (u: Trail)
    requires Walked(t) && Inv(t.now) && t.now.worker == Parked(false) && t.now.ring.dataReady && !t.now.stopSignalled
    requires t.now.h.slots != [] && t.now.h.slots[0].phase.Committed? && !t.now.h.slots[0].pad
    ensures Walked(u) && Onward(t, u) && Inv(u.now) && (Clean(t) ==> Clean(u))
    ensures u.now.worker == Holding(t.now.h.slots[0].payload)
    ensures u.now.producers == t.now.producers && u.now.active == t.now.active
    ensures u.now.ring == t.now.ring.(mem := u.now.ring.mem, dataReady := false,
                                      readHead := U32(t.now.ring.readHead + t.now.h.slots[0].stride))
    ensures u.now.h.slots == t.now.h.slots[1..]
  {
    hide Walked, Clean, Fed, Inv;
    var t1 := LookAtHead(t);
    var s := t1.now;
    InspectEffect(s, s.h.slots[0]);
    InspectKeeps(s);
    u := ThenInspect(t1);
    hide DoInspect, InspectInBounds, HeadSeen;
  }

  lemma ThenInspect(t: Trail) returns (u: Trail)
    requires Walked(t) && t.now.worker.Peeking? && InspectInBounds(t.now.ring)
    ensures Walked(u) && Onward(t, u) && u.now == DoInspect(t.now)
    ensures Clean(u) <==> Clean(t) && HeaderVisible(t.now)
  {
    u := Then(t, Inspect);
  }

  lemma WakeUp(t: Trail) returns (u: Trail)
    requires Walked(t) && t.now.worker == Parked(false) && !t.now.stopSignalled
    ensures Walked(u) && Onward(t, u)
    ensures u.now == t.now.(worker := Draining, ring := t.now.ring.(dataReady := false))
    ensures Clean(u) <==> Clean(t)
  {
    u := Then(t, Wake(if t.now.ring.dataReady then OnData else OnTimeout));
  }

  lemma PollFinds(t: Trail) returns (u: Trail)
    requires Walked(t) && t.now.worker.Draining? && Used(t.now.ring.writeHead, t.now.ring.readHead) != 0
    ensures Walked(u) && Onward(t, u) && u.now == t.now.(worker := Peeking)
    ensures Clean(u) <==> Clean(t)
  {
    u := Then(t, Poll);
  }

  /** The sleeping worker wakes and finds something in the ring. */
  lemma LookAtHead(t: Trail) returns (u: Trail)
    requires Walked(t) && Inv(t.now) && t.now.worker == Parked(false) && !t.now.stopSignalled
    requires t.now.h.slots != [] && !t.now.h.slots[0].phase.Reserved?
    ensures Walked(u) && Onward(t, u) && Inv(u.now) && (Clean(t) ==> Clean(u))
    ensures u.now == t.now.(worker := Peeking, ring := t.now.ring.(dataReady := false))
    ensures HeadSeen(u.now, u.now.h.slots[0]) && InspectInBounds(u.now.ring)
  {
    hide Walked, Clean, Fed, Inv, InspectInBounds;
    var t1 := WakeUp(t);
    WakeKeeps(t.now, if t.now.ring.dataReady then OnData else OnTimeout);
    HeadOccupied(t1.now);
    u := PollFinds(t1);
    PollKeeps(t1.now);
    HeadFound(u.now);
    HeadInside(u.now, u.now.h.slots[0]);
  }

  lemma HeadOccupied(s: State)
    requires Inv(s) && s.h.slots != []
    ensures Used(s.ring.writeHead, s.ring.readHead) != 0
  {
    hide CallInv, BookInv, Stored;
    WrappedHeadsAreExact(s.h.w, s.h.r);
  }

  const NEAR_END: nat := 262136
  const SHORT_PAYLOAD: nat := 32732

  /** The eighth event stops eight bytes short of the end of the ring. */
  lemma AddShortEighth(s: State) returns (t: Trail)
    requires Eighths(s, 7) && Inv(s)
    ensures Walked(t) && t.from == s && FileFed(t) && Inv(t.now) && t.now == s.(ring := t.now.ring, h := t.now.h)
    ensures t.now.ring.writeHead == NEAR_END && t.now.ring.readHead == 0 && t.now.ring.dataReady
    ensures |t.now.h.slots| == 8 && t.now.h.slots[0] == s.h.slots[0]
  {
    hide Walked, Clean, Fed, FileFed, FromFile, Inv, Stride, Produced, CallSlots, Safe, Outstanding, Payload, CallDone;
    var bytes := Payload(SHORT_PAYLOAD);
    ShortEighthCall(s, bytes);
    t := CallKeepsInvariantIff(s, 0, bytes, 1);
    ShortEighthDone(s, bytes, t.now);
    FedOne(t, bytes);
  }

  lemma ShortEighthDone(s: State, bytes: seq<byte>, s': State)
    requires CallDone(s, 0, bytes, 1, s') && |bytes| == SHORT_PAYLOAD && Eighths(s, 7)
    ensures s' == s.(ring := s'.ring, h := s'.h)
    ensures s'.ring.writeHead == NEAR_END && s'.ring.readHead == 0 && s'.ring.dataReady
    ensures |s'.h.slots| == 8 && s'.h.slots[0] == s.h.slots[0]
  {
    ShortEighthCall(s, bytes);
    hide Safe, Produced, CallSlots;
  }

  lemma ShortEighthCall(s: State, bytes: seq<byte>)
    requires s.ring.writeHead == 7 * EIGHTH && s.ring.readHead == 0 && |bytes| == SHORT_PAYLOAD
    ensures Safe(s.ring, SHORT_PAYLOAD)
    ensures var ring := Produced(s.ring, bytes, 1).0;
            ring.writeHead == NEAR_END && ring.readHead == 0 && ring.dataReady
    ensures |CallSlots(s, 0, bytes, 1)| == 1
  {
    ShortEighthFits(s.ring);
    hide Stride, Fits, NeedsWrap, Wrapped, Safe;
  }

  lemma ShortEighthFits(ring: Ring)
    requires ring.writeHead == 7 * EIGHTH && ring.readHead == 0
    ensures Stride(SHORT_PAYLOAD) == 32760 && Safe(ring, SHORT_PAYLOAD)
    ensures Fits(ring, SHORT_PAYLOAD) && !NeedsWrap(ring, SHORT_PAYLOAD)
    ensures U32(ring.writeHead + 32760) == NEAR_END
  {
    hide Wrapped;
    RoundUp(32760);
    assert Masked(ring.writeHead) == 229376 && Used(ring.writeHead, ring.readHead) == 229376;
  }

  /** Nine accepted events and one read leave an eight-byte stretch between two slots that holds no
      header and that nobody is going to write. */
  lemma ShortTailLeftBehind(ticksPerMs: u64) returns (t: Trail)
    ensures Walked(t) && t.from == Init(ticksPerMs) && FileRun(t.steps) && t.now.producers == map[]
    ensures var slots := t.now.h.slots;
            |slots| == 9 && slots[7].stride == 8 && slots[7].phase.Reserved? && slots[8].phase.Committed?
    ensures !Inv(t.now)
  {
    hide Walked, Inv, FromFile;
    var t7 := FillEighths(ticksPerMs, 7);
    var t8 := AddShortEighth(t7.now);
    var u := JoinedFed(t7, t8);
    var v := ConsumeHead(u);
    var t9 := AddOverTail(v.now);
    t := JoinedFed(v, t9);
    FileFedRuns(t, t);
  }

  lemma AddOverTail(s: State) returns (t: Trail)
    requires Inv(s) && s.active && s.producers == map[]
    requires s.ring.writeHead == NEAR_END && s.ring.readHead == EIGHTH && |s.h.slots| == 7
    ensures Walked(t) && t.from == s && FileFed(t) && t.now.producers == map[] && !Inv(t.now)
    ensures var slots := t.now.h.slots;
            |slots| == 9 && slots[7].stride == 8 && slots[7].phase.Reserved? && slots[8].phase.Committed?
  {
    hide Walked, Clean, Fed, FileFed, FromFile, Inv, Stride, Produced, CallSlots, Safe, Outstanding, Payload;
    hide Fits, NeedsWrap, Wrapped;
    var bytes := Payload(66);
    OverTailFits(s.ring);
    OverTailSlots(s, bytes);
    t := CallKeepsInvariantIff(s, 0, bytes, 1);
    FedOne(t, bytes);
  }

  lemma OverTailSlots(s: State, bytes: seq<byte>)
    requires |bytes| == 66 && Fits(s.ring, 66) && NeedsWrap(s.ring, 66) && Fits(Wrapped(s.ring), 66)
    requires SpaceToEnd(s.ring.writeHead) == 8
    ensures var more := CallSlots(s, 0, bytes, 1);
            |more| == 2 && more[0].stride == 8 && more[0].phase.Reserved? && more[1].phase.Committed?
  {
    hide Stride, Fits, NeedsWrap, Wrapped;
  }

  lemma OverTailFits(ring: Ring)
    requires ring.writeHead == NEAR_END && ring.readHead == EIGHTH
    ensures Fits(ring, 66) && NeedsWrap(ring, 66) && SpaceToEnd(ring.writeHead) == 8
    ensures Fits(Wrapped(ring), 66) && !Safe(ring, 66)
  {
    RoundUp(HEADER + 66);
    WrapsAtMostOnce(ring, 66);
    assert Used(ring.writeHead, ring.readHead) == NEAR_END - EIGHTH;
  }

  /** What the worker does with such a tail when its bytes read as a free slot: it skips 32 bytes
      and lands inside the header of whatever starts at the beginning of the ring. */
  lemma TailSkipOvershoots(s: State)
    requires s.worker.Peeking? && 0 < SpaceToEnd(s.ring.readHead) < MIN_SKIP && InspectInBounds(s.ring)
    requires StateAt(s.ring.mem, Masked(s.ring.readHead)) == FREE
    ensures 0 < Masked(DoInspect(s).ring.readHead) < MIN_SKIP
  {
    var r := s.ring.readHead;
    assert DoInspect(s).ring.readHead == U32(r + MIN_SKIP) by {
      hide StateAt, FlagsAt, WriteAt, ReadAt, U32;
    }
    hide DoInspect, StateAt, InspectInBounds;
    ModOfMod(r + MIN_SKIP);
    assert r == RING * (r / RING) + Masked(r);
    assert r + MIN_SKIP == RING * (r / RING + 1) + (MIN_SKIP - SpaceToEnd(r));
  }

  // ---- a header seen too late ---------------------------------------------------------------------

  /** A producer reserves a slot of 96 bytes; before it has stored the header the worker looks,
      finds a free slot, and moves into the middle of it. */
  lemma LateHeaderMisleads(ticksPerMs: u64) returns (t: Trail)
    ensures Walked(t) && t.from == Init(ticksPerMs) && FileRun(t.steps)
    ensures |t.now.h.slots| == 1 && t.now.h.slots[0].start == 0 && t.now.h.slots[0].stride == 96
    ensures t.now.ring.readHead == 32 && !Inv(t.now)
  {
    hide Walked, Clean, Fed, Inv;
    var t1 := LateClaim(ticksPerMs);
    var t2 := WakeUp(t1);
    var t3 := PollFinds(t2);
    ZeroStateWord(ticksPerMs);
    t := ThenInspect(t3);
    InsideIsNotTiled(t.now);
    FileFedRuns(t1, t);
  }

  lemma FileFedRuns(t: Trail, u: Trail)
    requires FileFed(t) && Onward(t, u)
    ensures FileRun(u.steps)
  {
    CallsMakeFileRun(u.steps);
  }

  /** The first call, with an event of 66 bytes, has checked the space and is about to swap. */
  predicate FirstReady(s: State, ticksPerMs: u64) {
    && s.producers.Keys == {0} && |s.producers[0].payload| == 66 && !s.producers[0].dead
    && s.producers[0].pc == WantClaim(0, 0, 0)
    && s.ring.writeHead == 0 && s.ring.readHead == 0 && s.ring.mem == Init(ticksPerMs).ring.mem
    && s.ring.poisoned == 0 && s.ring.enqueued == 0
    && s.h.w == 0 && s.h.r == 0 && s.h.base == 0 && s.h.slots == [] && s.h.consumed == [] && s.h.attempts == 1
    && s.worker == Parked(false) && !s.stopSignalled && s.ticksPerMs == ticksPerMs
  }

  lemma FirstCall(ticksPerMs: u64) returns (t: Trail)
    ensures Walked(t) && t.from == Init(ticksPerMs) && Clean(t) && FileFed(t) && FirstReady(t.now, ticksPerMs)
  {
    var s, bytes := Init(ticksPerMs), Payload(66);
    SmallFits(s.ring);
    hide Walked, Clean, Fed, Stride, Fits, NeedsWrap, FromFile, Payload, FirstReady;
    var t1 := Then(Begin(s), Start(0, bytes));
    t := CheckSegment(t1, 0);
    FirstIsReady(ticksPerMs, bytes, t.now);
  }

  lemma SmallFits(ring: Ring)
    requires ring.writeHead == 0 && ring.readHead == 0
    ensures Fits(ring, 66) && !NeedsWrap(ring, 66)
  {
    assert Stride(66) == 96;
  }

  lemma FirstIsReady(ticksPerMs: u64, bytes: seq<byte>, s: State)
    requires |bytes| == 66 && s == SetPc(DoStart(Init(ticksPerMs), 0, bytes), 0, WantClaim(0, 0, 0))
    ensures FirstReady(s, ticksPerMs)
  {
  }

  lemma LateClaim(ticksPerMs: u64) returns (t: Trail)
    ensures Walked(t) && t.from == Init(ticksPerMs) && FileFed(t)
    ensures t.now.worker == Parked(false) && !t.now.stopSignalled && t.now.h.r == 0
    ensures |t.now.h.slots| == 1 && t.now.h.slots[0].start == 0 && t.now.h.slots[0].stride == 96
    ensures t.now.ring.readHead == 0 && t.now.ring.writeHead == 96 && t.now.ring.mem == Init(ticksPerMs).ring.mem
  {
    assert Stride(66) == 96;
    hide Walked, Clean, Fed, Stride, FromFile, Init;
    var t1 := FirstCall(ticksPerMs);
    t := ReserveData(t1, 0);
  }

  lemma ZeroStateWord(ticksPerMs: u64)
    ensures StateAt(Init(ticksPerMs).ring.mem, 0) == FREE
  {
    var mem := Init(ticksPerMs).ring.mem;
    assert ReadAt(mem, 0, 4) == [0, 0, 0, 0];
    assert FromLE([0]) == 0;
    assert [0, 0][1..] == [0] && [0, 0, 0][1..] == [0, 0] && [0, 0, 0, 0][1..] == [0, 0, 0];
    assert FromLE([0, 0]) == 0;
    assert FromLE([0, 0, 0]) == 0;
  }

  // ---- a refusal by an empty ring ---------------------------------------------------------------------

  /** A call has read the write head of an empty ring; before it checks the space, another event is claimed,
      committed and read.  The check then takes the ring for nearly full, and the event is dropped although
      the ring is empty. */
  lemma EmptyRingRefuses(ticksPerMs: u64) returns (t: Trail)
    ensures Walked(t) && t.from == Init(ticksPerMs) && FileRun(t.steps) && Clean(t)
    ensures t.now.h.slots == [] && t.now.h.r == t.now.h.w
    ensures t.now.ring.dropped == 1 && 0 in t.now.producers && t.now.producers[0].pc.ToSignal?
  {
    hide Walked, Clean, Fed, Inv, FromFile;
    var t1 := HeadRead(ticksPerMs);
    var t2 := SecondCall(t1);
    var t3 := ConsumeHead(t2);
    assert t3.now.producers[0] == t1.now.producers[0];
    NothingBetween(t3.now);
    LateCheckRefuses(t3.now.producers[0]);
    t := ThenCheck(t3, 0);
    FileFedRuns(t2, t);
  }

  /** The first call, with an event of 76 bytes, has read the write head. */
  predicate HeadJustRead(s: State) {
    && s.producers.Keys == {0} && !s.producers[0].dead && |s.producers[0].payload| == 76
    && s.producers[0].pc == HaveCur(0, 0, 0)
    && s.ring.writeHead == 0 && s.ring.readHead == 0 && s.ring.dropped == 0 && s.h.slots == []
    && s.active && s.worker == Parked(false) && !s.stopSignalled
  }

  lemma HeadRead(ticksPerMs: u64) returns (t: Trail)
    ensures Walked(t) && t.from == Init(ticksPerMs) && Clean(t) && FileFed(t)
    ensures HeadJustRead(t.now) && Inv(t.now)
  {
    var s, bytes := Init(ticksPerMs), Payload(76);
    InitInv(ticksPerMs);
    hide Walked, Clean, Fed, Inv, FromFile, Payload, HeadJustRead;
    var t1 := Then(Begin(s), Start(0, bytes));
    t := ThenRead(t1, 0);
    HeadReadState(ticksPerMs, bytes);
    Kept(s, t);
  }

  lemma HeadReadState(ticksPerMs: u64, bytes: seq<byte>)
    requires |bytes| == 76
    ensures HeadJustRead(DoRead(DoStart(Init(ticksPerMs), 0, bytes), 0))
  {
  }

  /** Meanwhile an event of 66 bytes goes in. */
  lemma SecondCall(t: Trail) returns (u: Trail)
    requires Walked(t) && Clean(t) && FileFed(t) && HeadJustRead(t.now) && Inv(t.now)
    ensures Walked(u) && u.from == t.from && Clean(u) && FileFed(u) && Inv(u.now)
    ensures u.now.producers == t.now.producers && u.now.worker == Parked(false) && !u.now.stopSignalled
    ensures u.now.ring.readHead == 0 && u.now.ring.dataReady && u.now.ring.dropped == 0
    ensures |u.now.h.slots| == 1 && u.now.h.slots[0].stride == 96
    ensures u.now.h.slots[0].phase.Committed? && !u.now.h.slots[0].pad
  {
    hide Walked, Clean, Fed, FileFed, FromFile, Inv, Stride, Produced, CallSlots, Safe, Outstanding, Payload, CallDone;
    var s, bytes := t.now, Payload(66);
    SmallCall(s, bytes);
    var v := CallKeepsInvariantIff(s, 1, bytes, 1);
    SmallCallDone(s, bytes, v.now);
    FedOne(v, bytes);
    u := JoinedFed(t, v);
  }

  lemma SmallCallDone(s: State, bytes: seq<byte>, s': State)
    requires CallDone(s, 1, bytes, 1, s') && |bytes| == 66 && s.ring.writeHead == 0 && s.ring.readHead == 0
    requires s.h.slots == []
    ensures s' == s.(ring := s'.ring, h := s'.h)
    ensures s'.ring.readHead == 0 && s'.ring.dataReady && s'.ring.dropped == s.ring.dropped
    ensures |s'.h.slots| == 1 && s'.h.slots[0].stride == 96
    ensures s'.h.slots[0].phase.Committed? && !s'.h.slots[0].pad
  {
    SmallCall(s, bytes);
    hide Safe, Produced, CallSlots;
  }

  lemma SmallCall(s: State, bytes: seq<byte>)
    requires s.ring.writeHead == 0 && s.ring.readHead == 0 && |bytes| == 66
    ensures Safe(s.ring, 66)
    ensures var ring := Produced(s.ring, bytes, 1).0;
            ring.readHead == 0 && ring.dataReady && ring.dropped == s.ring.dropped
    ensures var more := CallSlots(s, 1, bytes, 1);
            |more| == 1 && more[0].stride == 96 && more[0].phase.Committed? && !more[0].pad
  {
    SmallFits(s.ring);
    assert Stride(66) == 96;
    hide Stride, Fits, NeedsWrap, Wrapped;
  }

  lemma NothingBetween(s: State)
    requires Inv(s) && s.h.slots == []
    ensures s.h.r == s.h.w
  {
  }

  /** The head that was read is 96 bytes behind the read head now. */
  lemma LateCheckRefuses(pr: Producer)
    requires pr.pc == HaveCur(0, 0, 0) && |pr.payload| == 76
    ensures AfterCheck(pr, 96).ToSignal?
  {
    assert Stride(76) == 104;
    assert Used(0, 96) == RING - 96;
  }

  // ---- a slow producer taken for dead ----------------------------------------------------------------

  /** A producer that is merely slow is skipped, then finishes: one call, counted once as poisoned
      and once as enqueued, whose event is never delivered. */
  lemma SlowProducerCountedTwice() returns (t: Trail)
    ensures Walked(t) && t.from == Init(1) && FileRun(t.steps)
    ensures t.now.h.attempts == 1 && t.now.ring.poisoned == 1 && t.now.ring.enqueued == 1
    ensures t.now.h.consumed == [] && t.now.h.slots == []
  {
    InitInv(1);
    hide Walked, Clean, Fed, Stride, Inv;
    var t2 := SlowClaim();
    Kept(Init(1), t2);
    var t3 := LookAtHead(t2);
    InspectEffect(t3.now, t3.now.h.slots[0]);
    InspectKeeps(t3.now);
    var t4 := ThenInspect(t3);
    hide DoInspect, InspectInBounds;
    HeadFound(t4.now);
    SlowExpires(t4.now);
    t := SlowFinish(t4);
    FileFedRuns(t2, t);
  }

  /** A live producer has stored its header and not gone on. */
  predicate SlowHere(s: State) {
    && s.producers.Keys == {0} && |s.producers[0].payload| == 66 && !s.producers[0].dead
    && s.producers[0].pc == DataClaimed(0, 0)
    && |s.h.slots| == 1 && s.h.slots[0].phase.Claimed? && s.h.slots[0].tick == 1
    && !s.h.slots[0].pad && s.h.slots[0].owner == 0
    && s.ticksPerMs == 1 && !s.stopSignalled
    && s.h.attempts == 1 && s.ring.poisoned == 0 && s.ring.enqueued == 0 && s.h.consumed == []
  }

  lemma SlowClaim() returns (t: Trail)
    ensures Walked(t) && t.from == Init(1) && Clean(t) && FileFed(t)
    ensures SlowHere(t.now) && t.now.worker == Parked(false)
  {
    assert Stride(66) == 96;
    hide Walked, Clean, Fed, FromFile, Stride, HeaderBytes, WriteAt, Init;
    var t2 := FirstCall(1);
    var s, slot := t2.now, NewSlot(t2.now, 0, 96, false);
    var ring := s.ring.(writeHead := 96);
    var t3 := ReserveData(t2, 0);
    t := StoreHeader(t3, s, 0, 0, ring, slot, 1);
    SlowFromIn(t, s, t.now.ring, slot.(phase := Claimed, seqNum := U32(ring.seqCounter + 1), tick := 1));
  }

  lemma SlowFromIn(t: Trail, s: State, ring: Ring, slot: Slot)
    requires In(t, s, 0, DataClaimed(0, 0), ring, slot) && s.producers.Keys == {0}
    requires |s.producers[0].payload| == 66 && s.h.slots == [] && s.ticksPerMs == 1 && !s.stopSignalled
    requires s.worker == Parked(false) && s.h.attempts == 1 && ring.poisoned == 0 && ring.enqueued == 0 && s.h.consumed == []
    requires slot.phase.Claimed? && slot.tick == 1 && !slot.pad && slot.owner == 0
    ensures SlowHere(t.now) && t.now.worker == Parked(false)
  {
    hide Walked;
  }

  lemma Kept(s: State, t: Trail)
    requires Inv(s) && Walked(t) && t.from == s && Clean(t)
    ensures Inv(t.now)
  {
    RunKeeps(s, t.steps);
  }

  lemma SlowExpires(s: State)
    requires SlowHere(s) && HeadSeen(s, s.h.slots[0])
    ensures Expired(s, 501) && Judged(s, DoJudge(s, 501), s.h.slots[0], true)
  {
    JudgeEffect(s, 501);
  }

  /** It is skipped, and then goes on. */
  lemma SlowFinish(t: Trail) returns (u: Trail)
    requires Walked(t) && t.now.worker.Timing? && SlowHere(t.now)
    requires Masked(t.now.ring.readHead) + HEADER <= RING
    requires Judged(t.now, DoJudge(t.now, 501), t.now.h.slots[0], true)
    ensures Walked(u) && Onward(t, u)
    ensures u.now.h.attempts == 1 && u.now.ring.poisoned == 1 && u.now.ring.enqueued == 1
    ensures u.now.h.consumed == [] && u.now.h.slots == []
  {
    hide Walked, Clean, Fed, DoJudge, Expired, WriteAt;
    var t1 := ThenJudge(t, 501);
    var t2 := ThenCopy(t1, 0);
    var t3 := ThenCommit(t2, 0);
    u := ThenCount(t3, 0);
  }
}
