/**
 `ProduceSlot` and `ConsumeOne` as they are written: loops over a byte array and two 32-bit heads,
 each call running alone.  Both are tied to the step system.
 */
module Dispatcher {
  import opened Wrappers
  import opened Bytes
  import opened RingLayout
  import opened RingProtocol
  import opened RingInvariant
  import opened RingWorkerSteps
  import opened RingSolo

  // ---- what one drain step returns ---------------------------------------------------------------

  /** An event claimed 500 milliseconds' worth of ticks ago or more, on a 64-bit counter. */
  predicate Stuck(slot: Slot, now: u64, ticksPerMs: u64) {
    && !slot.pad && slot.tick > 0 && ticksPerMs > 0
    && (if slot.tick <= now then now - slot.tick >= 500 * ticksPerMs
        else now + 0x1_0000_0000_0000_0000 - slot.tick >= 500 * ticksPerMs)
  }

  /** The slots left and the event read by one `ConsumeOne`: pads and stuck slots are passed over, the
      first committed event is taken, and an unfinished slot stops the search.  `clock(i)` is the time
      read, if it is, when `i` slots have been passed. */
  function NextEvent(slots: seq<Slot>, clock: nat -> u64, i: nat, ticksPerMs: u64): (r: (seq<Slot>, Option<seq<byte>>))
    ensures |r.0| <= |slots|
  {
    if slots == [] then (slots, None)
    else if slots[0].phase.Committed? then
      if slots[0].pad then NextEvent(slots[1..], clock, i + 1, ticksPerMs) else (slots[1..], Some(slots[0].payload))
    else if Stuck(slots[0], clock(i), ticksPerMs) then NextEvent(slots[1..], clock, i + 1, ticksPerMs)
    else (slots, None)
  }

  lemma NextEventEmpty(clock: nat -> u64, i: nat, ticksPerMs: u64)
    ensures NextEvent([], clock, i, ticksPerMs) == ([], None)
  {
  }

  lemma NextEventStep(slots: seq<Slot>, clock: nat -> u64, i: nat, ticksPerMs: u64)
    requires slots != []
    ensures var slot := slots[0];
            NextEvent(slots, clock, i, ticksPerMs) ==
              if slot.phase.Committed? && !slot.pad then (slots[1..], Some(slot.payload))
              else if slot.phase.Committed? || Stuck(slot, clock(i), ticksPerMs) then
                NextEvent(slots[1..], clock, i + 1, ticksPerMs)
              else (slots, None)
  {
  }

  /** What is left is an end part of the slots: nothing is taken out of order. */
  lemma {:induction false} NextEventLeavesEnd(slots: seq<Slot>, clock: nat -> u64, i: nat, ticksPerMs: u64)
    ensures var rest := NextEvent(slots, clock, i, ticksPerMs).0;
            exists k :: 0 <= k <= |slots| && rest == slots[k..]
    decreases |slots|
  {
    if slots == [] {
      assert slots[0..] == slots;
      return;
    }
    NextEventStep(slots, clock, i, ticksPerMs);
    NextEventLeavesEnd(slots[1..], clock, i + 1, ticksPerMs);
    hide NextEvent, Stuck;
    var k :| 0 <= k <= |slots[1..]| && NextEvent(slots[1..], clock, i + 1, ticksPerMs).0 == slots[1..][k..];
    assert slots[1..][k..] == slots[k + 1..] && slots[0..] == slots;
  }

  /** If nothing comes out, the slot that stopped the search is neither committed nor, at the time it was
      looked at, stuck. */
  lemma {:induction false} NextEventStops(slots: seq<Slot>, clock: nat -> u64, i: nat, ticksPerMs: u64)
    ensures var (rest, event) := NextEvent(slots, clock, i, ticksPerMs);
            event.None? && rest != [] ==>
              var slot, now := rest[0], clock(i + |slots| - |rest|);
              && !slot.phase.Committed? && !Stuck(slot, now, ticksPerMs)
              && (!slot.pad && 0 < slot.tick <= now && ticksPerMs > 0 ==> now - slot.tick < 500 * ticksPerMs)
    decreases |slots|
  {
    if slots == [] {
      NextEventEmpty(clock, i, ticksPerMs);
      return;
    }
    NextEventStep(slots, clock, i, ticksPerMs);
    hide NextEvent, Stuck;
    var rest, tail := NextEvent(slots, clock, i, ticksPerMs).0, slots[1..];
    NextEventStops(tail, clock, i + 1, ticksPerMs);
    assert i + 1 + |tail| - |rest| == i + |slots| - |rest|;
  }

  /** With every slot committed, what comes out is the oldest outstanding event, and nothing comes
      out only when there is none. */
  lemma {:induction false} NextEventIsOldest(slots: seq<Slot>, clock: nat -> u64, i: nat, ticksPerMs: u64)
    requires forall k :: 0 <= k < |slots| ==> slots[k].phase.Committed?
    ensures var (rest, event) := NextEvent(slots, clock, i, ticksPerMs);
            match event
            case Some(bytes) => Outstanding(slots) == [bytes] + Outstanding(rest)
            case None => Outstanding(slots) == [] && rest == []
  {
    if slots != [] {
      if slots[0].pad {
        NextEventIsOldest(slots[1..], clock, i + 1, ticksPerMs);
      }
    }
  }

  // ---- the worker's steps in one call ---------------------------------------------------------------

  /** On its way the call meets no slot whose header is still to come, and takes no live producer's slot
      for stuck. */
  predicate Drainable(slots: seq<Slot>, producers: map<Pid, Producer>, clock: nat -> u64, i: nat, ticksPerMs: u64) {
    slots != [] ==>
      && !slots[0].phase.Reserved?
      && (slots[0].phase.Committed? && slots[0].pad ==> Drainable(slots[1..], producers, clock, i + 1, ticksPerMs))
      && (!slots[0].phase.Committed? && Stuck(slots[0], clock(i), ticksPerMs) ==>
            && (slots[0].owner in producers ==> producers[slots[0].owner].dead)
            && Drainable(slots[1..], producers, clock, i + 1, ticksPerMs))
  }

  /** Losing a producer does no harm. */
  lemma {:induction false} DrainableFewer(slots: seq<Slot>, producers: map<Pid, Producer>, fewer: map<Pid, Producer>,
                                          clock: nat -> u64, i: nat, ticksPerMs: u64)
    requires Drainable(slots, producers, clock, i, ticksPerMs)
    requires forall p :: p in fewer ==> p in producers && fewer[p] == producers[p]
    ensures Drainable(slots, fewer, clock, i, ticksPerMs)
  {
    hide Stuck;
    if slots != [] && (if slots[0].phase.Committed? then slots[0].pad else Stuck(slots[0], clock(i), ticksPerMs)) {
      DrainableFewer(slots[1..], producers, fewer, clock, i + 1, ticksPerMs);
    }
  }

  /** A clean run of the worker alone. */
  predicate DrainRun(t: Trail, s: State) {
    Walked(t) && Clean(t) && t.from == s && Inv(t.now)
  }

  lemma PollEmpty(t: Trail, s: State) returns (t': Trail)
    requires DrainRun(t, s) && t.now.worker.Draining? && Used(t.now.ring.writeHead, t.now.ring.readHead) == 0
    ensures DrainRun(t', s) && t'.now.ring == t.now.ring && t'.now.h == t.now.h && t.now.h.slots == []
  {
    hide CallInv, Stored, Walked, Clean;
    WrappedHeadsAreExact(t.now.h.w, t.now.h.r);
    hide RingInv, BookInv;
    PollKeeps(t.now);
    t' := Then(t, Poll);
  }

  lemma PollHead(t: Trail, s: State) returns (t': Trail)
    requires DrainRun(t, s) && t.now.worker.Draining? && Used(t.now.ring.writeHead, t.now.ring.readHead) != 0
    requires HeaderVisible(t.now)
    ensures DrainRun(t', s) && t'.now == t.now.(worker := Peeking)
    ensures t'.now.h.slots != [] && HeadSeen(t'.now, t'.now.h.slots[0]) && InspectInBounds(t'.now.ring)
  {
    hide Walked, Clean, Fed, Inv, InspectInBounds;
    PollKeeps(t.now);
    t' := Then(t, Poll);
    PeekingHasHead(t'.now);
    HeadFound(t'.now);
    HeadInside(t'.now, t'.now.h.slots[0]);
  }

  lemma PeekingHasHead(s: State)
    requires Inv(s) && s.worker.Peeking?
    ensures s.h.slots != []
  {
  }

  /** The head slot's fields, as the worker reads them. */
  lemma HeadBytes(s: State, slot: Slot)
    requires HeadSeen(s, slot) && !slot.phase.Reserved?
    ensures var off, mem := Masked(s.ring.readHead), s.ring.mem;
            && off == s.h.r % RING && off + slot.stride <= RING && HEADER + |slot.payload| <= slot.stride
            && StateAt(mem, off) == (if slot.phase.Committed? then COMMITTED else CLAIMED)
            && (FlagsAt(mem, off) == PAD_FLAG <==> slot.pad)
            && Stride(PayloadBytesAt(mem, off)) == slot.stride
            && (!slot.pad ==> 0 < PayloadBytesAt(mem, off) == |slot.payload| <= MAX_PAYLOAD)
            && (slot.phase.Committed? && !slot.pad ==> ReadAt(mem, off + HEADER, |slot.payload|) == slot.payload)
            && ClaimedTickAt(mem, off) == (if slot.pad then 0 else slot.tick)
            && (!slot.pad ==> PoisonStride(StrideBytesAt(mem, off)) == slot.stride)
  {
    if !slot.pad {
      PoisonExact(s);
    }
  }

  lemma HeadState(s: State, from: State, t: Trail)
    requires s.h.slots != [] && HeadSeen(s, s.h.slots[0]) && DrainRun(t, from) && t.now == s && HeaderVisible(s)
    ensures Masked(s.ring.readHead) + 4 <= RING
    ensures StateAt(s.ring.mem, Masked(s.ring.readHead)) ==
            if s.h.slots[0].phase.Committed? then COMMITTED else CLAIMED
  {
  }

  lemma PadHasNoPayload(slot: Slot)
    requires SlotOk(slot)
    ensures slot.pad <==> slot.payload == []
  {
  }

  lemma InspectHead(t: Trail, s: State) returns (t': Trail)
    requires DrainRun(t, s) && t.now.worker.Peeking? && t.now.h.slots != []
    requires HeadSeen(t.now, t.now.h.slots[0]) && InspectInBounds(t.now.ring) && HeaderVisible(t.now)
    ensures DrainRun(t', s) && Inspected(t.now, t'.now, t.now.h.slots[0])
  {
    hide Walked, Clean, Fed, Inv, HeadSeen;
    InspectKeeps(t.now);
    InspectEffect(t.now, t.now.h.slots[0]);
    t' := Then(t, Inspect);
  }

  lemma JudgeHead(t: Trail, s: State, now: u64) returns (t': Trail)
    requires DrainRun(t, s) && t.now.worker.Timing? && t.now.h.slots != []
    requires HeadSeen(t.now, t.now.h.slots[0]) && !t.now.h.slots[0].phase.Committed? && HeaderVisible(t.now)
    requires Stuck(t.now.h.slots[0], now, t.now.ticksPerMs) ==> HeadOwnerGone(t.now)
    ensures DrainRun(t', s)
    ensures Judged(t.now, t'.now, t.now.h.slots[0], Stuck(t.now.h.slots[0], now, t.now.ticksPerMs))
  {
    hide Walked, Clean, Fed, RingInv, CallInv, BookInv, NoTimeoutSeen;
    JudgeEffect(t.now, now);
    OwnerPresent(t.now);
    hide Inv;
    HeadStuck(t.now, now);
    hide HeadSeen, Expired, Stuck;
    assert OnlyDeadPoisoned(t.now, now);
    JudgeKeeps(t.now, now);
    t' := ThenJudge(t, now);
  }

  predicate HeadOwnerGone(s: State)
    requires s.h.slots != []
  {
    s.h.slots[0].owner in s.producers ==> s.producers[s.h.slots[0].owner].dead
  }

  lemma HeadStuck(s: State, now: u64)
    requires s.h.slots != [] && HeadSeen(s, s.h.slots[0]) && !s.h.slots[0].phase.Reserved?
    ensures Expired(s, now) == Stuck(s.h.slots[0], now, s.ticksPerMs)
  {
    TimedOutIff(now, s.h.slots[0].tick, s.ticksPerMs);
    hide TimedOut;
  }

  // ---- the class --------------------------------------------------------------------------------------

  class AsyncEventDispatcher {
    const ring: array<byte>
    const sendBuf: array<byte>
    const ticksPerMs: u64
    var writeHead: u32
    var readHead: u32
    var seqCounter: u32
    var enqueued: nat
    var dropped: nat
    var poisoned: nat
    var dataReady: bool

    ghost predicate Shape()
      reads this
    {
      ring.Length == RING && sendBuf.Length == SEND_BUFFER && ring != sendBuf
    }

    /** The ring this object holds. */
    ghost function Snapshot(): Ring
      requires Shape()
      reads this, ring
    {
      Ring(ring[..], writeHead, readHead, seqCounter, enqueued, dropped, poisoned, dataReady)
    }

    constructor (ticksPerMs: u64)
      ensures Shape() && fresh(ring) && fresh(sendBuf)
      ensures Snapshot() == Init(ticksPerMs).ring && this.ticksPerMs == ticksPerMs
    {
      ring := new byte[RING](_ => 0);
      sendBuf := new byte[SEND_BUFFER](_ => 0);
      this.ticksPerMs := ticksPerMs;
      writeHead, readHead, seqCounter := 0, 0, 0;
      enqueued, dropped, poisoned, dataReady := 0, 0, 0, false;
      new;
      assert ring[..] == seq(RING, _ => 0);
    }

    /** Copies `bs` into the ring from `off` on. */
    method Store(off: nat, bs: seq<byte>)
      requires Shape() && off + |bs| <= RING
      modifies ring
      ensures ring[..] == WriteAt(old(ring[..]), off, bs)
    {
      for i := 0 to |bs|
        invariant ring[..] == WriteAt(old(ring[..]), off, bs[..i])
      {
        ring[off + i] := bs[i];
        assert ring[..] == WriteAt(old(ring[..]), off, bs[..i + 1]);
      }
      assert bs[..|bs|] == bs;
    }

    /** Copies `n` bytes of the ring from `off` on into the send buffer. */
    method CopyOut(off: nat, n: nat)
      requires Shape() && off + n <= RING && n <= SEND_BUFFER
      modifies sendBuf
      ensures sendBuf[..n] == ReadAt(ring[..], off, n)
    {
      for i := 0 to n
        invariant sendBuf[..i] == ReadAt(ring[..], off, i)
      {
        sendBuf[i] := ring[off + i];
        assert sendBuf[..i + 1] == sendBuf[..i] + [ring[off + i]];
        assert ReadAt(ring[..], off, i + 1) == ReadAt(ring[..], off, i) + [ring[off + i]];
      }
    }

    method Drop()
      requires Shape()
      modifies this
      ensures Shape() && Snapshot() == Dropped(old(Snapshot()))
    {
      dropped := dropped + 1;
      dataReady := true;
    }

    /** The head moves to the start of the ring and the tail gets a pad header if there is room. */
    method Wrap()
      requires Shape()
      modifies this, ring
      ensures Shape() && Snapshot() == Wrapped(old(Snapshot()))
    {
      hide WriteAt, HeaderBytes;
      var physOff := Masked(writeHead);
      var spaceToEnd := RING - physOff;
      writeHead := U32(writeHead + spaceToEnd);
      if spaceToEnd >= HEADER {
        Store(physOff, HeaderBytes(CLAIMED, PadHeader(spaceToEnd)));
        Store(physOff, ToLE(COMMITTED, 4));
      }
    }

    /** Header as claimed, payload, then the commit. */
    method Fill(off: nat, header: seq<byte>, bytes: seq<byte>)
      requires Shape() && |header| == HEADER && off + HEADER + |bytes| <= RING
      modifies ring
      ensures ring[..] == WriteAt(WriteAt(WriteAt(old(ring[..]), off, header), off + HEADER, bytes), off, ToLE(COMMITTED, 4))
    {
      hide WriteAt;
      Store(off, header);
      Store(off + HEADER, bytes);
      Store(off, ToLE(COMMITTED, 4));
    }

    /** The head moves over a new slot, which gets its header, its payload and its commit. */
    method Append(bytes: seq<byte>, tick: u64)
      requires Shape() && |bytes| <= MAX_PAYLOAD && Stride(|bytes|) <= SpaceToEnd(writeHead)
      modifies this, ring
      ensures Shape() && Snapshot() == Appended(old(Snapshot()), bytes, tick)
    {
      StrideBounds(|bytes|);
      var off, stride := Masked(writeHead), Stride(|bytes|);
      hide AppendedAt;
      AppendAt(off, stride, bytes, tick);
    }

    method AppendAt(off: nat, stride: u32, bytes: seq<byte>, tick: u64)
      requires Shape() && |bytes| <= MAX_PAYLOAD && off + HEADER + |bytes| <= RING
      modifies this, ring
      ensures Shape() && Snapshot() == AppendedAt(old(Snapshot()), off, stride, bytes, tick)
    {
      hide WriteAt, HeaderBytes, ToLE, U32;
      var seqNum := U32(seqCounter + 1);
      var header := HeaderBytes(CLAIMED, Header(0, |bytes|, seqNum, stride, tick));
      writeHead := U32(writeHead + stride);
      seqCounter := seqNum;
      Fill(off, header, bytes);
      enqueued, dataReady := enqueued + 1, true;
    }

    /** The retry loop of a producer that nobody disturbs: every swap succeeds. */
    method ProduceSlot(bytes: seq<byte>, tick: u64) returns (status: Status)
      requires Shape()
      modifies this, ring
      ensures Shape() && (Snapshot(), status) == Produced(old(Snapshot()), bytes, tick)
    {
      if |bytes| > MAX_PAYLOAD {
        Drop();
        return InvalidParameter;
      }
      var stride := Stride(|bytes|);
      ghost var start := Snapshot();
      ghost var wrapped := false;
      WrapsAtMostOnce(start, |bytes|);
      hide Stride, Wrapped, Appended;
      while true
        invariant Shape() && Snapshot() == if wrapped then Wrapped(start) else start
        invariant wrapped ==> Fits(start, |bytes|) && NeedsWrap(start, |bytes|)
        decreases !wrapped
      {
        var cur := writeHead;
        var used := Masked(Sub32(cur, readHead));
        var freeBytes := RING - used;
        if stride > freeBytes {
          Drop();
          return InsufficientResources;
        }
        var spaceToEnd := RING - Masked(cur);
        if stride > spaceToEnd {
          Wrap();
          wrapped := true;
        } else {
          Append(bytes, tick);
          return Success;
        }
      }
    }

    /** The worker marks the slot free and moves on. */
    method Release(off: nat, stride: nat)
      requires Shape() && off + 4 <= RING
      modifies this, ring
      ensures Shape()
      ensures Snapshot() == old(Snapshot()).(mem := WriteAt(old(Snapshot()).mem, off, ToLE(FREE, 4)),
                                             readHead := U32(old(readHead) + stride))
    {
      hide WriteAt;
      Store(off, ToLE(FREE, 4));
      readHead := U32(readHead + stride);
    }

    /** The worker clears a stuck slot and moves on. */
    method Poison(off: nat, skip: nat)
      requires Shape() && off < RING && 4 <= skip <= RING - off
      modifies this, ring
      ensures Shape()
      ensures Snapshot() == old(Snapshot()).(mem := WriteAt(old(Snapshot()).mem, off, Zeros(skip)),
                                             readHead := U32(old(readHead) + skip), poisoned := old(poisoned) + 1)
    {
      ZeroedThenFreed(ring[..], off, skip);
      hide WriteAt;
      Store(off, Zeros(Min(skip, RING - off)));
      Store(off, ToLE(FREE, 4));
      readHead := U32(readHead + skip);
      poisoned := poisoned + 1;
    }

    /** What the worker does with the bytes of a committed slot. */
    method TakeBytes(off: nat, payload: nat, stride: nat, pad: bool) returns (n: nat)
      requires Shape() && off + HEADER <= RING && (!pad ==> payload <= SEND_BUFFER && off + HEADER + payload <= RING)
      modifies this, ring, sendBuf
      ensures Shape()
      ensures Snapshot() == old(Snapshot()).(mem := WriteAt(old(Snapshot()).mem, off, ToLE(FREE, 4)),
                                             readHead := U32(old(readHead) + stride))
      ensures n == (if pad then 0 else payload)
      ensures !pad ==> sendBuf[..n] == ReadAt(old(ring[..]), off + HEADER, payload)
    {
      hide WriteAt;
      n := 0;
      if !pad {
        CopyOut(off + HEADER, payload);
        n := payload;
      }
      Release(off, stride);
    }

    /** A committed head slot: a pad is passed over, an event is copied out. */
    method TakeHead(ghost t: Trail, ghost s: State) returns (n: nat, ghost t': Trail)
      requires Shape() && DrainRun(t, s) && t.now.worker.Peeking? && t.now.ring == Snapshot()
      requires t.now.h.slots != [] && HeadSeen(t.now, t.now.h.slots[0]) && InspectInBounds(t.now.ring)
      requires t.now.h.slots[0].phase.Committed?
      modifies this, ring, sendBuf
      ensures Shape() && DrainRun(t', s) && t'.now.ring == Snapshot() && t'.now.ticksPerMs == t.now.ticksPerMs
      ensures t'.now.h.slots == t.now.h.slots[1..] && t'.now.producers == t.now.producers
      ensures n == |t.now.h.slots[0].payload| <= SEND_BUFFER && sendBuf[..n] == t.now.h.slots[0].payload
      ensures n == 0 <==> t.now.h.slots[0].pad
      ensures t.now.h.slots[0].pad ==> t'.now.worker.Draining?
    {
      hide Walked, Clean, Fed, Inv, WriteAt, ReadAt, ToLE, U32, Stride, InspectInBounds, StateAt, FlagsAt, PayloadBytesAt;
      HeadBytes(t.now, t.now.h.slots[0]);
      t' := InspectHead(t, s);
      PadHasNoPayload(t.now.h.slots[0]);
      hide HeadSeen, SlotOk;
      var off := Masked(readHead);
      var payload := PayloadBytesAt(ring[..], off);
      n := TakeBytes(off, payload, Stride(payload), FlagsAt(ring[..], off) == PAD_FLAG);
    }

    /** An uncommitted head slot: skipped if its claim is too old, else left for later. */
    method WaitOrSkip(now: u64, ghost t: Trail, ghost s: State) returns (again: bool, ghost t': Trail)
      requires Shape() && DrainRun(t, s) && t.now.worker.Peeking? && t.now.ring == Snapshot()
      requires t.now.h.slots != [] && HeadSeen(t.now, t.now.h.slots[0]) && InspectInBounds(t.now.ring)
      requires !t.now.h.slots[0].phase.Committed? && HeaderVisible(t.now) && t.now.ticksPerMs == ticksPerMs
      requires Stuck(t.now.h.slots[0], now, ticksPerMs) ==> HeadOwnerGone(t.now)
      modifies this, ring
      ensures Shape() && DrainRun(t', s) && t'.now.ring == Snapshot() && t'.now.ticksPerMs == t.now.ticksPerMs
      ensures again <==> Stuck(t.now.h.slots[0], now, ticksPerMs)
      ensures var slot := t.now.h.slots[0];
              && (!slot.pad && 0 < slot.tick <= now && ticksPerMs > 0 ==> (again <==> now - slot.tick >= 500 * ticksPerMs))
              && (slot.pad || slot.tick == 0 || ticksPerMs == 0 ==> !again)
      ensures again ==> t'.now.worker.Draining? && t'.now.h.slots == t.now.h.slots[1..]
      ensures forall p :: p in t'.now.producers ==> p in t.now.producers && t'.now.producers[p] == t.now.producers[p]
      ensures !again ==> t'.now.h.slots == t.now.h.slots && Snapshot() == old(Snapshot())
    {
      hide Walked, Clean, Fed, Inv, WriteAt, Stride, InspectInBounds, PoisonStride;
      HeadBytes(t.now, t.now.h.slots[0]);
      t' := InspectHead(t, s);
      t' := JudgeHead(t', s, now);
      hide HeadSeen, SlotOk;
      var off := Masked(readHead);
      var claimedTick := ClaimedTickAt(ring[..], off);
      TimedOutIff(now, claimedTick, ticksPerMs);
      hide TimedOut;
      again := claimedTick != 0 && TimedOut(now, claimedTick, ticksPerMs);
      if again {
        var skip := PoisonStride(StrideBytesAt(ring[..], off));
        Poison(off, skip);
      }
    }

    /** The worker's loop up to one event, while no producer moves.  `s` is any state of the step system
        with this ring; the call is a clean run of the worker from there.  `clock(i)` is what the clock
        says when `i` slots have been passed. */
    method ConsumeOne(clock: nat -> u64, ghost s: State) returns (n: nat, ghost t: Trail)
      requires Shape() && Inv(s) && s.worker.Draining?
      requires s.ring == Snapshot() && s.ticksPerMs == ticksPerMs
      requires Drainable(s.h.slots, s.producers, clock, 0, ticksPerMs)
      modifies this, ring, sendBuf
      ensures Shape() && DrainRun(t, s) && t.now.ring == Snapshot()
      ensures t.now.h.slots == NextEvent(s.h.slots, clock, 0, ticksPerMs).0
      ensures match NextEvent(s.h.slots, clock, 0, ticksPerMs).1
              case Some(bytes) => 0 < n == |bytes| && n <= SEND_BUFFER && sendBuf[..n] == bytes
              case None => n == 0
    {
      t := Begin(s);
      hide Walked, Clean, Fed, Inv, HeadSeen, InspectInBounds, NextEvent, Stuck;
      assert DrainRun(t, s);
      hide DrainRun;
      var passed: nat := 0;
      while true
        invariant Shape() && DrainRun(t, s) && t.now.ring == Snapshot()
        invariant t.now.worker.Draining? && t.now.ticksPerMs == ticksPerMs
        invariant Drainable(t.now.h.slots, t.now.producers, clock, passed, ticksPerMs)
        invariant NextEvent(t.now.h.slots, clock, passed, ticksPerMs) == NextEvent(s.h.slots, clock, 0, ticksPerMs)
        decreases |t.now.h.slots|
      {
        var pending := Masked(Sub32(writeHead, readHead));
        if pending == 0 {
          t := PollEmpty(t, s);
          NextEventEmpty(clock, passed, ticksPerMs);
          return 0, t;
        }
        t := PollHead(t, s);
        HeadState(t.now, s, t);
        NextEventStep(t.now.h.slots, clock, passed, ticksPerMs);
        ghost var met := t.now;
        var state := StateAt(ring[..], Masked(readHead));
        // The code's third branch, an unexpected free slot, is not taken at a slot boundary.
        assert state == COMMITTED || state == CLAIMED;
        if state == COMMITTED {
          n, t := TakeHead(t, s);
          if n != 0 {
            return n, t;
          }
        } else {
          var again;
          again, t := WaitOrSkip(clock(passed), t, s);
          if !again {
            return 0, t;
          }
          DrainableFewer(met.h.slots[1..], met.producers, t.now.producers, clock, passed + 1, ticksPerMs);
        }
        passed := passed + 1;
      }
    }
  }
}
