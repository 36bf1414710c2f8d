/**
 The worker's steps keep the invariant, and so does every run.
 */
module RingWorkerSteps {
  import opened Bytes
  import opened RingLayout
  import opened RingProtocol
  import opened RingInvariant
  import opened RingSteps

  // ---- the head slot ------------------------------------------------------------------------

  /** What the worker finds at the read head. */
  predicate HeadSeen(s: State, slot: Slot) {
    var off := Masked(s.ring.readHead);
    && s.h.slots != [] && slot == s.h.slots[0] && SlotOk(slot)
    && slot.start == s.h.r && off == s.h.r % RING && off + HEADER <= off + slot.stride <= RING
    && StateAt(s.ring.mem, off) == StateWord(slot.phase)
    && FlagsAt(s.ring.mem, off) == HeaderOf(slot).flags
    && PayloadBytesAt(s.ring.mem, off) == HeaderOf(slot).payloadBytes
    && StrideBytesAt(s.ring.mem, off) == slot.stride
    && ClaimedTickAt(s.ring.mem, off) == HeaderOf(slot).claimedTick
    && Stride(HeaderOf(slot).payloadBytes) == slot.stride
    && HEADER + |slot.payload| <= slot.stride
    && (slot.phase.Committed? ==> ReadAt(s.ring.mem, off + HEADER, |slot.payload|) == slot.payload)
  }

  lemma HeadFound(s: State)
    requires Inv(s) && s.h.slots != [] && !s.h.slots[0].phase.Reserved?
    ensures HeadSeen(s, s.h.slots[0])
  {
    hide CallInv, BookInv;
    var slot := s.h.slots[0];
    HeadFacts(s);
    assert SlotOk(slot) && InMemory(s.ring.mem, slot) && slot.start == s.h.r;
    hide Inv, HeadSeen;
    HeadReads(s, slot);
  }

  lemma HeadReads(s: State, slot: Slot)
    requires s.h.slots != [] && slot == s.h.slots[0] && slot.start == s.h.r && Masked(s.ring.readHead) == s.h.r % RING
    requires SlotOk(slot) && InMemory(s.ring.mem, slot) && !slot.phase.Reserved?
    ensures HeadSeen(s, slot)
  {
    hide Stride, HeaderBytes, StateAt, FlagsAt, PayloadBytesAt, StrideBytesAt, ClaimedTickAt, SeqNumAt, ReservedAt;
    PayloadFits(slot);
    HeaderReadsBack(s.ring.mem, s.h.r % RING, StateWord(slot.phase), HeaderOf(slot));
    if slot.pad {
      PadStride(slot.stride);
    }
  }

  /** What the worker reads of the head slot lies inside the ring. */
  lemma HeadInside(s: State, slot: Slot)
    requires HeadSeen(s, slot)
    ensures InspectInBounds(s.ring) && Masked(s.ring.readHead) + HEADER <= RING
  {
  }

  // ---- leaving the head slot ---------------------------------------------------------------

  lemma PopRing(ring: Ring, h: Hist, bs: seq<byte>, ring': Ring, h': Hist)
    requires RingInv(ring, h) && h.slots != [] && |bs| <= h.slots[0].stride
    requires h.r % RING + |bs| <= RING && ring'.mem == WriteAt(ring.mem, h.r % RING, bs)
    requires ring'.writeHead == ring.writeHead && ring'.readHead == U32(ring.readHead + h.slots[0].stride)
    requires h'.r == h.r + h.slots[0].stride && h'.w == h.w && h'.slots == h.slots[1..]
    ensures RingInv(ring', h')
  {
    AdvanceWrapped(h.r, h.slots[0].stride);
    TilingPop(h.slots, h.r, h.w);
    StoredPop(ring.mem, ring'.mem, h.slots, h.r, h.w, h.r % RING, bs);
  }

  lemma PopCalls(producers: map<Pid, Producer>, h: Hist, h': Hist)
    requires CallInv(producers, h) && h.slots != [] && h.slots[0].phase.Committed?
    requires h'.r >= h.r && h'.w == h.w && h'.slots == h.slots[1..] && h'.base == h.base + 1
    ensures CallInv(producers, h')
  {
    LinkedPop(producers, h.slots, h.base);
    CallsAfterRelease(producers, h.r, h'.r, h.w, h.Reservations());
  }

  lemma ConsumeBooks(s: State, bytes: seq<byte>, s': State)
    requires BookInv(s) && s.worker.Peeking? && s.h.slots != []
    requires s.h.slots[0].phase.Committed? && !s.h.slots[0].pad && s.h.slots[0].payload == bytes != []
    requires s'.producers == s.producers && s'.worker == Holding(bytes)
    requires s'.ring == s.ring.(mem := s'.ring.mem, readHead := s'.ring.readHead)
    requires s'.h == Retire(s.h, s.h.slots[0].stride, [Retired(bytes, false)], [bytes])
    ensures BookInv(s')
  {
    var e := Retired(bytes, false);
    assert Fifo(s'.h) by {
      SurvivorsAppend(s.h.retired, e);
      assert Outstanding(s.h.slots) == [bytes] + Outstanding(s'.h.slots);
      assert s'.h.claimed == AllPayloads(s.h.retired) + ([bytes] + Outstanding(s'.h.slots));
    }
    hide Fifo, Outstanding, Survivors, AllPayloads;
    assert CommittedData(s.h.slots) == 1 + CommittedData(s'.h.slots);
    assert |s'.h.consumed| == |s.h.consumed| + 1 && |s'.h.retired| == |s.h.retired| + 1;
  }

  lemma SkipPadBooks(s: State, s': State)
    requires BookInv(s) && s.worker.Peeking? && s.h.slots != [] && s.h.slots[0].pad
    requires s'.producers == s.producers && s'.worker == Draining
    requires s'.ring == s.ring.(mem := s'.ring.mem, readHead := s'.ring.readHead)
    requires s'.h == Retire(s.h, s.h.slots[0].stride, [], [])
    ensures BookInv(s')
  {
    assert s'.h.retired == s.h.retired && s'.h.consumed == s.h.consumed;
    assert Outstanding(s.h.slots) == Outstanding(s'.h.slots);
  }

  /** What looking at the head slot does: skip a pad, copy out an event, or wait. */
  predicate Inspected(s: State, s': State, slot: Slot) {
    if slot.phase.Committed? then
      && s.h.r % RING + 4 <= RING
      && s'.ring.mem == WriteAt(s.ring.mem, s.h.r % RING, ToLE(FREE, 4))
      && s'.ring == s.ring.(mem := s'.ring.mem, readHead := U32(s.ring.readHead + slot.stride))
      && s' == s.(ring := s'.ring, worker := s'.worker, h := s'.h)
      && s'.worker == (if slot.pad then Draining else Holding(slot.payload))
      && s'.h == (if slot.pad then Retire(s.h, slot.stride, [], [])
                  else Retire(s.h, slot.stride, [Retired(slot.payload, false)], [slot.payload]))
    else s' == s.(worker := Timing)
  }

  lemma InspectEffect(s: State, slot: Slot)
    requires HeadSeen(s, slot) && !slot.phase.Reserved? && InspectInBounds(s.ring)
    ensures Inspected(s, DoInspect(s), slot)
  {
  }

  lemma InspectKeeps(s: State)
    requires Inv(s) && s.worker.Peeking? && InspectInBounds(s.ring) && HeaderVisible(s)
    ensures Inv(DoInspect(s))
  {
    hide Tiling, Stored, Linked, CallsOk, Fifo, Counted, Awake;
    HeadFound(s);
    var s' := DoInspect(s);
    var slot := s.h.slots[0];
    InspectEffect(s, slot);
    hide DoInspect, InspectInBounds;
    if slot.phase.Committed? {
      LeaveKeeps(s, s', slot);
    } else {
      TimingBooks(s);
    }
  }

  /** The worker leaves a committed slot. */
  lemma LeaveKeeps(s: State, s': State, slot: Slot)
    requires Inv(s) && s.worker.Peeking? && HeadSeen(s, slot) && slot.phase.Committed? && Inspected(s, s', slot)
    ensures Inv(s')
  {
    hide Tiling, Stored, Linked, CallsOk, Fifo, Counted, Awake;
    PopRing(s.ring, s.h, ToLE(FREE, 4), s'.ring, s'.h);
    PopCalls(s.producers, s.h, s'.h);
    if slot.pad {
      SkipPadBooks(s, s');
    } else {
      ConsumeBooks(s, slot.payload, s');
    }
  }

  lemma TimingBooks(s: State)
    requires BookInv(s) && s.worker.Peeking? && s.h.slots != []
    requires !s.h.slots[0].phase.Reserved? && !s.h.slots[0].phase.Committed?
    ensures BookInv(s.(worker := Timing))
  {
  }

  // ---- poisoning ---------------------------------------------------------------------------

  /** Recovery of a stuck slot: the stored stride passes the sanity test and is the slot's own. */
  lemma PoisonExact(s: State)
    requires s.h.slots != [] && HeadSeen(s, s.h.slots[0]) && !s.h.slots[0].pad
    ensures PoisonStride(StrideBytesAt(s.ring.mem, Masked(s.ring.readHead))) == s.h.slots[0].stride
    ensures s.h.slots[0].stride <= RING - Masked(s.ring.readHead)
  {
    StrideBounds(|s.h.slots[0].payload|);
    RoundUp(s.h.slots[0].stride);
  }

  lemma ZeroedThenFreed(mem: Memory, off: nat, n: nat)
    requires off + n <= RING && 4 <= n
    ensures WriteAt(WriteAt(mem, off, Zeros(n)), off, ToLE(FREE, 4)) == WriteAt(mem, off, Zeros(n))
  {
    assert ToLE(FREE, 4) == [0, 0, 0, 0] by {
      assert ToLE(0, 1) == [0];
      assert ToLE(0, 2) == [0, 0];
      assert ToLE(0, 3) == [0, 0, 0];
    }
  }

  /** The head slot's producer may be dropped together with the slot. */
  predicate Droppable(producers: map<Pid, Producer>, slot: Slot) {
    slot.owner in producers && (if slot.phase.Committed? then producers[slot.owner].pc.ToCount?
                                else producers[slot.owner].pc.OwnsSlot())
  }

  lemma PoisonCalls(producers: map<Pid, Producer>, h: Hist, h': Hist)
    requires CallInv(producers, h) && h.slots != [] && Droppable(producers, h.slots[0])
    requires h'.r >= h.r && h'.w == h.w && h'.slots == h.slots[1..] && h'.base == h.base + 1
    ensures CallInv(producers - {h.slots[0].owner}, h')
  {
    var p := h.slots[0].owner;
    LinkedPoison(producers, h.slots, h.base);
    CallsUpdate(producers, h.r, h.w, h.Reservations(), p, producers[p]);
    CallsAfterRelease(producers - {p}, h.r, h'.r, h.w, h.Reservations());
  }

  lemma PoisonBooks(s: State, s': State)
    requires BookInv(s) && (s.worker.Timing? || s.worker.Peeking?) && s.h.slots != []
    requires !s.h.slots[0].pad && Droppable(s.producers, s.h.slots[0])
    requires s'.producers == s.producers - {s.h.slots[0].owner} && s'.worker == Draining
    requires s'.ring == s.ring.(mem := s'.ring.mem, readHead := s'.ring.readHead, poisoned := s.ring.poisoned + 1)
    requires s'.h == Retire(s.h, s.h.slots[0].stride, [Retired(s.h.slots[0].payload, true)], [])
    ensures BookInv(s')
  {
    var p, bytes := s.h.slots[0].owner, s.h.slots[0].payload;
    assert Fifo(s'.h) by {
      SurvivorsAppend(s.h.retired, Retired(bytes, true));
      assert Outstanding(s.h.slots) == [bytes] + Outstanding(s'.h.slots);
      assert s'.h.claimed == AllPayloads(s.h.retired) + ([bytes] + Outstanding(s'.h.slots));
      assert s'.h.consumed == s.h.consumed;
    }
    hide Fifo, Outstanding, Survivors, AllPayloads;
    CountRemove(s.producers, p, Uncounted);
    CountRemove(s.producers, p, CommittedUncounted);
    hide Members, HowMany;
    assert CommittedData(s.h.slots) == CommittedData(s'.h.slots) + (if s.h.slots[0].phase.Committed? then 1 else 0);
    assert |s'.h.consumed| == |s.h.consumed| && |s'.h.retired| == |s.h.retired| + 1;
  }

  lemma OwnerPresent(s: State)
    requires CallInv(s.producers, s.h) && s.h.slots != [] && !s.h.slots[0].phase.Committed?
    ensures s.h.slots[0].owner in s.producers && s.producers[s.h.slots[0].owner].pc.OwnsSlot()
  {
  }

  /** What judging the head slot does: skip it whole, or go back to sleep. */
  predicate Judged(s: State, s': State, slot: Slot, expired: bool) {
    if expired then
      && !slot.pad && s.h.r % RING + slot.stride <= RING
      && s'.ring.mem == WriteAt(s.ring.mem, s.h.r % RING, Zeros(slot.stride))
      && s'.ring == s.ring.(mem := s'.ring.mem, readHead := U32(s.ring.readHead + slot.stride),
                            poisoned := s.ring.poisoned + 1)
      && s' == s.(ring := s'.ring, worker := Draining, producers := Forget(s),
                  h := Retire(s.h, slot.stride, [Retired(slot.payload, true)], []))
    else s' == Park(s, false)
  }

  lemma JudgeEffect(s: State, now: u64)
    requires s.h.slots != [] && HeadSeen(s, s.h.slots[0])
    ensures Judged(s, DoJudge(s, now), s.h.slots[0], Expired(s, now))
  {
    var stride := s.h.slots[0].stride;
    if Expired(s, now) {
      PoisonExact(s);
      assert !s.h.slots[0].pad && Masked(s.ring.readHead) == s.h.r % RING && stride >= 4;
      hide HeadSeen, SlotOk, Stride, HeaderOf, PoisonStride, Expired;
      PoisonEffect(s, now, stride);
    }
  }

  lemma PoisonEffect(s: State, now: u64, stride: nat)
    requires Masked(s.ring.readHead) + HEADER <= RING && Expired(s, now) && s.h.slots != []
    requires PoisonStride(StrideBytesAt(s.ring.mem, Masked(s.ring.readHead))) == stride
    requires 4 <= stride <= RING - Masked(s.ring.readHead)
    ensures var s' := DoJudge(s, now);
            && s'.ring.mem == WriteAt(s.ring.mem, Masked(s.ring.readHead), Zeros(stride))
            && s'.ring == s.ring.(mem := s'.ring.mem, readHead := U32(s.ring.readHead + stride),
                                  poisoned := s.ring.poisoned + 1)
            && s' == s.(ring := s'.ring, worker := Draining, producers := Forget(s),
                        h := Retire(s.h, stride, [Retired(s.h.slots[0].payload, true)], []))
  {
    ZeroedThenFreed(s.ring.mem, Masked(s.ring.readHead), stride);
  }

  lemma JudgeKeeps(s: State, now: u64)
    requires Inv(s) && s.worker.Timing? && Masked(s.ring.readHead) + HEADER <= RING
    requires OnlyDeadPoisoned(s, now)
    ensures Inv(DoJudge(s, now))
  {
    hide Tiling, Stored, Linked, CallsOk, Fifo, Counted;
    HeadFound(s);
    var s' := DoJudge(s, now);
    var slot := s.h.slots[0];
    JudgeEffect(s, now);
    hide DoJudge, Expired;
    if Expired(s, now) {
      if !slot.phase.Committed? {
        OwnerPresent(s);
      }
      PopRing(s.ring, s.h, Zeros(slot.stride), s'.ring, s'.h);
      PoisonCalls(s.producers, s.h, s'.h);
      PoisonBooks(s, s');
    } else {
      ParkBooks(s, s');
    }
  }

  lemma ParkBooks(s: State, s': State)
    requires BookInv(s) && s.worker.Timing? && s' == Park(s, false)
    ensures BookInv(s')
  {
  }

  // ---- the rest of the worker's loop ---------------------------------------------------------

  lemma WakeKeeps(s: State, cause: WakeCause)
    requires Inv(s) && s.worker.Parked?
    ensures Inv(DoWake(s, cause))
  {
    hide Tiling, Stored, Linked, CallsOk, Fifo;
  }

  lemma PollKeeps(s: State)
    requires Inv(s) && s.worker.Draining?
    ensures Inv(DoPoll(s))
  {
    hide Stored, Linked, CallsOk, Fifo;
    WrappedHeadsAreExact(s.h.w, s.h.r);
    assert s.h.slots == [] <==> s.h.w == s.h.r;
  }

  lemma CheckPortKeeps(s: State)
    requires Inv(s) && s.worker.Holding?
    ensures Inv(DoCheckPort(s))
  {
    hide Tiling, Stored, Linked, CallsOk;
    CountFateAppend(s.h.fates, Fate(s.worker.bytes, NoPort), CountedAtDrain);
    CountFateAppend(s.h.fates, Fate(s.worker.bytes, NoPort), IsTimedOut);
  }

  lemma SendKeeps(s: State, status: int)
    requires Inv(s) && s.worker.Sending?
    ensures Inv(DoSend(s, status))
  {
    hide Tiling, Stored, Linked, CallsOk;
    var result := SendOne(s.port, status, s.sendTimeouts).0;
    var fate := Fate(s.worker.bytes, if NtSuccess(result) then Sent(result) else HardError(s.port));
    CountFateAppend(s.h.fates, fate, CountedAtDrain);
    CountFateAppend(s.h.fates, fate, IsTimedOut);
    hide CountFate;
    var s' := DoSend(s, status);
    assert s'.ring == s.ring && s'.producers == s.producers && s'.sendTimeouts == 0;
    assert s'.h == s.h.(fates := s.h.fates + [fate]);
    assert if NtSuccess(result) then s'.worker.Draining? else s'.worker == (if s.stopping then Exited else Parked(true));
    hide DoSend, SendOne;
  }

  lemma ClientKeeps(s: State)
    requires Inv(s)
    ensures Inv(DoConnect(s)) && Inv(s.(port := false, sendTimeouts := 0)) && Inv(DoStop(s))
  {
  }

  lemma SwapKeeps(s: State, p: Pid)
    requires Inv(s) && CanCas(s, p) && SwapFits(s, p) && s.ring.writeHead == s.producers[p].pc.cur
    ensures Inv(DoCas(s, p))
  {
    if s.producers[p].pc.WantPad? {
      CasPadKeeps(s, p);
    } else {
      CasClaimKeeps(s, p);
    }
  }

  // ---- every step, every run -----------------------------------------------------------------

  lemma StepKeeps(s: State, step: Step)
    requires Inv(s) && Enabled(s, step) && Assumed(s, step)
    ensures Inv(Apply(s, step))
  {
    hide Tiling, Stored, Linked, CallsOk, Fifo, Counted, Awake, WorkerOk;
    match step
    case FailEarly => FailEarlyKeeps(s);
    case Start(p, payload) => StartKeeps(s, p, payload);
    case ReadWriteHead(p) => ReadWriteHeadKeeps(s, p);
    case CheckSpace(p) => CheckSpaceKeeps(s, p);
    case Cas(p) =>
      if s.ring.writeHead != s.producers[p].pc.cur {
        CasFailKeeps(s, p);
      } else {
        FreshSwapFits(s, p);
        SwapKeeps(s, p);
      }
    case PublishHeader(p, tick) => PublishKeeps(s, p, tick);
    case CopyPayload(p) => CopyKeeps(s, p);
    case Commit(p) => CommitKeeps(s, p);
    case Count(p) => CountKeeps(s, p);
    case Signal(p) => SignalKeeps(s, p);
    case Die(p) => DieKeeps(s, p);
    case Wake(cause) => WakeKeeps(s, cause);
    case Poll => PollKeeps(s);
    case Inspect => InspectKeeps(s);
    case Judge(now) => JudgeKeeps(s, now);
    case CheckPort => CheckPortKeeps(s);
    case Send(status) => SendKeeps(s, status);
    case Connect => ClientKeeps(s);
    case Disconnect => ClientKeeps(s);
    case Stop => ClientKeeps(s);
  }

  /** The invariant holds after any run, however its steps interleave. */
  lemma {:induction false} RunKeeps(s: State, steps: seq<Step>)
    requires Inv(s) && Possible(s, steps) && Respects(s, steps)
    ensures Inv(Exec(s, steps))
    decreases |steps|
  {
    if steps != [] {
      StepKeeps(s, steps[0]);
      RunKeeps(Apply(s, steps[0]), steps[1..]);
    }
  }
}
