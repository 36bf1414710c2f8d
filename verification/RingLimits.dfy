/**
 Where the ring's guarantees end: the exact conditions.
 */
module RingLimits {
  import opened Bytes
  import opened RingLayout
  import opened RingProtocol
  import opened RingInvariant
  import opened RingSteps
  import opened RingWorkerSteps
  import opened RingSolo

  // ---- exact conditions on single steps ------------------------------------------------------

  /** A swap keeps the invariant exactly when it fails, or what it takes leaves a gap and, if it wraps,
      a tail for a header; whatever the age of the snapshot it was decided on. */
  lemma SwapKeepsInvariantIff(s: State, p: Pid)
    requires Inv(s) && CanCas(s, p)
    ensures Inv(DoCas(s, p)) <==> (s.ring.writeHead == s.producers[p].pc.cur ==> SwapFits(s, p))
  {
    if s.ring.writeHead != s.producers[p].pc.cur {
      CasFailKeeps(s, p);
    } else if SwapFits(s, p) {
      SwapKeeps(s, p);
    } else {
      SwapTooFar(s, p);
    }
  }

  lemma SwapTooFar(s: State, p: Pid)
    requires Inv(s) && CanCas(s, p) && s.ring.writeHead == s.producers[p].pc.cur && !SwapFits(s, p)
    ensures !Inv(DoCas(s, p))
  {
    hide Inv, Stride;
    var s' := DoCas(s, p);
    if s'.h.w >= s'.h.r + RING {
      FullIsNotTiled(s');
    } else {
      ShortIsNotTiled(s', |s.h.slots|);
    }
  }

  /** For a snapshot that is not 2^32 bytes old, the two conditions on a swap are exact. */
  lemma FreshSwapKeepsInvariantIff(s: State, p: Pid)
    requires Inv(s) && CanCas(s, p) && FreshSnapshot(s, p)
    ensures Inv(DoCas(s, p)) <==> ClaimLeavesGap(s, p) && WrapLeavesHeader(s, p)
  {
    SwapKeepsInvariantIff(s, p);
    if s.ring.writeHead == s.producers[p].pc.cur {
      FreshSwapFits(s, p);
    }
  }

  lemma FullIsNotTiled(s: State)
    requires s.h.w >= s.h.r + RING
    ensures !Inv(s)
  {
  }

  lemma ShortIsNotTiled(s: State, i: nat)
    requires i < |s.h.slots| && s.h.slots[i].stride < MIN_SKIP
    ensures !Inv(s)
  {
    assert !SlotOk(s.h.slots[i]);
  }

  /** Skipping the head slot as stuck keeps the invariant exactly when its producer is gone, and was gone
      before it counted the event.  The slot may have been committed since the worker read its state. */
  lemma PoisonKeepsInvariantIff(s: State, now: u64)
    requires Inv(s) && s.worker.Timing? && Masked(s.ring.readHead) + HEADER <= RING && Expired(s, now)
    ensures Inv(DoJudge(s, now)) <==>
            && s.h.slots[0].owner in s.producers && s.producers[s.h.slots[0].owner].dead
            && (s.h.slots[0].phase.Committed? ==> s.producers[s.h.slots[0].owner].pc.ToCount?)
    ensures Inv(DoJudge(s, now)) <==> OnlyDeadPoisoned(s, now)
  {
    if OnlyDeadPoisoned(s, now) {
      JudgeKeeps(s, now);
    } else if s.h.slots[0].phase.Committed? {
      CommittedLost(s, now);
    } else {
      OwnerPresent(s);
      LeftBehind(s, DoJudge(s, now), s.h.slots[0].owner);
    }
  }

  /** A committed event that is skipped goes missing from the books, unless a call that has yet to
      count it goes with it. */
  lemma CommittedLost(s: State, now: u64)
    requires Inv(s) && s.worker.Timing? && Masked(s.ring.readHead) + HEADER <= RING && Expired(s, now)
    requires s.h.slots[0].phase.Committed? && !OnlyDeadPoisoned(s, now)
    ensures !Inv(DoJudge(s, now))
  {
    hide RingInv, CallInv, Fifo, Awake, NoTimeoutSeen;
    HeadFound(s);
    JudgeEffect(s, now);
    var s', p := DoJudge(s, now), s.h.slots[0].owner;
    hide DoJudge, Expired, HeadSeen, SlotOk;
    if s'.producers != s.producers {
      CountRemove(s.producers, p, CommittedUncounted);
    }
    hide Members, HowMany;
    assert CommittedData(s.h.slots) == 1 + CommittedData(s'.h.slots);
    assert !Counted(s');
  }

  /** Looking at the head slot keeps the invariant exactly when its header has been stored.  If it has not
      and the stale bytes read as claimed, what breaks is only that the worker is about to judge a slot it
      has not seen; `LookKeepsInvariantIff` says what comes of that. */
  lemma InspectKeepsInvariantIff(s: State)
    requires Inv(s) && s.worker.Peeking? && InspectInBounds(s.ring)
    ensures Inv(DoInspect(s)) <==> HeaderVisible(s)
  {
    if HeaderVisible(s) {
      InspectKeeps(s);
    } else {
      SeenTooSoon(s);
    }
  }

  /** Whatever the ring holds where a header is still to come, acting on it breaks the invariant. */
  lemma SeenTooSoon(s: State)
    requires Inv(s) && s.worker.Peeking? && InspectInBounds(s.ring) && !HeaderVisible(s)
    ensures !Inv(DoInspect(s))
  {
    OwnerPresent(s);
    assert s.h.slots[0].start == s.h.r;
    hide Inv, CallInv, DoInspect, InspectInBounds, StateAt;
    var s', state := DoInspect(s), StateAt(s.ring.mem, Masked(s.ring.readHead));
    if state == COMMITTED {
      InspectCommitted(s);
      LeftBehind(s, s', s.h.slots[0].owner);
    } else {
      InspectUncommitted(s);
      if state == CLAIMED {
        TimingUnseen(s');
      } else {
        InsideIsNotTiled(s');
      }
    }
  }

  /** What looking at the head changes besides the ring, by the state word it reads. */
  lemma InspectCommitted(s: State)
    requires InspectInBounds(s.ring) && s.h.slots != []
    requires StateAt(s.ring.mem, Masked(s.ring.readHead)) == COMMITTED
    ensures DoInspect(s).producers == s.producers && DoInspect(s).h.base == s.h.base + 1
  {
    hide WriteAt, ToLE, Stride, StateAt, FlagsAt;
  }

  lemma InspectUncommitted(s: State)
    requires InspectInBounds(s.ring) && s.h.slots != []
    requires StateAt(s.ring.mem, Masked(s.ring.readHead)) != COMMITTED
    ensures var s', state := DoInspect(s), StateAt(s.ring.mem, Masked(s.ring.readHead));
            if state == CLAIMED then s' == s.(worker := Timing) else s'.h == s.h.(r := s.h.r + MIN_SKIP)
  {
    hide WriteAt, ToLE, Stride, StateAt, FlagsAt;
  }

  // ---- a look and its judgement together ---------------------------------------------------------

  /** The worker looks at the head slot and, if it reads as claimed, judges its age. */
  function Look(s: State, now: u64): State
    requires s.worker.Peeking? && InspectInBounds(s.ring) && Masked(s.ring.readHead) + HEADER <= RING
  {
    if StateAt(s.ring.mem, Masked(s.ring.readHead)) == CLAIMED then DoJudge(s.(worker := Timing), now)
    else DoInspect(s)
  }

  /** It is the look followed by the judgement. */
  lemma LookIsTwoSteps(s: State, now: u64)
    requires s.worker.Peeking? && InspectInBounds(s.ring) && Masked(s.ring.readHead) + HEADER <= RING
    requires s.h.slots != []
    ensures Look(s, now) == if DoInspect(s).worker.Timing? then DoJudge(DoInspect(s), now) else DoInspect(s)
  {
    if StateAt(s.ring.mem, Masked(s.ring.readHead)) == CLAIMED {
      InspectUncommitted(s);
    } else {
      InspectSettles(s);
    }
    hide DoInspect, DoJudge, StateAt, InspectInBounds;
  }

  lemma InspectSettles(s: State)
    requires InspectInBounds(s.ring) && StateAt(s.ring.mem, Masked(s.ring.readHead)) != CLAIMED
    ensures !DoInspect(s).worker.Timing?
  {
    hide WriteAt, ReadAt, ToLE, Stride, StateAt, FlagsAt, PayloadBytesAt, U32, Retire, HeadPayload;
    var off, s' := Masked(s.ring.readHead), DoInspect(s);
    if StateAt(s.ring.mem, off) != COMMITTED {
      assert s'.worker.Exited? || s'.worker.Parked?;
    } else if FlagsAt(s.ring.mem, off) == PAD_FLAG {
      assert s'.worker.Draining?;
    } else if PayloadBytesAt(s.ring.mem, off) != 0 {
      assert s'.worker.Holding?;
    }
  }

  /** A skip over bytes left by an older slot happens to fit the slot it skips, and nobody misses it. */
  predicate LuckySkip(s: State)
    requires s.h.slots != [] && Masked(s.ring.readHead) + HEADER <= RING
  {
    && !s.h.slots[0].pad
    && s.h.slots[0].owner in s.producers && s.producers[s.h.slots[0].owner].dead
    && PoisonStride(StrideBytesAt(s.ring.mem, Masked(s.ring.readHead))) == s.h.slots[0].stride
  }

  /** The two steps keep the invariant exactly when: with the header stored, a claimed slot is poisoned only
      if that is safe; with the header still to come, the stale bytes read as claimed, and either they are
      not taken for stuck or the skip is lucky. */
  lemma LookKeepsInvariantIff(s: State, now: u64)
    requires Inv(s) && s.worker.Peeking? && InspectInBounds(s.ring) && Masked(s.ring.readHead) + HEADER <= RING
    ensures s.h.slots != []
    ensures var claimed := StateAt(s.ring.mem, Masked(s.ring.readHead)) == CLAIMED;
            Inv(Look(s, now)) <==>
              if HeaderVisible(s) then claimed ==> OnlyDeadPoisoned(s, now)
              else claimed && (Expired(s, now) ==> LuckySkip(s))
  {
    HasHead(s);
    hide Inv, Expired, LuckySkip, DoJudge, StateAt;
    if StateAt(s.ring.mem, Masked(s.ring.readHead)) != CLAIMED {
      InspectKeepsInvariantIff(s);
    } else if HeaderVisible(s) {
      InspectUncommitted(s);
      InspectKeepsInvariantIff(s);
      JudgedAfterLook(s, now);
    } else if !Expired(s, now) {
      UnseenLeftAlone(s, now);
    } else if LuckySkip(s) {
      LuckySkipKeeps(s, now);
    } else {
      StaleSkipBreaks(s, now);
    }
  }

  lemma HasHead(s: State)
    requires Inv(s) && s.worker.Peeking?
    ensures s.h.slots != [] && s.h.slots[0].start == s.h.r && SlotOk(s.h.slots[0])
    ensures Masked(s.ring.readHead) == s.h.r % RING
  {
    HeadFacts(s);
  }

  lemma JudgedAfterLook(s: State, now: u64)
    requires Masked(s.ring.readHead) + HEADER <= RING && Inv(s.(worker := Timing))
    ensures Inv(DoJudge(s.(worker := Timing), now)) <==> OnlyDeadPoisoned(s, now)
  {
    var s1 := s.(worker := Timing);
    hide Inv, DoJudge;
    assert Expired(s1, now) == Expired(s, now) && OnlyDeadPoisoned(s1, now) == OnlyDeadPoisoned(s, now);
    hide Expired;
    if Expired(s, now) {
      PoisonKeepsInvariantIff(s1, now);
    } else {
      JudgeKeeps(s1, now);
    }
  }

  lemma UnseenLeftAlone(s: State, now: u64)
    requires Inv(s) && s.worker.Peeking? && Masked(s.ring.readHead) + HEADER <= RING
    requires !HeaderVisible(s) && !Expired(s, now)
    ensures Inv(DoJudge(s.(worker := Timing), now))
  {
    hide RingInv, CallInv, NoTimeoutSeen;
    assert DoJudge(s.(worker := Timing), now) == Park(s, false);
    hide DoJudge, Expired;
    UnseenBooks(s);
  }

  lemma UnseenBooks(s: State)
    requires BookInv(s) && s.worker.Peeking? && !HeaderVisible(s)
    ensures BookInv(Park(s, false))
  {
    hide Fifo;
  }

  /** A skip, whatever the bytes that decided on it. */
  lemma SkipShape(s: State, now: u64)
    requires Masked(s.ring.readHead) + HEADER <= RING && Expired(s, now)
    ensures var s', skip := DoJudge(s.(worker := Timing), now),
                            PoisonStride(StrideBytesAt(s.ring.mem, Masked(s.ring.readHead)));
            && s'.producers == Forget(s)
            && s'.h == Retire(s.h, skip, [Retired(HeadPayload(s.h), true)], [])
  {
    hide WriteAt, Zeros, ToLE, StrideBytesAt, PoisonStride;
  }

  lemma LuckySkipKeeps(s: State, now: u64)
    requires Inv(s) && s.worker.Peeking? && Masked(s.ring.readHead) + HEADER <= RING
    requires !HeaderVisible(s) && Expired(s, now) && LuckySkip(s)
    ensures Inv(DoJudge(s.(worker := Timing), now))
  {
    hide Tiling, Stored, Linked, CallsOk, Fifo, Counted;
    HasHead(s);
    OwnerPresent(s);
    var s1, slot := s.(worker := Timing), s.h.slots[0];
    var s' := DoJudge(s1, now);
    PoisonEffect(s1, now, slot.stride);
    hide DoJudge, Expired, PoisonStride;
    PopRing(s.ring, s.h, Zeros(slot.stride), s'.ring, s'.h);
    PoisonCalls(s.producers, s.h, s'.h);
    PoisonBooks(s, s');
  }

  lemma StaleSkipBreaks(s: State, now: u64)
    requires Inv(s) && s.worker.Peeking? && Masked(s.ring.readHead) + HEADER <= RING && s.h.slots != []
    requires !HeaderVisible(s) && Expired(s, now) && !LuckySkip(s)
    ensures !Inv(DoJudge(s.(worker := Timing), now))
  {
    OwnerPresent(s);
    SkipShape(s, now);
    var s', slot := DoJudge(s.(worker := Timing), now), s.h.slots[0];
    hide Inv, DoJudge, Expired, PoisonStride, StrideBytesAt;
    if !s.producers[slot.owner].dead {
      LeftBehind(s, s', slot.owner);
    } else if slot.pad {
      PadNotRetired(s, s');
    } else {
      SkipMissesBoundary(s, s');
    }
  }

  lemma PadNotRetired(s: State, s': State)
    requires Inv(s) && s.h.slots != [] && s.h.slots[0].pad
    requires s'.h.slots == s.h.slots[1..] && s'.h.claimed == s.h.claimed
    requires s'.h.retired == s.h.retired + [Retired(HeadPayload(s.h), true)]
    ensures !Inv(s')
  {
    hide RingInv, CallInv, Counted, Awake;
    SurvivorsAppend(s.h.retired, Retired(HeadPayload(s.h), true));
    assert Outstanding(s.h.slots) == [] + Outstanding(s.h.slots[1..]);
    hide Outstanding, AllPayloads, Survivors;
    assert |s.h.claimed| == |AllPayloads(s.h.retired)| + |Outstanding(s.h.slots)|;
  }

  lemma SkipMissesBoundary(s: State, s': State)
    requires Inv(s) && s.h.slots != [] && s'.h.slots == s.h.slots[1..] && s'.h.w == s.h.w
    requires s'.h.r != s.h.r + s.h.slots[0].stride
    ensures !Inv(s')
  {
    hide CallInv, BookInv, Stored;
    if |s.h.slots| > 1 {
      assert s.h.slots[1].start == End(s.h.slots[0]) && s'.h.slots[0] == s.h.slots[1];
    }
  }

  lemma TimingUnseen(s: State)
    requires s.worker.Timing? && s.h.slots != [] && s.h.slots[0].phase.Reserved?
    ensures !Inv(s)
  {
  }

  lemma InsideIsNotTiled(s: State)
    requires s.h.slots != [] && s.h.slots[0].start != s.h.r
    ensures !Inv(s)
  {
  }

  lemma LeftBehind(s: State, s': State, p: Pid)
    requires Inv(s) && s.h.slots != [] && s.h.slots[0].owner == p && !s.h.slots[0].phase.Committed?
    requires p in s.producers && s'.producers == s.producers && s'.h.base == s.h.base + 1
    ensures !Inv(s')
  {
    hide RingInv, BookInv, CallsOk;
    assert s.producers[p].pc.OwnsSlot() && s.producers[p].pc.n == s.h.base;
    assert !Owned(p, s'.producers[p], s'.h.slots, s'.h.base);
  }

  // ---- when an event is refused -----------------------------------------------------------------

  /** When the space check refuses an event, for any age of the write head it was given: the heads count
      modulo the ring.  The check is exact while the write head stands, and every refusal is right while the
      worker has not passed the head that was read.  Once it has, the check measures the distance the
      worker went beyond it. */
  lemma RefusedIff(s: State, p: Pid)
    requires Inv(s) && Enabled(s, CheckSpace(p))
    ensures var pr := s.producers[p];
            var g, r, w, stride := pr.pc.g, s.h.r, s.h.w, Stride(|pr.payload|);
            var refused := AfterCheck(pr, s.ring.readHead).ToSignal?;
            && (refused <==> (g - r) % RING + stride > RING)
            && (g == w ==> (refused <==> w + stride > r + RING))
            && (r <= g && refused ==> w + stride > r + RING)
            && (g < r < g + RING ==> (refused <==> g + stride > r))
  {
    hide Inv, Stride, Used, InspectInBounds;
    HeadFacts(s);
    CallFact(s, p);
    var pr := s.producers[p];
    UsedIsDistance(pr.pc.g, s.h.r);
    CheckMeasures(pr.pc.g, s.h.r, s.h.w, Stride(|pr.payload|));
    hide CallOk;
  }

  lemma CheckMeasures(g: nat, r: nat, w: nat, stride: nat)
    requires r <= w < r + RING && g <= w
    ensures var refused := (g - r) % RING + stride > RING;
            && (g == w ==> (refused <==> w + stride > r + RING))
            && (r <= g && refused ==> w + stride > r + RING)
            && (g < r < g + RING ==> (refused <==> g + stride > r))
  {
    ModLaps(g - r, 1);
  }

  // ---- exact condition on a whole call ---------------------------------------------------------

  lemma SafeIsExact(s: State, size: nat)
    requires Inv(s)
    ensures SafeHere(s, size) <==> Safe(s.ring, size)
  {
    hide RingInv, CallInv, BookInv;
    HeadFacts(s);
    WrappedHeadsAreExact(s.h.w, s.h.r);
    var space := SpaceToEnd(s.ring.writeHead);
    if size <= MAX_PAYLOAD && Fits(s.ring, size) && NeedsWrap(s.ring, size) {
      assert s.h.w + space < s.h.r + RING;
      AdvanceWrapped(s.h.w, space);
      WrappedHeadsAreExact(s.h.w + space, s.h.r);
    }
  }

  /** An uninterrupted call leaves the ring in order if and only if its size is safe for the ring
      it finds; then the event, if accepted, is queued last and nothing else changes. */
  lemma CallKeepsInvariantIff(s: State, p: Pid, bytes: seq<byte>, tick: u64) returns (t: Trail)
    requires Inv(s) && s.active && p !in s.producers && bytes != []
    ensures Walked(t) && t.from == s && Fed(t) == [Call(p, bytes)] && CallDone(s, p, bytes, tick, t.now)
    ensures Inv(t.now) <==> Safe(s.ring, |bytes|)
    ensures Clean(t) <==> Safe(s.ring, |bytes|)
    ensures Outstanding(t.now.h.slots) == Outstanding(s.h.slots)
              + (if Produced(s.ring, bytes, tick).1 == Success then [bytes] else [])
  {
    t := SoloCall(s, p, bytes, tick);
    SafeIsExact(s, |bytes|);
    if SafeHere(s, |bytes|) {
      hide CallDone;
      RunKeeps(s, t.steps);
    } else {
      UnsafeCallBreaks(s, p, bytes, tick, t.now);
    }
    CallOutstanding(s, p, bytes, tick);
  }

  lemma UnsafeCallBreaks(s: State, p: Pid, bytes: seq<byte>, tick: u64, s': State)
    requires CallDone(s, p, bytes, tick, s') && !SafeHere(s, |bytes|)
    ensures !Inv(s')
  {
    hide Stride, Produced, CallInv, BookInv, Stored, NoTimeoutSeen;
    var more := CallSlots(s, p, bytes, tick);
    var n, last := |s.h.slots|, |s'.h.slots| - 1;
    assert s'.h.slots[n] == more[0] && s'.h.slots[last] == more[|more| - 1];
    assert !SlotOk(s'.h.slots[n]) || End(s'.h.slots[last]) == s'.h.r + RING;
  }

  lemma CallOutstanding(s: State, p: Pid, bytes: seq<byte>, tick: u64)
    ensures Outstanding(s.h.slots + CallSlots(s, p, bytes, tick)) == Outstanding(s.h.slots)
              + (if Produced(s.ring, bytes, tick).1 == Success then [bytes] else [])
  {
    hide Stride, Fits, NeedsWrap, Appended, Wrapped;
    var slots, more := s.h.slots, CallSlots(s, p, bytes, tick);
    if |more| == 0 {
      assert slots + more == slots;
    } else if |more| == 1 {
      assert slots + more == slots + [more[0]];
      OutstandingAppend(slots, more[0]);
    } else {
      assert slots + more == slots + [more[0]] + [more[1]];
      OutstandingAppend(slots, more[0]);
      OutstandingAppend(slots + [more[0]], more[1]);
    }
  }
}
