/**
 What the invariant says about every run of the dispatcher.
 */
module RingTheorems {
  import opened Bytes
  import opened RingLayout
  import opened RingProtocol
  import opened RingInvariant
  import opened RingSteps
  import opened RingWorkerSteps
  import opened RingCalls

  /** A run from start-up that respects the conditions on every step. */
  predicate Legal(ticksPerMs: u64, steps: seq<Step>) {
    Possible(Init(ticksPerMs), steps) && Respects(Init(ticksPerMs), steps)
  }

  function Final(ticksPerMs: u64, steps: seq<Step>): State
    requires Legal(ticksPerMs, steps)
  {
    Exec(Init(ticksPerMs), steps)
  }

  lemma Reached(ticksPerMs: u64, steps: seq<Step>)
    requires Legal(ticksPerMs, steps)
    ensures Inv(Final(ticksPerMs, steps))
  {
    InitInv(ticksPerMs);
    RunKeeps(Init(ticksPerMs), steps);
  }

  // ---- tiling ---------------------------------------------------------------------------------

  /** After every run the bytes between the heads are tiled by whole, aligned, unbroken slots that
      never share a byte, and the code's own occupancy is the true one. */
  lemma RingStaysTiled(ticksPerMs: u64, steps: seq<Step>)
    requires Legal(ticksPerMs, steps)
    ensures var s := Final(ticksPerMs, steps);
            && Tiling(s.h.slots, s.h.r, s.h.w)
            && Used(s.ring.writeHead, s.ring.readHead) == s.h.w - s.h.r
            && (s.h.slots != [] ==> Masked(s.ring.readHead) == s.h.slots[0].start % RING)
            && (forall i, j :: 0 <= i < |s.h.slots| && 0 <= j < |s.h.slots| && i != j ==>
                  || s.h.slots[i].start % RING + s.h.slots[i].stride <= s.h.slots[j].start % RING
                  || s.h.slots[j].start % RING + s.h.slots[j].stride <= s.h.slots[i].start % RING)
  {
    Reached(ticksPerMs, steps);
    var s := Final(ticksPerMs, steps);
    hide Possible, Respects, Exec, Linked, CallsOk, Stored, BookInv;
    HeadFacts(s);
    WrappedHeadsAreExact(s.h.w, s.h.r);
    forall i, j | 0 <= i < |s.h.slots| && 0 <= j < |s.h.slots| && i != j
      ensures || s.h.slots[i].start % RING + s.h.slots[i].stride <= s.h.slots[j].start % RING
              || s.h.slots[j].start % RING + s.h.slots[j].stride <= s.h.slots[i].start % RING
    {
      SlotsDisjoint(s.h.slots, s.h.r, s.h.w, i, j);
    }
  }

  /** A successful swap never takes more than is free now, although it was decided on a read head
      that may have moved since; no other condition than an unwrapped snapshot is needed. */
  lemma SwapNeverOvercommits(s: State, p: Pid)
    requires Inv(s) && CanCas(s, p) && FreshSnapshot(s, p)
    ensures DoCas(s, p).h.w <= s.h.r + RING
    ensures s.producers[p].pc.WantPad? ==> DoCas(s, p).h.w < s.h.r + RING
  {
    hide Tiling, Stored, Linked, CallsOk, BookInv;
    SnapshotCurrent(s, p);
    HeadFacts(s);
    CallFact(s, p);
    ModOfMod(s.h.w);
  }

  // ---- first in, first out ------------------------------------------------------------------------

  /** The items whose flag is set. */
  function Kept<T>(items: seq<T>, keep: seq<bool>): seq<T>
    requires |items| == |keep|
  {
    if items == [] then [] else (if keep[0] then [items[0]] else []) + Kept(items[1..], keep[1..])
  }

  function Flags(retired: seq<Retired>): (keep: seq<bool>)
    ensures |keep| == |retired|
  {
    if retired == [] then [] else [!retired[0].poisoned] + Flags(retired[1..])
  }

  function CountFalse(keep: seq<bool>): nat {
    if keep == [] then 0 else (if keep[0] then 0 else 1) + CountFalse(keep[1..])
  }

  lemma {:induction false} KeptIsSurvivors(retired: seq<Retired>, rest: seq<seq<byte>>, ones: seq<bool>)
    requires |rest| == |ones| && forall i :: 0 <= i < |ones| ==> ones[i]
    ensures |AllPayloads(retired)| == |retired|
    ensures Kept(AllPayloads(retired) + rest, Flags(retired) + ones) == Survivors(retired) + rest
  {
    var items, keep := AllPayloads(retired), Flags(retired);
    if retired == [] {
      assert items + rest == rest && keep + ones == ones;
      KeptAll(rest, ones);
    } else {
      KeptIsSurvivors(retired[1..], rest, ones);
      assert (items + rest)[1..] == items[1..] + rest;
      assert (keep + ones)[1..] == keep[1..] + ones;
      hide Kept, Survivors, AllPayloads, Flags;
      KeptStep(items + rest, keep + ones);
      SurvivorsStep(retired, rest);
    }
  }

  lemma KeptStep<T>(items: seq<T>, keep: seq<bool>)
    requires |items| == |keep| > 0
    ensures Kept(items, keep) == (if keep[0] then [items[0]] else []) + Kept(items[1..], keep[1..])
  {
  }

  lemma SurvivorsStep(retired: seq<Retired>, rest: seq<seq<byte>>)
    requires retired != []
    ensures AllPayloads(retired) == [retired[0].payload] + AllPayloads(retired[1..])
    ensures Flags(retired) == [!retired[0].poisoned] + Flags(retired[1..])
    ensures Survivors(retired) + rest ==
            (if retired[0].poisoned then [] else [retired[0].payload]) + (Survivors(retired[1..]) + rest)
  {
  }

  lemma {:induction false} FlagsCount(retired: seq<Retired>, ones: seq<bool>)
    requires forall i :: 0 <= i < |ones| ==> ones[i]
    ensures CountFalse(Flags(retired) + ones) == |retired| - |Survivors(retired)|
  {
    if retired == [] {
      assert Flags(retired) + ones == ones;
      KeptAll(ones, ones);
    } else {
      FlagsCount(retired[1..], ones);
      assert (Flags(retired) + ones)[1..] == Flags(retired[1..]) + ones;
    }
  }

  lemma {:induction false} KeptAll<T>(items: seq<T>, keep: seq<bool>)
    requires |items| == |keep| && forall i :: 0 <= i < |keep| ==> keep[i]
    ensures Kept(items, keep) == items && CountFalse(keep) == 0
  {
    if items != [] {
      KeptAll(items[1..], keep[1..]);
      assert items == [items[0]] + items[1..];
    }
  }

  /** After every run, every call that the run started has claimed a slot once, for its own bytes, or was
      refused once, or is still in progress without a claim; and every call in progress holds the bytes of the
      latest call started under its number. */
  lemma EachCallOnce(ticksPerMs: u64, steps: seq<Step>)
    requires Legal(ticksPerMs, steps)
    ensures var s, calls := Final(ticksPerMs, steps), Calls(steps);
            && |s.h.log.claimants| == |s.h.claimed|
            && (forall i :: 0 <= i < |s.h.claimed| ==>
                  s.h.log.claimants[i] < |calls| && s.h.claimed[i] == calls[s.h.log.claimants[i]].payload)
            && Distinct(s.h.log.claimants + s.h.log.refusals)
            && (forall c :: 0 <= c < |calls| ==>
                  (c in s.h.log.claimants + s.h.log.refusals <==> !Waiting(s.producers, calls, c)))
            && (forall p :: p in s.producers ==>
                  && s.producers[p].call < |calls| && calls[s.producers[p].call] == Call(p, s.producers[p].payload)
                  && (forall j :: s.producers[p].call < j < |calls| ==> calls[j].p != p))
  {
    InitInv(ticksPerMs);
    InitTracked(ticksPerMs);
    RunTracks(Init(ticksPerMs), steps);
    CallsLogged(Init(ticksPerMs), steps);
    assert [] + Calls(steps) == Calls(steps);
    hide Possible, Respects, Exec, Distinct, Waiting, Calls;
  }

  lemma DistinctFront(xs: seq<nat>, ys: seq<nat>)
    requires Distinct(xs + ys)
    ensures Distinct(xs)
  {
    assert forall i :: 0 <= i < |xs| ==> (xs + ys)[i] == xs[i];
  }

  /** What the worker has read, followed by what is still in the ring, is what was claimed, in
      claim order, with exactly the poisoned events missing: the claims that have left the ring are, in
      order, the retired events, and those marked poisoned are the ones not kept.  Each claim is the bytes of
      a call of the run, no call claims twice.  Pads never show. */
  lemma RingIsFifo(ticksPerMs: u64, steps: seq<Step>) returns (keep: seq<bool>)
    requires Legal(ticksPerMs, steps)
    ensures var s := Final(ticksPerMs, steps);
            && |keep| == |s.h.claimed|
            && |s.h.log.claimants| == |s.h.claimed| && Distinct(s.h.log.claimants)
            && (forall i :: 0 <= i < |s.h.claimed| ==>
                  && s.h.log.claimants[i] < |Calls(steps)|
                  && s.h.claimed[i] == Calls(steps)[s.h.log.claimants[i]].payload)
            && s.h.claimed == AllPayloads(s.h.retired) + Outstanding(s.h.slots)
            && keep == Flags(s.h.retired) + seq(|Outstanding(s.h.slots)|, _ => true)
            && s.h.consumed + Outstanding(s.h.slots) == Kept(s.h.claimed, keep)
            && CountFalse(keep) == s.ring.poisoned
  {
    Reached(ticksPerMs, steps);
    EachCallOnce(ticksPerMs, steps);
    var s := Final(ticksPerMs, steps);
    DistinctFront(s.h.log.claimants, s.h.log.refusals);
    hide Possible, Respects, Exec, RingInv, CallInv, Awake, Distinct;
    var rest := Outstanding(s.h.slots);
    var ones := seq(|rest|, _ => true);
    KeptIsSurvivors(s.h.retired, rest, ones);
    FlagsCount(s.h.retired, ones);
    keep := Flags(s.h.retired) + ones;
  }

  /** One step of a plain queue: nothing, an append, or the removal of the front. */
  ghost predicate QueueStep(s: State, s': State) {
    var q, q' := Outstanding(s.h.slots), Outstanding(s'.h.slots);
    || (q' == q && s'.h.claimed == s.h.claimed && s'.h.consumed == s.h.consumed && s'.ring.poisoned == s.ring.poisoned)
    || (exists x ::
          && q' == q + [x] && s'.h.claimed == s.h.claimed + [x]
          && s'.h.consumed == s.h.consumed && s'.ring.poisoned == s.ring.poisoned)
    || (exists x ::
          && q == [x] + q' && s'.h.claimed == s.h.claimed
          && (|| (s'.h.consumed == s.h.consumed + [x] && s'.ring.poisoned == s.ring.poisoned)
              || (s'.h.consumed == s.h.consumed && s'.ring.poisoned == s.ring.poisoned + 1)))
  }

  /** The logs, as a function of two states that agree on them. */
  lemma SameLogs(s: State, s': State)
    requires s'.h.slots == s.h.slots && s'.h.claimed == s.h.claimed && s'.h.consumed == s.h.consumed
    requires s'.ring.poisoned == s.ring.poisoned
    ensures QueueStep(s, s')
  {
  }

  lemma MarkedLogs(s: State, s': State, i: nat)
    requires i < |s.h.slots| == |s'.h.slots| && s'.h.slots == s.h.slots[i := s'.h.slots[i]]
    requires s'.h.slots[i].pad == s.h.slots[i].pad && s'.h.slots[i].payload == s.h.slots[i].payload
    requires s'.h.claimed == s.h.claimed && s'.h.consumed == s.h.consumed && s'.ring.poisoned == s.ring.poisoned
    ensures QueueStep(s, s')
  {
    OutstandingUpdate(s.h.slots, i, s'.h.slots[i]);
  }

  lemma CasIsQueueStep(s: State, p: Pid)
    requires CanCas(s, p)
    ensures QueueStep(s, DoCas(s, p))
  {
    var s' := DoCas(s, p);
    if s.ring.writeHead == s.producers[p].pc.cur {
      OutstandingAppend(s.h.slots, s'.h.slots[|s.h.slots|]);
      if s.producers[p].pc.WantClaim? {
        var x := s.producers[p].payload;
        assert Outstanding(s'.h.slots) == Outstanding(s.h.slots) + [x];
      }
    }
  }

  lemma InspectIsQueueStep(s: State)
    requires Inv(s) && s.worker.Peeking? && InspectInBounds(s.ring) && HeaderVisible(s)
    ensures QueueStep(s, DoInspect(s))
  {
    hide RingInv, CallInv, Fifo, Counted, Awake;
    HeadFound(s);
    var s' := DoInspect(s);
    var slot := s.h.slots[0];
    InspectEffect(s, slot);
    hide Inv, DoInspect, HeadSeen, InspectInBounds;
    if slot.phase.Committed? {
      assert s'.h.slots == s.h.slots[1..];
      if !slot.pad {
        assert Outstanding(s.h.slots) == [slot.payload] + Outstanding(s'.h.slots);
      }
    }
  }

  lemma JudgeIsQueueStep(s: State, now: u64)
    requires Inv(s) && s.worker.Timing? && Masked(s.ring.readHead) + HEADER <= RING
    requires OnlyDeadPoisoned(s, now)
    ensures QueueStep(s, DoJudge(s, now))
  {
    hide Tiling, Stored, Linked, CallsOk, Fifo, Counted, Awake;
    HeadFound(s);
    var s' := DoJudge(s, now);
    JudgeEffect(s, now);
    hide DoJudge, Expired, OnlyDeadPoisoned;
    if Expired(s, now) {
      assert s'.h.slots == s.h.slots[1..];
      assert Outstanding(s.h.slots) == [s.h.slots[0].payload] + Outstanding(s'.h.slots);
    }
  }

  lemma PublishIsQueueStep(s: State, p: Pid, tick: u64)
    requires Inv(s) && Enabled(s, PublishHeader(p, tick))
    ensures QueueStep(s, DoPublish(s, p, tick))
  {
    hide Inv, QueueStep, WriteAt, HeaderBytes, Stride;
    OwnerStep(s, p, DoPublish(s, p, tick));
  }

  lemma CopyIsQueueStep(s: State, p: Pid)
    requires Inv(s) && Enabled(s, CopyPayload(p))
    ensures QueueStep(s, DoCopy(s, p))
  {
    hide Inv, QueueStep, WriteAt;
    OwnerStep(s, p, DoCopy(s, p));
  }

  lemma CommitIsQueueStep(s: State, p: Pid)
    requires Inv(s) && Enabled(s, Commit(p))
    ensures QueueStep(s, DoCommit(s, p))
  {
    hide Inv, QueueStep, WriteAt, ToLE;
    OwnerStep(s, p, DoCommit(s, p));
  }

  /** Every step of the ring is a step of a plain first-in-first-out queue of byte strings: the
      bytes the worker copies out are the queue's front. */
  lemma StepRefinesQueue(s: State, step: Step)
    requires Inv(s) && Enabled(s, step) && Assumed(s, step)
    ensures QueueStep(s, Apply(s, step))
  {
    hide Inv, QueueStep, DoCas, DoInspect, DoJudge, DoPublish, DoCopy, DoCommit;
    match step
    case Cas(p) => CasIsQueueStep(s, p);
    case PublishHeader(p, tick) => PublishIsQueueStep(s, p, tick);
    case CopyPayload(p) => CopyIsQueueStep(s, p);
    case Commit(p) => CommitIsQueueStep(s, p);
    case Inspect => InspectIsQueueStep(s);
    case Judge(now) => JudgeIsQueueStep(s, now);
    case _ =>
      hide QueueStep, Enabled, Assumed;
      if step.Wake? || step.Poll? || step.CheckPort? || step.Send? {
        WorkerStepSameLogs(s, step);
      } else {
        CallStepSameLogs(s, step);
      }
  }

  lemma WorkerStepSameLogs(s: State, step: Step)
    requires Enabled(s, step) && (step.Wake? || step.Poll? || step.CheckPort? || step.Send?)
    ensures QueueStep(s, Apply(s, step))
  {
    hide QueueStep;
    match step
    case Wake(cause) => SameLogs(s, DoWake(s, cause));
    case Poll => SameLogs(s, DoPoll(s));
    case CheckPort => SameLogs(s, DoCheckPort(s));
    case Send(status) => SameLogs(s, DoSend(s, status));
  }

  lemma CallStepSameLogs(s: State, step: Step)
    requires Enabled(s, step)
    requires || step.FailEarly? || step.Start? || step.ReadWriteHead? || step.CheckSpace? || step.Count?
             || step.Signal? || step.Die? || step.Connect? || step.Disconnect? || step.Stop?
    ensures QueueStep(s, Apply(s, step))
  {
    hide QueueStep;
    match step
    case FailEarly => SameLogs(s, DoFailEarly(s));
    case Start(p, payload) => SameLogs(s, DoStart(s, p, payload));
    case ReadWriteHead(p) => SameLogs(s, DoRead(s, p));
    case CheckSpace(p) => SameLogs(s, DoCheckSpace(s, p));
    case Count(p) => SameLogs(s, DoCount(s, p));
    case Signal(p) => SameLogs(s, DoSignal(s, p));
    case Die(p) => SameLogs(s, DoDie(s, p));
    case Connect => SameLogs(s, DoConnect(s));
    case Disconnect => SameLogs(s, s.(port := false, sendTimeouts := 0));
    case Stop => SameLogs(s, DoStop(s));
  }

  lemma OwnerStep(s: State, p: Pid, s': State)
    requires Inv(s) && Live(s, p) && s.producers[p].pc.OwnsSlot()
    requires var n := s.producers[p].pc.n - s.h.base;
             |s'.h.slots| == |s.h.slots| && (0 <= n < |s.h.slots| ==>
               && s'.h == s.h.(slots := s.h.slots[n := s'.h.slots[n]])
               && s'.h.slots[n].pad == s.h.slots[n].pad && s'.h.slots[n].payload == s.h.slots[n].payload)
    requires s'.ring.poisoned == s.ring.poisoned
    ensures QueueStep(s, s')
  {
    var i := OwnerFacts(s, p);
    hide Inv, QueueStep;
    MarkedLogs(s, s', i);
  }

  // ---- wake-ups ------------------------------------------------------------------------------------

  /** No lost wake-up.  If the worker sleeps on a committed head slot, its event is set, or the
      very producer of that slot is on its way to setting it or has stopped for good on that way, or the
      last drain gave up on a send error. */
  lemma NoLostWakeup(ticksPerMs: u64, steps: seq<Step>)
    requires Legal(ticksPerMs, steps)
    ensures var s := Final(ticksPerMs, steps);
            s.worker.Parked? && s.h.slots != [] && s.h.slots[0].phase.Committed? ==>
              || s.ring.dataReady
              || s.worker.hardError
              || (Live(s, s.h.slots[0].owner) && s.producers[s.h.slots[0].owner].OwesSignal())
              || (&& s.h.slots[0].owner in s.producers && s.producers[s.h.slots[0].owner].dead
                  && s.producers[s.h.slots[0].owner].OwesSignal())
  {
    Reached(ticksPerMs, steps);
    hide Possible, Respects, Exec, RingInv, CallInv;
  }

  /** With no call in progress, a sleeping worker that is not about to wake has left nothing behind:
      the ring is empty and everything claimed was read or poisoned. */
  lemma NothingStranded(ticksPerMs: u64, steps: seq<Step>)
    requires Legal(ticksPerMs, steps)
    requires var s := Final(ticksPerMs, steps);
             s.producers == map[] && s.worker == Parked(false) && !s.ring.dataReady
    ensures var s := Final(ticksPerMs, steps);
            && s.h.slots == [] && s.h.r == s.h.w
            && s.h.claimed == AllPayloads(s.h.retired)
            && s.h.attempts == |s.h.consumed| + s.h.refused + s.ring.poisoned
  {
    Reached(ticksPerMs, steps);
    var s := Final(ticksPerMs, steps);
    hide Possible, Respects, Exec, CallsOk, Stored;
    assert Members(s.producers, Uncounted) == {} && Members(s.producers, CommittedUncounted) == {};
    if s.h.slots != [] {
      assert false;
    }
    assert s.h.claimed == AllPayloads(s.h.retired) + [];
  }

  /** With every call in progress stopped for good, a sleeping worker that is not about to wake waits for
      nobody but a stopped call: either the ring is empty or the head slot's producer is one of them. */
  lemma OnlyTheDeadStrand(ticksPerMs: u64, steps: seq<Step>)
    requires Legal(ticksPerMs, steps)
    requires var s := Final(ticksPerMs, steps);
             && (forall p :: p in s.producers ==> s.producers[p].dead)
             && s.worker == Parked(false) && !s.ring.dataReady
    ensures var s := Final(ticksPerMs, steps);
            && (s.h.slots == [] <==> s.h.r == s.h.w)
            && (s.h.slots != [] ==>
                  && s.h.slots[0].owner in s.producers
                  && (if s.h.slots[0].phase.Committed? then s.producers[s.h.slots[0].owner].OwesSignal()
                      else s.producers[s.h.slots[0].owner].pc.OwnsSlot()))
  {
    Reached(ticksPerMs, steps);
    var s := Final(ticksPerMs, steps);
    hide Possible, Respects, Exec, Fifo, Counted, Stored, CallsOk, Legal;
    if s.h.slots != [] && !s.h.slots[0].phase.Committed? {
      OwnerPresent(s);
    }
  }

  // ---- conservation ---------------------------------------------------------------------------------

  predicate IsSent(f: Fate) { f.how.Sent? && f.how.status != STATUS_TIMEOUT }
  predicate IsUnsent(f: Fate) { f.how.Sent? && f.how.status == STATUS_TIMEOUT }
  predicate IsNoPort(f: Fate) { f.how.NoPort? }
  predicate IsHard(f: Fate) { f.how.HardError? }

  /** A timed-out send has a success status: it is logged as sent and the drop counter stays. */
  lemma TimeoutTakenForSuccess(s: State)
    requires s.worker.Sending? && s.port
    ensures DoSend(s, STATUS_TIMEOUT).h.fates == s.h.fates + [Fate(s.worker.bytes, Sent(STATUS_TIMEOUT))]
    ensures DoSend(s, STATUS_TIMEOUT).ring.dropped == s.ring.dropped
  {
  }

  lemma {:induction false} FatesSplit(fates: seq<Fate>)
    ensures |fates| == CountFate(fates, IsSent) + CountFate(fates, IsUnsent) + CountFate(fates, IsNoPort)
                       + CountFate(fates, IsHard) + CountFate(fates, IsTimedOut)
    ensures CountFate(fates, CountedAtDrain) ==
            CountFate(fates, IsNoPort) + CountFate(fates, IsTimedOut)
  {
    if fates != [] {
      FatesSplit(fates[1..]);
    }
  }

  /** Every event past the gate is accounted for, at every moment of every run.  The drop counter
      sees refusals and sends without a client; it misses sends that timed out or failed hard. */
  lemma EventsConserved(ticksPerMs: u64, steps: seq<Step>)
    requires Legal(ticksPerMs, steps)
    ensures var s := Final(ticksPerMs, steps);
            var held := if s.worker.Holding? || s.worker.Sending? then 1 else 0;
            && s.h.attempts == s.ring.enqueued + s.h.refused + s.ring.poisoned + HowMany(s.producers, Uncounted)
            && s.ring.enqueued + HowMany(s.producers, CommittedUncounted)
               == CountFate(s.h.fates, IsSent) + CountFate(s.h.fates, IsUnsent) + CountFate(s.h.fates, IsNoPort)
                  + CountFate(s.h.fates, IsHard) + held + CommittedData(s.h.slots)
            && s.ring.dropped == s.h.refused + CountFate(s.h.fates, IsNoPort)
  {
    Reached(ticksPerMs, steps);
    var s := Final(ticksPerMs, steps);
    hide Possible, Respects, Exec, RingInv, CallInv, Awake, Fifo;
    FatesSplit(s.h.fates);
  }

  /** The drop counter equals the events that were lost without being poisoned exactly when no
      send has timed out or failed hard. */
  lemma DropCounterExactWhen(ticksPerMs: u64, steps: seq<Step>)
    requires Legal(ticksPerMs, steps)
    ensures var s := Final(ticksPerMs, steps);
            var lost := s.h.refused + |s.h.fates| - CountFate(s.h.fates, IsSent);
            s.ring.dropped == lost <==>
              CountFate(s.h.fates, IsUnsent) == 0 && CountFate(s.h.fates, IsHard) == 0
  {
    EventsConserved(ticksPerMs, steps);
    Reached(ticksPerMs, steps);
    FatesSplit(Final(ticksPerMs, steps).h.fates);
    hide Possible, Respects, Exec, RingInv, CallInv, Awake, Fifo;
  }

  // ---- poisoning and progress ----------------------------------------------------------------------

  /** The worker, about to judge a claimed event at time `now`: it is skipped as stuck if and only if 500
      milliseconds' worth of ticks have gone by since its claim time; if not, nothing changes and the drain
      ends.  The tick counter has 64 bits; a claim time of zero is never old. */
  lemma AgeDecides(s: State, now: u64)
    requires Inv(s) && s.worker.Timing? && Enabled(s, Judge(now)) && !s.h.slots[0].pad
    ensures var s', slot, tick := DoJudge(s, now), s.h.slots[0], s.h.slots[0].tick;
            var old500 := && tick > 0 && s.ticksPerMs > 0
                          && (if tick <= now then now - tick >= 500 * s.ticksPerMs
                              else now + 0x1_0000_0000_0000_0000 - tick >= 500 * s.ticksPerMs);
            if old500 then
              && s'.h.slots == s.h.slots[1..] && s'.ring.poisoned == s.ring.poisoned + 1
              && s'.h.r == s.h.r + slot.stride && s'.h.retired == s.h.retired + [Retired(slot.payload, true)]
              && s'.h.consumed == s.h.consumed && s'.worker.Draining?
            else
              s' == s.(worker := if s.stopping then Exited else Parked(false))
  {
    hide CallInv, Fifo, Counted, Awake, Tiling, Stored, NoTimeoutSeen;
    HeadFound(s);
    JudgeEffect(s, now);
    TimedOutIff(now, s.h.slots[0].tick, s.ticksPerMs);
    hide Inv, DoJudge, TimedOut, SlotOk, Forget;
  }

  /** Pads carry no claim time, so the worker waits for them and never skips one as stuck. */
  lemma PadsNeverPoisoned(s: State, now: u64)
    requires Inv(s) && s.worker.Timing? && s.h.slots[0].pad
    ensures Masked(s.ring.readHead) + HEADER <= RING && !Expired(s, now)
  {
    HeadFound(s);
  }

  /** Poisoning clears exactly the stuck slot and stops at the next slot's start. */
  lemma PoisonStaysInSlot(s: State, now: u64)
    requires Inv(s) && s.worker.Timing? && Masked(s.ring.readHead) + HEADER <= RING && Expired(s, now)
    ensures var s' := DoJudge(s, now);
            var off := s.h.slots[0].start % RING;
            && s'.h.r == End(s.h.slots[0])
            && (|s.h.slots| > 1 ==> s'.h.r == s.h.slots[1].start)
            && (forall k :: 0 <= k < RING ==>
                  s'.ring.mem[k] == if off <= k < off + s.h.slots[0].stride then 0 else s.ring.mem[k])
  {
    hide Stored, Linked, CallsOk, Fifo, Counted, Awake;
    assert |s.h.slots| > 1 ==> s.h.slots[1].start == End(s.h.slots[0]);
    HeadFound(s);
    JudgeEffect(s, now);
    assert s.h.slots[0].start == s.h.r;
    hide Inv, DoJudge, HeadSeen, Expired, Judged;
    JudgedEach(s, DoJudge(s, now));
  }

  lemma JudgedEach(s: State, s': State)
    requires s.h.slots != [] && Judged(s, s', s.h.slots[0], true)
    ensures s'.h.r == s.h.r + s.h.slots[0].stride
    ensures var off := s.h.r % RING;
            forall k :: 0 <= k < RING ==>
              s'.ring.mem[k] == if off <= k < off + s.h.slots[0].stride then 0 else s.ring.mem[k]
  {
    hide WriteAt, Zeros, Forget;
    ZeroedEach(s.ring.mem, s.h.r % RING, s.h.slots[0].stride);
  }

  lemma ZeroedEach(mem: seq<byte>, off: nat, n: nat)
    requires off + n <= |mem|
    ensures var m := WriteAt(mem, off, Zeros(n));
            forall k :: 0 <= k < |mem| ==> m[k] == if off <= k < off + n then 0 else mem[k]
  {
    WriteAtEach(mem, off, Zeros(n));
  }

  /** A call never retries more often than other calls have reserved slots since it began: of all
      reservations since, its own are not counted. */
  lemma RetriesArePaidFor(ticksPerMs: u64, steps: seq<Step>, p: Pid)
    requires Legal(ticksPerMs, steps) && p in Final(ticksPerMs, steps).producers
    ensures var s := Final(ticksPerMs, steps);
            var others := s.h.Reservations() - s.producers[p].began - s.producers[p].mine;
            s.producers[p].fails <= others
  {
    Reached(ticksPerMs, steps);
    CallFact(Final(ticksPerMs, steps), p);
    hide Possible, Respects, Exec, RingInv, CallInv, BookInv;
  }

  /** Leaving a slot strictly shrinks what is between the heads, so `ConsumeOne` cannot go round
      for ever: it repeats only after a pad or a poisoned slot. */
  lemma InspectShrinks(s: State)
    requires Inv(s) && s.worker.Peeking? && InspectInBounds(s.ring) && HeaderVisible(s)
    ensures DoInspect(s).worker.Timing? || DoInspect(s).h.w - DoInspect(s).h.r < s.h.w - s.h.r
  {
    hide RingInv, CallInv;
    assert s.h.slots != [];
    hide BookInv;
    HeadFound(s);
    InspectEffect(s, s.h.slots[0]);
    hide DoInspect, InspectInBounds;
  }

  lemma PoisonShrinks(s: State, now: u64)
    requires Inv(s) && s.worker.Timing? && Masked(s.ring.readHead) + HEADER <= RING
    ensures Expired(s, now) ==> DoJudge(s, now).h.w - DoJudge(s, now).h.r < s.h.w - s.h.r
  {
    hide RingInv, CallInv, BookInv;
  }

  /** What the worker holds fits the send buffer. */
  lemma HeldFitsSendBuffer(s: State)
    requires Inv(s) && s.worker.Peeking? && InspectInBounds(s.ring) && HeaderVisible(s)
    ensures DoInspect(s).worker.Holding? ==>
              && |DoInspect(s).worker.bytes| <= MAX_PAYLOAD <= SEND_BUFFER
              && DoInspect(s).worker.bytes == s.h.slots[0].payload
  {
    hide Tiling, Stored, Linked, CallsOk, Fifo, Counted, Awake;
    HeadFound(s);
  }

  // ---- no step leaves the ring, and no call gets stuck ----------------------------------------------

  /** What a producer does next. */
  function NextStep(p: Pid, pc: Pc, tick: u64): Step {
    match pc
    case AtLoop => ReadWriteHead(p)
    case HaveCur(_, _, _) => CheckSpace(p)
    case WantPad(_, _, _) | WantClaim(_, _, _) => Cas(p)
    case PadReserved(_, _) | DataReserved(_, _) => PublishHeader(p, tick)
    case DataClaimed(_, _) => CopyPayload(p)
    case PadClaimed(_, _) | DataFilled(_, _) => Commit(p)
    case ToCount => Count(p)
    case ToSignal => Signal(p)
  }

  lemma OwnerRoom(s: State, p: Pid)
    requires Inv(s) && Live(s, p) && s.producers[p].pc.OwnsSlot()
    ensures Masked(s.producers[p].pc.at) + HEADER <= RING
    ensures s.producers[p].pc.DataClaimed? ==>
              Masked(s.producers[p].pc.at) + HEADER + |s.producers[p].payload| <= RING
  {
    var i := OwnerFacts(s, p);
    hide Inv;
  }

  lemma RoomEnables(s: State, p: Pid, tick: u64)
    requires Live(s, p)
    requires var pr := s.producers[p];
             && (!pr.pc.ToSignal? ==> |pr.payload| <= MAX_PAYLOAD)
             && (pr.pc.OwnsSlot() ==> Masked(pr.pc.at) + HEADER <= RING)
             && (pr.pc.DataClaimed? ==> Masked(pr.pc.at) + HEADER + |pr.payload| <= RING)
    ensures Enabled(s, NextStep(p, s.producers[p].pc, tick))
  {
    hide InspectInBounds, Masked;
  }

  lemma CallGoesOn(s: State, p: Pid, tick: u64)
    requires Inv(s) && Live(s, p)
    ensures Enabled(s, NextStep(p, s.producers[p].pc, tick))
  {
    hide Inv, Enabled, NextStep;
    CallFact(s, p);
    if s.producers[p].pc.OwnsSlot() {
      OwnerRoom(s, p);
    }
    RoomEnables(s, p, tick);
  }

  lemma WorkerStaysInside(s: State)
    requires Inv(s)
    ensures s.worker.Peeking? && HeaderVisible(s) ==> InspectInBounds(s.ring)
    ensures s.worker.Timing? ==> Masked(s.ring.readHead) + HEADER <= RING
  {
    if s.worker.Timing? || (s.worker.Peeking? && HeaderVisible(s)) {
      assert WorkerOk(s.worker, s.h.slots, s.h.consumed);
      hide Inv, InspectInBounds;
      HeadFound(s);
      HeadInside(s, s.h.slots[0]);
    }
  }

  /** After every run, whatever a live producer does next can be done: its header, its payload and its
      commit lie inside the ring.  So do the worker's reads, copies and clears. */
  lemma EveryAccessInside(ticksPerMs: u64, steps: seq<Step>)
    requires Legal(ticksPerMs, steps)
    ensures var s := Final(ticksPerMs, steps);
            && (forall p, tick: u64 :: Live(s, p) ==> Enabled(s, NextStep(p, s.producers[p].pc, tick)))
            && (s.worker.Peeking? && HeaderVisible(s) ==> Enabled(s, Inspect))
            && (forall now: u64 :: s.worker.Timing? ==> Enabled(s, Judge(now)))
  {
    Reached(ticksPerMs, steps);
    AllGoOn(Final(ticksPerMs, steps));
    hide *;
  }

  lemma AllGoOn(s: State)
    requires Inv(s)
    ensures forall p, tick: u64 :: Live(s, p) ==> Enabled(s, NextStep(p, s.producers[p].pc, tick))
    ensures s.worker.Peeking? && HeaderVisible(s) ==> Enabled(s, Inspect)
    ensures forall now: u64 :: s.worker.Timing? ==> Enabled(s, Judge(now))
  {
    hide Inv, Enabled, NextStep;
    WorkerGoesOn(s);
    forall p, tick: u64 | Live(s, p)
      ensures Enabled(s, NextStep(p, s.producers[p].pc, tick))
    {
      CallGoesOn(s, p, tick);
    }
  }

  lemma WorkerGoesOn(s: State)
    requires Inv(s)
    ensures s.worker.Peeking? && HeaderVisible(s) ==> Enabled(s, Inspect)
    ensures forall now: u64 :: s.worker.Timing? ==> Enabled(s, Judge(now))
  {
    hide Inv, InspectInBounds;
    WorkerStaysInside(s);
  }
}
