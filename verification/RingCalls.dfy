/**
 Which call made which claim: over every run, each call that is started claims once with the very bytes
 it was started with, or is refused once, or is still without a claim.
 */
module RingCalls {
  import opened Wrappers
  import opened Bytes
  import opened RingLayout
  import opened RingProtocol
  import opened RingInvariant
  import opened RingSteps
  import opened RingWorkerSteps

  /** A call at this point has neither claimed a slot nor been refused one. */
  predicate Unclaimed(pc: Pc) {
    pc.AtLoop? || pc.HasSnapshot() || pc.OwnsPad()
  }

  /** Every call in progress is the latest one started under its number, with the bytes it was started with. */
  predicate CallsKnown(producers: map<Pid, Producer>, calls: seq<Call>) {
    forall p :: p in producers ==>
      && producers[p].call < |calls| && calls[producers[p].call] == Call(p, producers[p].payload)
      && (forall j :: producers[p].call < j < |calls| ==> calls[j].p != p)
  }

  predicate Distinct(xs: seq<nat>) {
    forall i, j :: 0 <= i < j < |xs| ==> xs[i] != xs[j]
  }

  /** Every claim has the bytes of the call that made it, and no call claims or is refused twice. */
  predicate ClaimsKnown(claimed: seq<seq<byte>>, log: CallLog) {
    && |log.claimants| == |claimed|
    && (forall i :: 0 <= i < |claimed| ==>
          log.claimants[i] < |log.calls| && claimed[i] == log.calls[log.claimants[i]].payload)
    && (forall i :: 0 <= i < |log.refusals| ==> log.refusals[i] < |log.calls|)
    && Distinct(log.claimants + log.refusals)
  }

  /** The call is in progress and has neither claimed nor been refused. */
  predicate Waiting(producers: map<Pid, Producer>, calls: seq<Call>, c: nat)
    requires c < |calls|
  {
    var p := calls[c].p;
    p in producers && producers[p].call == c && Unclaimed(producers[p].pc)
  }

  /** Every call has claimed, has been refused, or is waiting; never two of these. */
  predicate AllAccounted(producers: map<Pid, Producer>, log: CallLog) {
    forall c :: 0 <= c < |log.calls| ==>
      (c in log.claimants + log.refusals <==> !Waiting(producers, log.calls, c))
  }

  predicate Tracked(s: State) {
    && CallsKnown(s.producers, s.h.log.calls)
    && ClaimsKnown(s.h.claimed, s.h.log)
    && AllAccounted(s.producers, s.h.log)
  }

  // ---- steps that neither start a call nor settle one ------------------------------------------------

  /** No call's bytes change, none starts, claims or is refused, and none that waits goes away. */
  predicate SameCalls(s: State, s': State) {
    && s'.h.claimed == s.h.claimed && s'.h.log == s.h.log
    && (forall p :: p in s'.producers ==>
          && p in s.producers && s'.producers[p].payload == s.producers[p].payload
          && s'.producers[p].call == s.producers[p].call
          && (Unclaimed(s'.producers[p].pc) <==> Unclaimed(s.producers[p].pc)))
    && (forall p :: p in s.producers && Unclaimed(s.producers[p].pc) ==> p in s'.producers)
  }

  lemma SameTracks(s: State, s': State)
    requires Tracked(s) && SameCalls(s, s')
    ensures Tracked(s')
  {
    forall c | 0 <= c < |s.h.log.calls|
      ensures Waiting(s'.producers, s.h.log.calls, c) <==> Waiting(s.producers, s.h.log.calls, c)
    {
    }
  }

  lemma PublishSame(s: State, p: Pid, tick: u64)
    requires Enabled(s, PublishHeader(p, tick))
    ensures SameCalls(s, DoPublish(s, p, tick))
  {
    PublishLogs(s, p, tick);
    PublishProducers(s, p, tick);
    hide DoPublish, Enabled;
  }

  lemma PublishLogs(s: State, p: Pid, tick: u64)
    requires Enabled(s, PublishHeader(p, tick))
    ensures DoPublish(s, p, tick).h.claimed == s.h.claimed && DoPublish(s, p, tick).h.log == s.h.log
  {
    hide WriteAt, HeaderBytes, Stride, U32, PadHeader;
  }

  lemma PublishProducers(s: State, p: Pid, tick: u64)
    requires Enabled(s, PublishHeader(p, tick))
    ensures p in s.producers && Live(s, p)
    ensures var pr := s.producers[p];
            && (pr.pc.PadReserved? || pr.pc.DataReserved?)
            && DoPublish(s, p, tick).producers ==
               s.producers[p := pr.(pc := if pr.pc.PadReserved? then PadClaimed(pr.pc.at, pr.pc.n) else DataClaimed(pr.pc.at, pr.pc.n))]
  {
    hide WriteAt, HeaderBytes, Stride, U32, PadHeader, MarkPublished;
  }

  lemma CopySame(s: State, p: Pid)
    requires Enabled(s, CopyPayload(p))
    ensures SameCalls(s, DoCopy(s, p))
  {
    hide WriteAt;
  }

  lemma CommitSame(s: State, p: Pid)
    requires Enabled(s, Commit(p))
    ensures SameCalls(s, DoCommit(s, p))
  {
    hide WriteAt, ToLE;
  }

  lemma InspectSame(s: State)
    requires InspectInBounds(s.ring)
    ensures SameCalls(s, DoInspect(s))
  {
    hide WriteAt, ReadAt, ToLE, StateAt, FlagsAt, PayloadBytesAt, Stride, U32, HeadPayload;
    var off, s' := Masked(s.ring.readHead), DoInspect(s);
    if StateAt(s.ring.mem, off) != COMMITTED {
      assert s'.producers == s.producers && s'.h.claimed == s.h.claimed && s'.h.log == s.h.log;
    } else if FlagsAt(s.ring.mem, off) == PAD_FLAG {
      assert s'.producers == s.producers && s'.h.claimed == s.h.claimed && s'.h.log == s.h.log;
    } else if PayloadBytesAt(s.ring.mem, off) != 0 {
      assert s'.producers == s.producers && s'.h.claimed == s.h.claimed && s'.h.log == s.h.log;
    }
  }

  /** A call that is dropped with its stuck slot has claimed it. */
  lemma JudgeSame(s: State, now: u64)
    requires Inv(s) && s.worker.Timing? && Enabled(s, Judge(now)) && OnlyDeadPoisoned(s, now)
    ensures SameCalls(s, DoJudge(s, now))
  {
    hide RingInv, Fifo, Counted, Awake, NoTimeoutSeen, CallsOk;
    assert s.h.slots != [];
    if Expired(s, now) && !s.h.slots[0].phase.Committed? {
      DataAtHead(s, now);
      OwnerPresent(s);
    }
    hide Inv, Expired;
    JudgeDrops(s, now);
  }

  lemma DataAtHead(s: State, now: u64)
    requires Inv(s) && s.worker.Timing? && Enabled(s, Judge(now)) && Expired(s, now)
    ensures s.h.slots != [] && !s.h.slots[0].pad
    ensures !s.h.slots[0].phase.Committed? ==>
              && s.h.slots[0].owner in s.producers && s.producers[s.h.slots[0].owner].pc.OwnsSlot()
              && !s.producers[s.h.slots[0].owner].pc.OwnsPad()
  {
    HeadFound(s);
    hide RingInv, BookInv, CallsOk;
    if !s.h.slots[0].phase.Committed? {
      OwnerPresent(s);
      assert Owned(s.h.slots[0].owner, s.producers[s.h.slots[0].owner], s.h.slots, s.h.base);
    }
  }

  lemma JudgeDrops(s: State, now: u64)
    requires Enabled(s, Judge(now)) && s.h.slots != []
    requires Expired(s, now) && s.h.slots[0].owner in s.producers ==>
               !Unclaimed(s.producers[s.h.slots[0].owner].pc)
    ensures SameCalls(s, DoJudge(s, now))
  {
    hide WriteAt, ToLE, Expired, PoisonStride, Zeros;
  }

  lemma SendSame(s: State, status: int)
    requires s.worker.Sending?
    ensures SameCalls(s, DoSend(s, status))
  {
    hide SendOne;
  }

  lemma WorkerSame(s: State, step: Step)
    requires Enabled(s, step) && (step.Wake? || step.Poll? || step.CheckPort?)
    ensures SameCalls(s, Apply(s, step))
  {
    assert Apply(s, step).producers == s.producers;
  }

  lemma OtherSame(s: State, step: Step)
    requires Enabled(s, step) && !step.Start? && !step.Cas? && !step.CheckSpace? && !step.Wake? && !step.Poll? && !step.CheckPort?
    requires !step.PublishHeader? && !step.CopyPayload? && !step.Commit? && !step.Inspect? && !step.Judge? && !step.Send?
    ensures SameCalls(s, Apply(s, step))
  {
    hide DoInspect, DoJudge, DoCas, DoPublish, DoCopy, DoCommit, InspectInBounds, DoCheckSpace, DoSend;
  }

  // ---- steps that start a call or settle one ---------------------------------------------------------

  lemma DistinctAppend(xs: seq<nat>, x: nat)
    requires Distinct(xs) && x !in xs
    ensures Distinct(xs + [x])
  {
  }

  /** Putting one more number among the first ones. */
  lemma DistinctInsert(xs: seq<nat>, ys: seq<nat>, x: nat)
    requires Distinct(xs + ys) && x !in xs + ys
    ensures Distinct((xs + [x]) + ys)
  {
    var zs, before := (xs + [x]) + ys, xs + ys;
    forall i, j | 0 <= i < j < |zs|
      ensures zs[i] != zs[j]
    {
      assert zs[i] == if i < |xs| then before[i] else if i == |xs| then x else before[i - 1];
      assert zs[j] == if j < |xs| then before[j] else if j == |xs| then x else before[j - 1];
    }
  }

  lemma StartTracks(s: State, p: Pid, payload: seq<byte>)
    requires Tracked(s) && p !in s.producers
    ensures Tracked(DoStart(s, p, payload))
  {
    var s', n := DoStart(s, p, payload), |s.h.log.calls|;
    var pr, call := s'.producers[p], Call(p, payload);
    assert s'.producers == s.producers[p := pr] && s'.h.claimed == s.h.claimed;
    assert pr.payload == payload && pr.call == n && (Unclaimed(pr.pc) <==> |payload| <= MAX_PAYLOAD);
    assert s'.h.log == if |payload| > MAX_PAYLOAD then Refusal(s.h.log.(calls := s.h.log.calls + [call]), n)
                       else s.h.log.(calls := s.h.log.calls + [call]);
    hide DoStart;
    OneMoreCall(s, s', pr, call, |payload| > MAX_PAYLOAD);
  }

  /** The bookkeeping of a new call, which may be refused at once. */
  lemma OneMoreCall(s: State, s': State, pr: Producer, call: Call, refused: bool)
    requires Tracked(s) && call.p !in s.producers && s'.producers == s.producers[call.p := pr]
    requires pr.payload == call.payload && pr.call == |s.h.log.calls| && (Unclaimed(pr.pc) <==> !refused)
    requires s'.h.claimed == s.h.claimed
    requires var log := s.h.log.(calls := s.h.log.calls + [call]);
             s'.h.log == if refused then Refusal(log, pr.call) else log
    ensures Tracked(s')
  {
    var log, log', n := s.h.log, s'.h.log, |s.h.log.calls|;
    forall c | 0 <= c < n
      ensures Waiting(s'.producers, log'.calls, c) <==> Waiting(s.producers, log.calls, c)
    {
      assert log'.calls[c] == log.calls[c];
    }
    assert log'.calls[n] == call && (Waiting(s'.producers, log'.calls, n) <==> !refused);
    hide Waiting;
    DistinctAppend(log.claimants + log.refusals, n);
    if refused {
      assert log'.claimants + log'.refusals == log.claimants + log.refusals + [n];
    }
  }

  /** A waiting call settles: it claims or is refused. */
  lemma SettledTracks(s: State, p: Pid, s': State, claims: bool)
    requires Tracked(s) && p in s.producers && Unclaimed(s.producers[p].pc)
    requires p in s'.producers && s'.producers == s.producers[p := s'.producers[p]] && !Unclaimed(s'.producers[p].pc)
    requires s'.producers[p].payload == s.producers[p].payload && s'.producers[p].call == s.producers[p].call
    requires claims ==> s'.h.claimed == s.h.claimed + [s.producers[p].payload] && s'.h.log == Claim(s.h.log, s.producers[p].call)
    requires !claims ==> s'.h.claimed == s.h.claimed && s'.h.log == Refusal(s.h.log, s.producers[p].call)
    ensures Tracked(s')
  {
    var log, log', n := s.h.log, s'.h.log, s.producers[p].call;
    assert Waiting(s.producers, log.calls, n);
    if claims {
      DistinctInsert(log.claimants, log.refusals, n);
    } else {
      DistinctAppend(log.claimants + log.refusals, n);
      assert log'.claimants + log'.refusals == log.claimants + log.refusals + [n];
    }
    forall c | 0 <= c < |log.calls|
      ensures c in log'.claimants + log'.refusals <==> c in log.claimants + log.refusals || c == n
      ensures Waiting(s'.producers, log.calls, c) <==> Waiting(s.producers, log.calls, c) && c != n
    {
    }
  }

  lemma CheckSpaceTracks(s: State, p: Pid)
    requires Tracked(s) && Enabled(s, CheckSpace(p))
    ensures Tracked(DoCheckSpace(s, p))
  {
    hide Tracked, Stride;
    var pc, s' := AfterCheck(s.producers[p], s.ring.readHead), DoCheckSpace(s, p);
    assert pc.ToSignal? || pc.WantPad? || pc.WantClaim?;
    hide AfterCheck;
    if pc.ToSignal? {
      SettledTracks(s, p, s', false);
    } else {
      SameTracks(s, s');
    }
  }

  /** What a swap does to its own call: a claim has the call's bytes, and nothing else changes them. */
  lemma CasOwnCall(s: State, p: Pid)
    requires Enabled(s, Cas(p))
    ensures var s', pr := DoCas(s, p), s.producers[p];
            && p in s'.producers && s'.producers == s.producers[p := s'.producers[p]]
            && s'.producers[p].payload == pr.payload && s'.producers[p].call == pr.call
            && (if s.ring.writeHead == pr.pc.cur && pr.pc.WantClaim? then
                  && !Unclaimed(s'.producers[p].pc)
                  && s'.h.claimed == s.h.claimed + [pr.payload] && s'.h.log == Claim(s.h.log, pr.call)
                else Unclaimed(s'.producers[p].pc) && s'.h.claimed == s.h.claimed && s'.h.log == s.h.log)
  {
    hide Stride, SpaceToEnd, U32;
    var s', pr := DoCas(s, p), s.producers[p];
    if s.ring.writeHead != pr.pc.cur {
      assert s'.producers[p] == pr.(pc := AtLoop, fails := pr.fails + 1) && s'.h == s.h;
    } else if pr.pc.WantPad? {
      assert s'.producers[p].pc.PadReserved? || s'.producers[p].pc.AtLoop?;
    } else {
      assert s'.producers[p].pc.DataReserved?;
    }
  }

  lemma CasTracks(s: State, p: Pid)
    requires Tracked(s) && Enabled(s, Cas(p))
    ensures Tracked(DoCas(s, p))
  {
    CasOwnCall(s, p);
    hide Tracked, DoCas;
    if s.ring.writeHead == s.producers[p].pc.cur && s.producers[p].pc.WantClaim? {
      SettledTracks(s, p, DoCas(s, p), true);
    } else {
      SameTracks(s, DoCas(s, p));
    }
  }

  lemma StepTracks(s: State, step: Step)
    requires Inv(s) && Enabled(s, step) && Assumed(s, step) && Tracked(s)
    ensures Tracked(Apply(s, step))
  {
    hide Inv, Tracked, SameCalls;
    hide DoStart, DoCas, DoPublish, DoCopy, DoCommit, DoInspect, DoJudge, DoCheckSpace, DoSend;
    match step {
      case Start(p, payload) => StartTracks(s, p, payload);
      case Cas(p) => CasTracks(s, p);
      case CheckSpace(p) => CheckSpaceTracks(s, p);
      case PublishHeader(p, tick) => PublishSame(s, p, tick);
      case CopyPayload(p) => CopySame(s, p);
      case Commit(p) => CommitSame(s, p);
      case Inspect => InspectSame(s);
      case Judge(now) => JudgeSame(s, now);
      case Send(status) => SendSame(s, status);
      case Wake(_) => WorkerSame(s, step);
      case Poll => WorkerSame(s, step);
      case CheckPort => WorkerSame(s, step);
      case _ => OtherSame(s, step);
    }
    if !step.Start? && !step.Cas? && !step.CheckSpace? {
      SameTracks(s, Apply(s, step));
    }
  }

  lemma {:induction false} RunTracks(s: State, steps: seq<Step>)
    requires Inv(s) && Tracked(s) && Possible(s, steps) && Respects(s, steps)
    ensures Tracked(Exec(s, steps))
    decreases |steps|
  {
    if steps != [] {
      hide Inv, Tracked, Enabled, Assumed, Apply;
      StepTracks(s, steps[0]);
      StepKeeps(s, steps[0]);
      RunTracks(Apply(s, steps[0]), steps[1..]);
    }
  }

  lemma InitTracked(ticksPerMs: u64)
    ensures Tracked(Init(ticksPerMs))
  {
  }

  // ---- the log of calls is the run's own ---------------------------------------------------------------

  lemma StepLogsCall(s: State, step: Step)
    requires Enabled(s, step)
    ensures Apply(s, step).h.log.calls ==
            s.h.log.calls + (if step.Start? then [Call(step.p, step.payload)] else [])
  {
    hide DoStart, DoCas, DoPublish, DoCopy, DoCommit, DoInspect, DoJudge, DoCheckSpace, DoSend, InspectInBounds;
    match step {
      case Start(p, payload) => StartLogs(s, p, payload);
      case Cas(p) => CasLogs(s, p);
      case CheckSpace(p) => CheckSpaceLogs(s, p);
      case PublishHeader(p, tick) => PublishSame(s, p, tick);
      case CopyPayload(p) => CopySame(s, p);
      case Commit(p) => CommitSame(s, p);
      case Inspect => InspectSame(s);
      case Judge(now) => JudgeLogs(s, now);
      case Send(status) => SendSame(s, status);
      case Wake(_) => WorkerSame(s, step);
      case Poll => WorkerSame(s, step);
      case CheckPort => WorkerSame(s, step);
      case _ => OtherSame(s, step);
    }
  }

  lemma StartLogs(s: State, p: Pid, payload: seq<byte>)
    ensures DoStart(s, p, payload).h.log.calls == s.h.log.calls + [Call(p, payload)]
  {
  }

  lemma CasLogs(s: State, p: Pid)
    requires Enabled(s, Cas(p))
    ensures DoCas(s, p).h.log.calls == s.h.log.calls
  {
    CasOwnCall(s, p);
    hide DoCas;
  }

  lemma CheckSpaceLogs(s: State, p: Pid)
    requires Enabled(s, CheckSpace(p))
    ensures DoCheckSpace(s, p).h.log.calls == s.h.log.calls
  {
    hide AfterCheck;
  }

  lemma JudgeLogs(s: State, now: u64)
    requires Enabled(s, Judge(now))
    ensures DoJudge(s, now).h.log == s.h.log
  {
    hide WriteAt, ToLE, Expired, PoisonStride, Zeros;
  }

  lemma {:induction false} CallsLogged(s: State, steps: seq<Step>)
    requires Possible(s, steps)
    ensures Exec(s, steps).h.log.calls == s.h.log.calls + Calls(steps)
    decreases |steps|
  {
    if steps == [] {
      assert s.h.log.calls + [] == s.h.log.calls;
    } else {
      hide Enabled, Apply;
      var first := if steps[0].Start? then [Call(steps[0].p, steps[0].payload)] else [];
      StepLogsCall(s, steps[0]);
      CallsLogged(Apply(s, steps[0]), steps[1..]);
      Reassociate(s.h.log.calls, first, Calls(steps[1..]));
    }
  }
}
