/**
 What the worker does with the events it reads, told from the steps of the run alone: which are handed to
 the client, which are dropped, when it stops, and when it sleeps.
 */
module RingSends {
  import opened Wrappers
  import opened Bytes
  import opened RingLayout
  import opened RingProtocol
  import opened RingInvariant
  import opened RingSteps
  import opened RingWorkerSteps
  import opened RingCalls
  import opened RingTheorems

  // ---- the run's own account ---------------------------------------------------------------------------

  function ConnectedBy(before: bool, step: Step): bool {
    if step.Connect? then true else if step.Disconnect? then false else before
  }

  /** Whether a client is connected after the steps. */
  function Connected(before: bool, steps: seq<Step>): bool
    decreases |steps|
  {
    if steps == [] then before else Connected(ConnectedBy(before, steps[0]), steps[1..])
  }

  /** A producer's signal, a new client and a stop set the wake-up event; waking on it resets it. */
  function SetBy(before: bool, step: Step): bool {
    if step.Signal? || step.Connect? || step.Stop? then true else if step == Wake(OnData) then false else before
  }

  /** Whether the wake-up event is set after the steps. */
  function EventSet(before: bool, steps: seq<Step>): bool
    decreases |steps|
  {
    if steps == [] then before else EventSet(SetBy(before, steps[0]), steps[1..])
  }

  predicate StopIn(steps: seq<Step>) {
    exists i :: 0 <= i < |steps| && steps[i].Stop?
  }

  /** What one step settles: an event taken up with no client connected is dropped; one that is sent is
      delivered if a client is still connected and the status is not negative. */
  function FareOf(connected: bool, step: Step): seq<Fare> {
    match step
    case CheckPort => if connected then [] else [NoPort]
    case Send(status) => if connected && status >= 0 then [Sent(status)] else [HardError(connected)]
    case _ => []
  }

  function Fares(connected: bool, steps: seq<Step>): seq<Fare>
    decreases |steps|
  {
    if steps == [] then []
    else FareOf(connected, steps[0]) + Fares(ConnectedBy(connected, steps[0]), steps[1..])
  }

  function Hows(fates: seq<Fate>): seq<Fare> {
    if fates == [] then [] else [fates[0].how] + Hows(fates[1..])
  }

  function FateBytes(fates: seq<Fate>): seq<seq<byte>> {
    if fates == [] then [] else [fates[0].bytes] + FateBytes(fates[1..])
  }

  /** The messages given to a client's port. */
  function Handed(fates: seq<Fate>): seq<seq<byte>> {
    if fates == [] then []
    else (if fates[0].how.Sent? || fates[0].how == HardError(true) then [fates[0].bytes] else []) + Handed(fates[1..])
  }

  /** The event in the worker's hands. */
  function Held(worker: Worker): seq<seq<byte>> {
    if worker.Holding? || worker.Sending? then [worker.bytes] else []
  }

  lemma {:induction false} FatesAppend(fates: seq<Fate>, fate: Fate)
    ensures Hows(fates + [fate]) == Hows(fates) + [fate.how]
    ensures FateBytes(fates + [fate]) == FateBytes(fates) + [fate.bytes]
  {
    if fates == [] {
      assert fates + [fate] == [fate];
    } else {
      FatesAppend(fates[1..], fate);
      assert (fates + [fate])[1..] == fates[1..] + [fate];
    }
  }

  // ---- the client, the event, the stop ---------------------------------------------------------------

  /** A step's own effect on the client, the wake-up event and the stop. */
  predicate FlagsMoved(s: State, step: Step, s': State) {
    && s'.port == ConnectedBy(s.port, step)
    && s'.ring.dataReady == SetBy(s.ring.dataReady, step)
    && s'.active == (s.active && !step.Stop?) && s'.stopSignalled == (s.stopSignalled || step.Stop?)
  }

  /** A producer's step up to its commit leaves the worker's side alone. */
  predicate WorkerUntouched(s: State, s': State) {
    && s'.worker == s.worker && s'.port == s.port && s'.active == s.active
    && s'.stopping == s.stopping && s'.stopSignalled == s.stopSignalled
    && s'.ring.dataReady == s.ring.dataReady && s'.h.fates == s.h.fates && s'.h.consumed == s.h.consumed
  }

  lemma CheckSpaceUntouched(s: State, p: Pid)
    requires Enabled(s, CheckSpace(p))
    ensures WorkerUntouched(s, DoCheckSpace(s, p))
  {
    hide AfterCheck;
  }

  lemma CasUntouched(s: State, p: Pid)
    requires Enabled(s, Cas(p))
    ensures WorkerUntouched(s, DoCas(s, p))
  {
    hide Stride, SpaceToEnd, U32, Claim;
    var s', pr := DoCas(s, p), s.producers[p];
    if s.ring.writeHead != pr.pc.cur {
      assert s' == s.(producers := s'.producers);
    } else if pr.pc.WantPad? {
      assert WorkerUntouched(s, s');
    } else {
      assert WorkerUntouched(s, s');
    }
    hide DoCas;
  }

  lemma PublishUntouched(s: State, p: Pid, tick: u64)
    requires Enabled(s, PublishHeader(p, tick))
    ensures WorkerUntouched(s, DoPublish(s, p, tick))
  {
    hide WriteAt, HeaderBytes, Stride, U32, PadHeader;
  }

  lemma StoreUntouched(s: State, p: Pid)
    ensures Enabled(s, CopyPayload(p)) ==> WorkerUntouched(s, DoCopy(s, p))
    ensures Enabled(s, Commit(p)) ==> WorkerUntouched(s, DoCommit(s, p))
  {
    hide WriteAt, ToLE;
  }

  lemma CallUntouched(s: State, step: Step)
    requires Enabled(s, step)
    requires step.Start? || step.Cas? || step.CheckSpace? || step.PublishHeader? || step.CopyPayload? || step.Commit?
    ensures WorkerUntouched(s, Apply(s, step))
  {
    hide WorkerUntouched, DoCas, DoPublish, DoCopy, DoCommit, DoCheckSpace, DoInspect, DoJudge, InspectInBounds;
    if step.Cas? {
      CasUntouched(s, step.p);
    } else if step.CheckSpace? {
      CheckSpaceUntouched(s, step.p);
    } else if step.PublishHeader? {
      PublishUntouched(s, step.p, step.tick);
    } else if step.Start? {
      StartUntouched(s, step.p, step.payload);
    } else {
      StoreUntouched(s, step.p);
    }
  }

  lemma StartUntouched(s: State, p: Pid, payload: seq<byte>)
    ensures WorkerUntouched(s, DoStart(s, p, payload))
  {
  }

  lemma InspectFlags(s: State)
    requires InspectInBounds(s.ring)
    ensures FlagsMoved(s, Inspect, DoInspect(s))
  {
    hide WriteAt, ReadAt, ToLE, StateAt, FlagsAt, PayloadBytesAt, Stride, U32, HeadPayload, Retire;
    var off, s' := Masked(s.ring.readHead), DoInspect(s);
    if StateAt(s.ring.mem, off) != COMMITTED {
      assert s'.ring.dataReady == s.ring.dataReady && s'.port == s.port;
    } else if FlagsAt(s.ring.mem, off) == PAD_FLAG {
      assert s'.ring.dataReady == s.ring.dataReady && s'.port == s.port;
    } else if PayloadBytesAt(s.ring.mem, off) != 0 {
      assert s'.ring.dataReady == s.ring.dataReady && s'.port == s.port;
    }
  }

  lemma JudgeFlags(s: State, now: u64)
    requires Enabled(s, Judge(now))
    ensures FlagsMoved(s, Judge(now), DoJudge(s, now))
  {
    hide WriteAt, ToLE, Expired, PoisonStride, Zeros, Retire, Forget, U32;
  }

  lemma SendFlags(s: State, status: int)
    requires s.worker.Sending?
    ensures FlagsMoved(s, Send(status), DoSend(s, status))
  {
    hide SendOne, Fared;
  }

  lemma OtherFlags(s: State, step: Step)
    requires Enabled(s, step) && !step.Inspect? && !step.Judge? && !step.Send?
    requires !step.Start? && !step.Cas? && !step.CheckSpace? && !step.PublishHeader? && !step.CopyPayload? && !step.Commit?
    ensures FlagsMoved(s, step, Apply(s, step))
  {
    hide DoStart, DoCas, DoPublish, DoCopy, DoCommit, DoInspect, DoJudge, DoCheckSpace, DoSend, InspectInBounds;
  }

  lemma StepFlags(s: State, step: Step)
    requires Enabled(s, step)
    ensures FlagsMoved(s, step, Apply(s, step))
  {
    hide DoInspect, DoJudge, DoSend, InspectInBounds;
    if step.Inspect? {
      InspectFlags(s);
    } else if step.Judge? {
      JudgeFlags(s, step.now);
    } else if step.Send? {
      SendFlags(s, step.status);
    } else if step.Start? || step.Cas? || step.CheckSpace? || step.PublishHeader? || step.CopyPayload? || step.Commit? {
      CallUntouched(s, step);
      hide Apply, Enabled;
    } else {
      OtherFlags(s, step);
    }
  }

  /** After any steps: the client, the event and the stop are what the steps say. */
  lemma {:induction false} FlagsFollow(s: State, steps: seq<Step>)
    requires Possible(s, steps)
    ensures var e := Exec(s, steps);
            && e.port == Connected(s.port, steps) && e.ring.dataReady == EventSet(s.ring.dataReady, steps)
            && e.active == (s.active && !StopIn(steps)) && e.stopSignalled == (s.stopSignalled || StopIn(steps))
    decreases |steps|
  {
    if steps != [] {
      hide Enabled, Apply, StopIn, ConnectedBy, SetBy;
      StepFlags(s, steps[0]);
      FlagsFollow(Apply(s, steps[0]), steps[1..]);
      StopFirst(steps);
    } else {
      assert !StopIn(steps);
    }
  }

  lemma StopFirst(steps: seq<Step>)
    requires steps != []
    ensures StopIn(steps) <==> steps[0].Stop? || StopIn(steps[1..])
  {
    assert forall i :: 1 <= i < |steps| ==> steps[i] == steps[1..][i - 1];
    if steps[0].Stop? {
      assert StopIn(steps);
    } else if StopIn(steps[1..]) {
      var i :| 0 <= i < |steps[1..]| && steps[1..][i].Stop?;
      assert steps[i + 1].Stop?;
    }
  }

  // ---- fates ---------------------------------------------------------------------------------------------

  /** A step settles at most one event, as the run's account says. */
  lemma StepFares(s: State, step: Step)
    requires Enabled(s, step)
    ensures Hows(Apply(s, step).h.fates) == Hows(s.h.fates) + FareOf(s.port, step)
  {
    hide DoStart, DoCas, DoPublish, DoCopy, DoCommit, DoInspect, DoJudge, DoCheckSpace, DoSend, DoCheckPort, InspectInBounds, Hows;
    if step.CheckPort? {
      CheckPortFares(s);
    } else if step.Send? {
      SendFares(s, step.status);
    } else {
      SameFates(s, step);
      assert Hows(s.h.fates) + [] == Hows(s.h.fates);
    }
  }

  lemma CheckPortFares(s: State)
    requires s.worker.Holding?
    ensures Hows(DoCheckPort(s).h.fates) == Hows(s.h.fates) + FareOf(s.port, CheckPort)
    ensures s.port ==> DoCheckPort(s) == s.(worker := Sending(s.worker.bytes))
    ensures !s.port ==> DoCheckPort(s).h.fates == s.h.fates + [Fate(s.worker.bytes, NoPort)] && DoCheckPort(s).worker.Draining?
    ensures DoCheckPort(s).h.consumed == s.h.consumed
  {
    FatesAppend(s.h.fates, Fate(s.worker.bytes, NoPort));
    assert Hows(s.h.fates) + [] == Hows(s.h.fates);
  }

  /** What a send does, by the client and the status: the drain goes on if a client is connected and the
      status is not negative, and stops otherwise. */
  lemma SendFares(s: State, status: int)
    requires s.worker.Sending?
    ensures Hows(DoSend(s, status).h.fates) == Hows(s.h.fates) + FareOf(s.port, Send(status))
    ensures var s', sent := DoSend(s, status), s.port && status >= 0;
            && s'.h.fates == s.h.fates + [Fate(s.worker.bytes, if sent then Sent(status) else HardError(s.port))]
            && s'.h.consumed == s.h.consumed && s'.ring == s.ring
            && (sent ==> s'.worker.Draining?)
            && (!sent ==> s'.worker == if s.stopping then Exited else Parked(true))
  {
    var fate := Fate(s.worker.bytes, if s.port && status >= 0 then Sent(status) else HardError(s.port));
    assert DoSend(s, status).h == Fared(s.h, s.worker.bytes, fate.how);
    FatesAppend(s.h.fates, fate);
    hide Hows;
  }

  lemma InspectFates(s: State)
    requires InspectInBounds(s.ring)
    ensures DoInspect(s).h.fates == s.h.fates
  {
    hide WriteAt, ReadAt, ToLE, StateAt, FlagsAt, PayloadBytesAt, Stride, U32, HeadPayload;
    var off, s' := Masked(s.ring.readHead), DoInspect(s);
    if StateAt(s.ring.mem, off) != COMMITTED {
      assert s'.h.fates == s.h.fates;
    } else if FlagsAt(s.ring.mem, off) == PAD_FLAG {
      assert s'.h.fates == s.h.fates;
    } else if PayloadBytesAt(s.ring.mem, off) != 0 {
      assert s'.h.fates == s.h.fates;
    }
  }

  lemma JudgeFates(s: State, now: u64)
    requires Enabled(s, Judge(now))
    ensures DoJudge(s, now).h.fates == s.h.fates && DoJudge(s, now).h.consumed == s.h.consumed + []
    ensures Held(DoJudge(s, now).worker) == []
  {
    hide WriteAt, ToLE, Expired, PoisonStride, Zeros, Forget, U32;
  }

  lemma IdleFates(s: State, step: Step)
    requires Enabled(s, step) && !step.Inspect? && !step.Judge? && !step.Send? && !step.CheckPort?
    requires !step.Start? && !step.Cas? && !step.CheckSpace? && !step.PublishHeader? && !step.CopyPayload? && !step.Commit?
    ensures var s' := Apply(s, step);
            s'.h.fates == s.h.fates && s'.h.consumed == s.h.consumed && Held(s'.worker) == Held(s.worker)
  {
    if step.Wake? || step.Poll? {
      assert Apply(s, step).h == s.h && Held(Apply(s, step).worker) == [] == Held(s.worker);
    } else {
      assert Apply(s, step).worker == s.worker;
    }
    hide DoStart, DoCas, DoPublish, DoCopy, DoCommit, DoInspect, DoJudge, DoCheckSpace, DoSend, InspectInBounds;
  }

  lemma SameFates(s: State, step: Step)
    requires Enabled(s, step) && !step.CheckPort? && !step.Send?
    ensures Apply(s, step).h.fates == s.h.fates
  {
    hide DoInspect, DoJudge, InspectInBounds;
    if step.Inspect? {
      InspectFates(s);
    } else if step.Judge? {
      JudgeFates(s, step.now);
    } else if step.Start? || step.Cas? || step.CheckSpace? || step.PublishHeader? || step.CopyPayload? || step.Commit? {
      CallUntouched(s, step);
      hide Apply, Enabled;
    } else {
      IdleFates(s, step);
      hide Apply, Enabled;
    }
  }

  /** After any steps, the events settled in them fared as the steps say. */
  lemma {:induction false} FaresFollow(s: State, steps: seq<Step>)
    requires Possible(s, steps)
    ensures Hows(Exec(s, steps).h.fates) == Hows(s.h.fates) + Fares(s.port, steps)
    decreases |steps|
  {
    if steps == [] {
      assert Hows(s.h.fates) + [] == Hows(s.h.fates);
    } else {
      hide Enabled, Apply, Hows, FareOf;
      StepFares(s, steps[0]);
      StepFlags(s, steps[0]);
      FaresFollow(Apply(s, steps[0]), steps[1..]);
      Reassociate(Hows(s.h.fates), FareOf(s.port, steps[0]), Fares(ConnectedBy(s.port, steps[0]), steps[1..]));
    }
  }

  // ---- every event that is read fares once, in order ----------------------------------------------------------

  predicate Passed(s: State) {
    FateBytes(s.h.fates) + Held(s.worker) == s.h.consumed
  }

  lemma InspectPasses(s: State)
    requires Inv(s) && s.worker.Peeking? && InspectInBounds(s.ring) && HeaderVisible(s) && Passed(s)
    ensures Passed(DoInspect(s))
  {
    hide RingInv, CallInv, Fifo, Counted, Awake;
    HeadFound(s);
    InspectEffect(s, s.h.slots[0]);
    InspectFates(s);
    hide Inv, DoInspect, InspectInBounds, HeadSeen, FateBytes;
    var s', slot := DoInspect(s), s.h.slots[0];
    assert FateBytes(s.h.fates) + [] == s.h.consumed;
    if slot.phase.Committed? && !slot.pad {
      assert s'.h.consumed == s.h.consumed + [slot.payload];
    } else {
      assert s.h.consumed + [] == s.h.consumed;
    }
  }

  lemma StepPasses(s: State, step: Step)
    requires Inv(s) && Enabled(s, step) && Assumed(s, step) && Passed(s)
    ensures Passed(Apply(s, step))
  {
    hide Inv, DoInspect, DoJudge, DoSend, DoCheckPort, InspectInBounds;
    if step.Inspect? {
      hide Passed;
      InspectPasses(s);
    } else if step.Judge? {
      JudgeFates(s, step.now);
      assert s.h.consumed + [] == s.h.consumed;
    } else if step.Send? {
      SendFares(s, step.status);
      FatesAppend(s.h.fates, DoSend(s, step.status).h.fates[|s.h.fates|]);
    } else if step.CheckPort? {
      CheckPortFares(s);
      FatesAppend(s.h.fates, Fate(s.worker.bytes, NoPort));
    } else if step.Start? || step.Cas? || step.CheckSpace? || step.PublishHeader? || step.CopyPayload? || step.Commit? {
      CallUntouched(s, step);
      hide Apply, Enabled;
    } else {
      IdleFates(s, step);
      hide Apply, Enabled;
    }
  }

  lemma {:induction false} RunPasses(s: State, steps: seq<Step>)
    requires Inv(s) && Passed(s) && Possible(s, steps) && Respects(s, steps)
    ensures Passed(Exec(s, steps))
    decreases |steps|
  {
    if steps != [] {
      hide Inv, Passed, Enabled, Assumed, Apply;
      StepPasses(s, steps[0]);
      StepKeeps(s, steps[0]);
      RunPasses(Apply(s, steps[0]), steps[1..]);
    }
  }

  /** After every run, each event that was read, in order, has fared as the run's steps say or is still in the
      worker's hands: it was dropped exactly if no client was connected when it was taken up, and else it was
      sent, or the send failed. */
  lemma EventsFare(ticksPerMs: u64, steps: seq<Step>)
    requires Legal(ticksPerMs, steps)
    ensures var s := Final(ticksPerMs, steps);
            && FateBytes(s.h.fates) + Held(s.worker) == s.h.consumed
            && Hows(s.h.fates) == Fares(false, steps)
  {
    InitInv(ticksPerMs);
    RunPasses(Init(ticksPerMs), steps);
    FaresFollow(Init(ticksPerMs), steps);
    assert Hows([]) + Fares(false, steps) == Fares(false, steps);
  }

  /** A client is connected whenever an event is taken up or sent, and every send succeeds. */
  predicate WellServed(connected: bool, steps: seq<Step>)
    decreases |steps|
  {
    steps == [] ||
    (&& (steps[0].CheckPort? || steps[0].Send? ==> connected)
     && (steps[0].Send? ==> steps[0].status >= 0)
     && WellServed(ConnectedBy(connected, steps[0]), steps[1..]))
  }

  lemma {:induction false} WellServedSends(connected: bool, steps: seq<Step>)
    requires WellServed(connected, steps)
    ensures forall i :: 0 <= i < |Fares(connected, steps)| ==> Fares(connected, steps)[i].Sent?
    decreases |steps|
  {
    if steps != [] {
      WellServedSends(ConnectedBy(connected, steps[0]), steps[1..]);
    }
  }

  lemma {:induction false} SentAreHanded(fates: seq<Fate>)
    requires forall i :: 0 <= i < |Hows(fates)| ==> Hows(fates)[i].Sent?
    ensures |Hows(fates)| == |fates| && Handed(fates) == FateBytes(fates)
  {
    if fates != [] {
      var hows, rest := Hows(fates), Hows(fates[1..]);
      assert hows == [fates[0].how] + rest;
      assert forall i :: 0 <= i < |rest| ==> rest[i] == hows[i + 1];
      SentAreHanded(fates[1..]);
      assert hows[0].Sent?;
    }
  }

  /** Over every run in which the client is there and sends succeed, the messages handed to it are the events
      read, in order, up to the one in the worker's hands. */
  lemma AllHandedOver(ticksPerMs: u64, steps: seq<Step>)
    requires Legal(ticksPerMs, steps) && WellServed(false, steps)
    ensures var s := Final(ticksPerMs, steps);
            Handed(s.h.fates) + Held(s.worker) == s.h.consumed
  {
    EventsFare(ticksPerMs, steps);
    WellServedSends(false, steps);
    SentAreHanded(Final(ticksPerMs, steps).h.fates);
    hide Possible, Respects, Exec;
  }

  // ---- sleeping and stopping ----------------------------------------------------------------------------------

  /** A worker asleep after a hard error has just had one; a sleeping worker has not seen a stop, an exited
      one has, and a stop is seen only when there was one. */
  predicate Settles(s: State) {
    && (s.worker == Parked(true) ==> s.h.fates != [] && s.h.fates[|s.h.fates| - 1].how.HardError?)
    && (s.worker.Parked? ==> !s.stopping)
    && (s.worker.Exited? ==> s.stopping)
    && (s.stopping ==> s.stopSignalled)
  }

  lemma InspectSettled(s: State)
    requires Settles(s) && InspectInBounds(s.ring)
    ensures Settles(DoInspect(s))
  {
    InspectFates(s);
    hide WriteAt, ReadAt, ToLE, StateAt, FlagsAt, PayloadBytesAt, Stride, U32, HeadPayload, Retire;
    var off, s' := Masked(s.ring.readHead), DoInspect(s);
    if StateAt(s.ring.mem, off) != COMMITTED {
      assert s'.worker.Timing? || s'.worker == if s.stopping then Exited else Parked(false);
    } else if FlagsAt(s.ring.mem, off) == PAD_FLAG {
      assert s'.worker.Draining?;
    } else if PayloadBytesAt(s.ring.mem, off) != 0 {
      assert s'.worker.Holding?;
    } else {
      assert s'.worker == if s.stopping then Exited else Parked(false);
    }
    assert s'.stopping == s.stopping && s'.stopSignalled == s.stopSignalled;
    hide DoInspect;
  }

  lemma JudgeSettles(s: State, now: u64)
    requires Settles(s) && Enabled(s, Judge(now))
    ensures Settles(DoJudge(s, now))
  {
    hide WriteAt, ToLE, Expired, PoisonStride, Zeros, Forget, U32, Retire;
  }

  lemma OtherSettles(s: State, step: Step)
    requires Settles(s) && Enabled(s, step) && !step.Inspect? && !step.Judge? && !step.Send? && !step.CheckPort?
    requires !step.Start? && !step.Cas? && !step.CheckSpace? && !step.PublishHeader? && !step.CopyPayload? && !step.Commit?
    ensures Settles(Apply(s, step))
  {
    hide DoStart, DoCas, DoPublish, DoCopy, DoCommit, DoInspect, DoJudge, DoCheckSpace, DoSend, InspectInBounds;
  }

  lemma StepSettles(s: State, step: Step)
    requires Settles(s) && Enabled(s, step)
    ensures Settles(Apply(s, step))
  {
    hide DoInspect, DoJudge, InspectInBounds;
    if step.Inspect? {
      InspectSettled(s);
    } else if step.Judge? {
      JudgeSettles(s, step.now);
    } else if step.Send? {
      SendSettles(s, step.status);
    } else if step.CheckPort? {
      CheckPortFares(s);
    } else if step.Start? || step.Cas? || step.CheckSpace? || step.PublishHeader? || step.CopyPayload? || step.Commit? {
      CallUntouched(s, step);
      hide Apply, Enabled;
    } else {
      OtherSettles(s, step);
      hide Apply, Enabled;
    }
  }

  lemma SendSettles(s: State, status: int)
    requires Settles(s) && s.worker.Sending?
    ensures Settles(DoSend(s, status))
  {
    SendFares(s, status);
    SendFlags(s, status);
    assert DoSend(s, status).stopping == s.stopping;
    hide DoSend;
  }

  lemma {:induction false} RunSettles(s: State, steps: seq<Step>)
    requires Settles(s) && Possible(s, steps)
    ensures Settles(Exec(s, steps))
    decreases |steps|
  {
    if steps != [] {
      hide Settles, Enabled, Apply;
      StepSettles(s, steps[0]);
      RunSettles(Apply(s, steps[0]), steps[1..]);
    }
  }

  /** After any steps from start-up: a worker asleep for a hard error was stopped by a send that failed; the
      worker exits only after a stop, and once it has seen one it never sleeps again; the client, the wake-up
      event and the stop are what the steps say. */
  lemma WorkerFollows(ticksPerMs: u64, steps: seq<Step>)
    requires Possible(Init(ticksPerMs), steps)
    ensures var s := Exec(Init(ticksPerMs), steps);
            && (s.worker == Parked(true) ==>
                  Fares(false, steps) != [] && Fares(false, steps)[|Fares(false, steps)| - 1].HardError?)
            && (s.worker.Parked? ==> !s.stopping)
            && (s.worker.Exited? ==> s.stopping && StopIn(steps))
            && s.port == Connected(false, steps) && s.ring.dataReady == EventSet(false, steps)
            && s.active == !StopIn(steps) && s.stopSignalled == StopIn(steps)
  {
    var s := Init(ticksPerMs);
    RunSettles(s, steps);
    FlagsFollow(s, steps);
    FaresFollow(s, steps);
    hide Possible, Exec, Fares, EventSet, Connected;
    assert Hows([]) + Fares(false, steps) == Fares(false, steps);
    LastHow(Exec(s, steps).h.fates);
  }

  lemma {:induction false} LastHow(fates: seq<Fate>)
    ensures |Hows(fates)| == |fates|
    ensures fates != [] ==> Hows(fates)[|fates| - 1] == fates[|fates| - 1].how
  {
    if fates != [] {
      LastHow(fates[1..]);
    }
  }

  /** A drain begins when the worker wakes, for whatever reason; it wakes for a stop alone once there was
      one, and for a timeout only while the event is not set. */
  lemma WakingStartsDrain(s: State, cause: WakeCause)
    ensures DoWake(s, cause).worker.Draining? && DoWake(s, cause).stopping == (s.stopping || cause.OnStop?)
    ensures DoWake(s, cause).h == s.h && DoWake(s, cause).producers == s.producers
    ensures Enabled(s, Wake(cause)) <==>
            && s.worker.Parked?
            && (if s.stopSignalled then cause == OnStop else if s.ring.dataReady then cause == OnData else cause == OnTimeout)
  {
  }

  /** A drain looks at a slot if and only if there is one; with none it ends. */
  lemma PollFindsHead(s: State)
    requires Inv(s) && s.worker.Draining?
    ensures DoPoll(s).worker == if s.h.slots != [] then Peeking else if s.stopping then Exited else Parked(false)
    ensures DoPoll(s) == s.(worker := DoPoll(s).worker)
  {
    hide CallInv, BookInv, Stored;
    WrappedHeadsAreExact(s.h.w, s.h.r);
  }

  /** After a stop no call starts any more. */
  lemma {:induction false} NoCallAfterStop(s: State, steps: seq<Step>)
    requires !s.active && Possible(s, steps)
    ensures Calls(steps) == [] && !Exec(s, steps).active
    decreases |steps|
  {
    if steps != [] {
      StepFlags(s, steps[0]);
      NoCallAfterStop(Apply(s, steps[0]), steps[1..]);
    }
  }
}
