/**
 The event dispatcher as a step system: any number of producers inside `ProduceSlot`, one worker
 inside `WorkerLoop`, clients coming and going.  One step is one access to shared memory.

 `Ring` is what the program keeps.  `Hist` is bookkeeping: unbounded heads, the slots between them in
 ring order, and logs of what was claimed, consumed and sent.  It never decides what the program does; it
 only says which call owned a slot that is skipped as stuck, so that the call can leave the table.
 */
module RingProtocol {
  import opened Bytes
  import opened RingLayout

  type Pid = nat
  type Memory = m: seq<byte> | |m| == RING witness seq(RING, _ => 0)

  datatype Ring = Ring(
    mem: Memory, writeHead: u32, readHead: u32, seqCounter: u32,
    enqueued: nat, dropped: nat, poisoned: nat, dataReady: bool)

  /** Where a producer stands in `ProduceSlot`.  `cur` and `at` are the 32-bit values it holds;
      `g` (unbounded head read), `t` (slots reserved by then) and `n` (slot number) are bookkeeping. */
  datatype Pc =
    | AtLoop
    | HaveCur(cur: u32, g: nat, t: nat)
    | WantPad(cur: u32, g: nat, t: nat)
    | WantClaim(cur: u32, g: nat, t: nat)
    | PadReserved(at: u32, n: nat)
    | PadClaimed(at: u32, n: nat)
    | DataReserved(at: u32, n: nat)
    | DataClaimed(at: u32, n: nat)
    | DataFilled(at: u32, n: nat)
    | ToCount
    | ToSignal
  {
    predicate OwnsSlot() {
      PadReserved? || PadClaimed? || DataReserved? || DataClaimed? || DataFilled?
    }
    predicate OwnsPad() {
      PadReserved? || PadClaimed?
    }
    predicate HasSnapshot() {
      HaveCur? || WantPad? || WantClaim?
    }
    /** The phase of the slot a producer owns at this point. */
    function SlotPhase(): Phase {
      if PadReserved? || DataReserved? then Reserved
      else if DataFilled? then Filled
      else Claimed
    }
  }

  /** One call of `ProduceSlot`.  `owes`: it committed a pad and has not signalled since.
      `dead`: its thread takes no further step.  `began`: slots reserved when it started; `mine`: those it
      reserved itself since; `fails`: its failed swaps; `call`: its place among the calls started. */
  datatype Producer = Producer(
    payload: seq<byte>, pc: Pc, owes: bool, dead: bool, began: nat, mine: nat, fails: nat, call: nat)
  {
    predicate OwesSignal() {
      owes || pc.ToCount? || pc.ToSignal?
    }
  }

  datatype Worker =
    | Parked(hardError: bool)
    | Draining
    | Peeking
    | Timing
    | Holding(bytes: seq<byte>)
    | Sending(bytes: seq<byte>)
    | Exited

  /** Reserved: head moved, header not stored yet.  Filled: payload copied, not committed. */
  datatype Phase = Reserved | Claimed | Filled | Committed

  datatype Slot = Slot(
    start: nat, stride: nat, pad: bool, phase: Phase, owner: Pid,
    payload: seq<byte>, seqNum: u32, tick: u64)

  datatype Retired = Retired(payload: seq<byte>, poisoned: bool)

  /** What became of an event that was read.  `reached`: it was handed to a client. */
  datatype Fare = Sent(status: int) | NoPort | SendTimedOut | HardError(reached: bool)
  datatype Fate = Fate(bytes: seq<byte>, how: Fare)

  /** The calls started, and the places among them of those that claimed a slot, in claim order, and of
      those that were refused one. */
  datatype Call = Call(p: Pid, payload: seq<byte>)
  datatype CallLog = CallLog(calls: seq<Call>, claimants: seq<nat>, refusals: seq<nat>)

  datatype Hist = Hist(
    w: nat, r: nat, base: nat, slots: seq<Slot>,
    claimed: seq<seq<byte>>, retired: seq<Retired>,
    consumed: seq<seq<byte>>, fates: seq<Fate>,
    attempts: nat, refused: nat, log: CallLog)
  {
    /** Slots reserved so far. */
    function Reservations(): nat {
      base + |slots|
    }
  }

  datatype State = State(
    ring: Ring, producers: map<Pid, Producer>, worker: Worker,
    port: bool, sendTimeouts: int, ticksPerMs: u64,
    active: bool, stopSignalled: bool, stopping: bool, h: Hist)

  function Init(ticksPerMs: u64): State {
    State(
      Ring(seq(RING, _ => 0), 0, 0, 0, 0, 0, 0, false), map[], Parked(false),
      false, 0, ticksPerMs, true, false, false,
      Hist(0, 0, 0, [], [], [], [], [], 0, 0, CallLog([], [], [])))
  }

  datatype WakeCause = OnStop | OnData | OnTimeout

  datatype Step =
    | FailEarly
    | Start(p: Pid, payload: seq<byte>)
    | ReadWriteHead(p: Pid)
    | CheckSpace(p: Pid)
    | Cas(p: Pid)
    | PublishHeader(p: Pid, tick: u64)
    | CopyPayload(p: Pid)
    | Commit(p: Pid)
    | Count(p: Pid)
    | Signal(p: Pid)
    | Die(p: Pid)
    | Wake(cause: WakeCause)
    | Poll
    | Inspect
    | Judge(now: u64)
    | CheckPort
    | Send(status: int)
    | Connect
    | Disconnect
    | Stop

  // ---- status codes ------------------------------------------------------------

  const STATUS_TIMEOUT: int := 0x102
  const STATUS_PORT_DISCONNECTED: int := 0xC0000037 - 0x1_0000_0000

  /** A status is a success when it is not negative as a signed 32-bit number. */
  predicate NtSuccess(status: int) {
    status >= 0
  }

  /** `SendOne`: the status it returns and the new timeout count, given what the send returned. */
  function SendOne(port: bool, sent: int, timeouts: int): (int, int) {
    if !port then (STATUS_PORT_DISCONNECTED, timeouts)
    else if NtSuccess(sent) then (sent, 0)
    else if sent == STATUS_TIMEOUT then (sent, if timeouts + 1 >= 3 then 0 else timeouts + 1)
    else (sent, timeouts)
  }

  // ---- producer steps ------------------------------------------------------------

  /** A live producer inside a call. */
  predicate Live(s: State, p: Pid) {
    p in s.producers && !s.producers[p].dead
  }

  function SetPc(s: State, p: Pid, pc: Pc): State
    requires p in s.producers
  {
    s.(producers := s.producers[p := s.producers[p].(pc := pc)])
  }

  /** `Enqueue` past the active gate, up to the size test of `ProduceSlot`. */
  function DoStart(s: State, p: Pid, payload: seq<byte>): State {
    var began, log := s.h.Reservations(), s.h.log;
    var call, calls := |log.calls|, log.calls + [Call(p, payload)];
    if |payload| > MAX_PAYLOAD then
      s.(producers := s.producers[p := Producer(payload, ToSignal, false, false, began, 0, 0, call)],
         ring := s.ring.(dropped := s.ring.dropped + 1),
         h := s.h.(attempts := s.h.attempts + 1, refused := s.h.refused + 1,
                   log := log.(calls := calls, refusals := log.refusals + [call])))
    else
      s.(producers := s.producers[p := Producer(payload, AtLoop, false, false, began, 0, 0, call)],
         h := s.h.(attempts := s.h.attempts + 1, log := log.(calls := calls)))
  }

  /** The buffer could not be allocated or the event did not serialize: dropped without a signal. */
  function DoFailEarly(s: State): State {
    s.(ring := s.ring.(dropped := s.ring.dropped + 1),
       h := s.h.(attempts := s.h.attempts + 1, refused := s.h.refused + 1))
  }

  /** `cur = m_writeHead` */
  function DoRead(s: State, p: Pid): State
    requires Live(s, p)
  {
    SetPc(s, p, HaveCur(s.ring.writeHead, s.h.w, s.h.Reservations()))
  }

  /** What the space check decides, from the write head read before and the read head now. */
  function AfterCheck(pr: Producer, readHead: u32): Pc
    requires pr.pc.HaveCur? && |pr.payload| <= MAX_PAYLOAD
  {
    var HaveCur(cur, g, t) := pr.pc;
    var stride := Stride(|pr.payload|);
    if stride > FreeBytes(cur, readHead) then ToSignal
    else if stride > SpaceToEnd(cur) then WantPad(cur, g, t)
    else WantClaim(cur, g, t)
  }

  function Refusal(log: CallLog, call: nat): CallLog {
    log.(refusals := log.refusals + [call])
  }

  function Claim(log: CallLog, call: nat): CallLog {
    log.(claimants := log.claimants + [call])
  }

  function DoCheckSpace(s: State, p: Pid): State
    requires Live(s, p) && s.producers[p].pc.HaveCur? && |s.producers[p].payload| <= MAX_PAYLOAD
  {
    var pc := AfterCheck(s.producers[p], s.ring.readHead);
    if pc.ToSignal? then
      SetPc(s, p, pc).(ring := s.ring.(dropped := s.ring.dropped + 1),
                       h := s.h.(refused := s.h.refused + 1, log := Refusal(s.h.log, s.producers[p].call)))
    else
      SetPc(s, p, pc)
  }

  function Advance(s: State, p: Pid, pc: Pc, stride: nat, slot: Slot, claimed: seq<seq<byte>>, log: CallLog): State
    requires p in s.producers
  {
    s.(
      producers := s.producers[p := s.producers[p].(pc := pc, mine := s.producers[p].mine + 1)],
      ring := s.ring.(writeHead := U32(s.ring.writeHead + stride)),
      h := s.h.(w := s.h.w + stride, slots := s.h.slots + [slot], claimed := claimed, log := log))
  }

  function DoCas(s: State, p: Pid): State
    requires Live(s, p) && (s.producers[p].pc.WantPad? || s.producers[p].pc.WantClaim?)
    requires |s.producers[p].payload| <= MAX_PAYLOAD
  {
    var pr := s.producers[p];
    var cur := pr.pc.cur;
    var n := s.h.Reservations();
    if s.ring.writeHead != cur then
      s.(producers := s.producers[p := pr.(pc := AtLoop, fails := pr.fails + 1)])
    else if pr.pc.WantPad? then
      var space := SpaceToEnd(cur);
      Advance(s, p, if space >= HEADER then PadReserved(cur, n) else AtLoop, space,
              Slot(s.h.w, space, true, Reserved, p, [], 0, 0), s.h.claimed, s.h.log)
    else
      var stride := Stride(|pr.payload|);
      Advance(s, p, DataReserved(cur, n), stride,
              Slot(s.h.w, stride, false, Reserved, p, pr.payload, 0, 0), s.h.claimed + [pr.payload],
              Claim(s.h.log, pr.call))
  }

  /** Bookkeeping for slot number `n`. */
  function Mark(h: Hist, n: nat, phase: Phase): Hist {
    if h.base <= n < h.base + |h.slots| then
      h.(slots := h.slots[n - h.base := h.slots[n - h.base].(phase := phase)])
    else h
  }

  function MarkPublished(h: Hist, n: nat, seqNum: u32, tick: u64): Hist {
    if h.base <= n < h.base + |h.slots| then
      h.(slots := h.slots[n - h.base :=
                  h.slots[n - h.base].(phase := Claimed, seqNum := seqNum, tick := tick)])
    else h
  }

  /** The header stores after a successful compare-and-swap. */
  function DoPublish(s: State, p: Pid, tick: u64): State
    requires Live(s, p) && (s.producers[p].pc.PadReserved? || s.producers[p].pc.DataReserved?)
    requires Masked(s.producers[p].pc.at) + HEADER <= RING
    requires |s.producers[p].payload| <= MAX_PAYLOAD
  {
    var pr := s.producers[p];
    var off := Masked(pr.pc.at);
    match pr.pc
    case PadReserved(at, n) =>
      var hb := HeaderBytes(CLAIMED, PadHeader(SpaceToEnd(at)));
      SetPc(s, p, PadClaimed(at, n)).(
        ring := s.ring.(mem := WriteAt(s.ring.mem, off, hb)), h := MarkPublished(s.h, n, 0, 0))
    case DataReserved(at, n) =>
      var seqNum := U32(s.ring.seqCounter + 1);
      var hb := HeaderBytes(CLAIMED, Header(0, |pr.payload|, seqNum, Stride(|pr.payload|), tick));
      SetPc(s, p, DataClaimed(at, n)).(
        ring := s.ring.(mem := WriteAt(s.ring.mem, off, hb), seqCounter := seqNum),
        h := MarkPublished(s.h, n, seqNum, tick))
  }

  function DoCopy(s: State, p: Pid): State
    requires Live(s, p) && s.producers[p].pc.DataClaimed?
    requires Masked(s.producers[p].pc.at) + HEADER + |s.producers[p].payload| <= RING
  {
    var pr := s.producers[p];
    var DataClaimed(at, n) := pr.pc;
    SetPc(s, p, DataFilled(at, n)).(
      ring := s.ring.(mem := WriteAt(s.ring.mem, Masked(at) + HEADER, pr.payload)),
      h := Mark(s.h, n, Filled))
  }

  /** The `Committed` store.  A pad's producer goes round the loop again and owes a signal. */
  function DoCommit(s: State, p: Pid): State
    requires Live(s, p) && (s.producers[p].pc.PadClaimed? || s.producers[p].pc.DataFilled?)
    requires Masked(s.producers[p].pc.at) + HEADER <= RING
  {
    var pr := s.producers[p];
    var ring := s.ring.(mem := WriteAt(s.ring.mem, Masked(pr.pc.at), ToLE(COMMITTED, 4)));
    var after := if pr.pc.PadClaimed? then pr.(pc := AtLoop, owes := true) else pr.(pc := ToCount);
    s.(producers := s.producers[p := after], ring := ring, h := Mark(s.h, pr.pc.n, Committed))
  }

  function DoCount(s: State, p: Pid): State
    requires Live(s, p)
  {
    SetPc(s, p, ToSignal).(ring := s.ring.(enqueued := s.ring.enqueued + 1))
  }

  function DoSignal(s: State, p: Pid): State {
    s.(producers := s.producers - {p}, ring := s.ring.(dataReady := true))
  }

  function DoDie(s: State, p: Pid): State
    requires Live(s, p)
  {
    s.(producers := s.producers[p := s.producers[p].(dead := true)])
  }

  // ---- worker steps ---------------------------------------------------------------

  function Park(s: State, hardError: bool): State {
    s.(worker := if s.stopping then Exited else Parked(hardError))
  }

  /** The worker moves past the head slot. */
  function Retire(h: Hist, stride: nat, entries: seq<Retired>, read: seq<seq<byte>>): Hist {
    h.(r := h.r + stride,
       base := if h.slots == [] then h.base else h.base + 1,
       slots := if h.slots == [] then [] else h.slots[1..],
       retired := h.retired + entries,
       consumed := h.consumed + read)
  }

  /** The head of `ConsumeOne`'s loop. */
  function DoPoll(s: State): State {
    if Used(s.ring.writeHead, s.ring.readHead) == 0 then Park(s, false) else s.(worker := Peeking)
  }

  predicate InspectInBounds(ring: Ring) {
    var off := Masked(ring.readHead);
    && off + 4 <= RING
    && (StateAt(ring.mem, off) == COMMITTED ==>
          && off + HEADER <= RING
          && (FlagsAt(ring.mem, off) != PAD_FLAG ==>
                off + HEADER + PayloadBytesAt(ring.mem, off) <= RING))
  }

  function HeadPayload(h: Hist): seq<byte> {
    if h.slots == [] then [] else h.slots[0].payload
  }

  function DoInspect(s: State): State
    requires InspectInBounds(s.ring)
  {
    var off := Masked(s.ring.readHead);
    var state := StateAt(s.ring.mem, off);
    if state == COMMITTED then
      var payload := PayloadBytesAt(s.ring.mem, off);
      var stride := Stride(payload);
      var released := s.ring.(mem := WriteAt(s.ring.mem, off, ToLE(FREE, 4)),
                              readHead := U32(s.ring.readHead + stride));
      if FlagsAt(s.ring.mem, off) == PAD_FLAG then
        s.(ring := released, worker := Draining, h := Retire(s.h, stride, [], []))
      else
        var bytes := ReadAt(s.ring.mem, off + HEADER, payload);
        var s' := s.(ring := released,
                     h := Retire(s.h, stride, [Retired(HeadPayload(s.h), false)], [bytes]));
        if payload == 0 then Park(s', false) else s'.(worker := Holding(bytes))
    else if state == CLAIMED then
      s.(worker := Timing)
    else
      Park(s.(ring := s.ring.(readHead := U32(s.ring.readHead + MIN_SKIP)),
              h := s.h.(r := s.h.r + MIN_SKIP)), false)
  }

  function Zeros(n: nat): (z: seq<byte>)
    ensures |z| == n
  {
    seq(n, _ => 0)
  }

  /** The stride used to skip a stuck slot. */
  function PoisonStride(stored: u32): (n: nat)
    ensures n >= 8
  {
    if HEADER <= stored <= QUARTER then AlignUp(stored) else AlignUp(HEADER)
  }

  /** A poisoned call never resumes, so it leaves the table of calls in progress. */
  function Forget(s: State): map<Pid, Producer> {
    if s.h.slots != [] && s.h.slots[0].owner in s.producers && s.producers[s.h.slots[0].owner].dead
    then s.producers - {s.h.slots[0].owner}
    else s.producers
  }

  predicate Expired(s: State, now: u64)
    requires Masked(s.ring.readHead) + HEADER <= RING
  {
    var tick := ClaimedTickAt(s.ring.mem, Masked(s.ring.readHead));
    tick != 0 && TimedOut(now, tick, s.ticksPerMs)
  }

  function DoJudge(s: State, now: u64): State
    requires Masked(s.ring.readHead) + HEADER <= RING
  {
    var off := Masked(s.ring.readHead);
    if Expired(s, now) then
      var skip := PoisonStride(StrideBytesAt(s.ring.mem, off));
      var zeroed := WriteAt(s.ring.mem, off, Zeros(Min(skip, RING - off)));
      s.(ring := s.ring.(mem := WriteAt(zeroed, off, ToLE(FREE, 4)),
                         readHead := U32(s.ring.readHead + skip),
                         poisoned := s.ring.poisoned + 1),
         producers := Forget(s),
         worker := Draining,
         h := Retire(s.h, skip, [Retired(HeadPayload(s.h), true)], []))
    else
      Park(s, false)
  }

  function Fared(h: Hist, bytes: seq<byte>, how: Fare): Hist {
    h.(fates := h.fates + [Fate(bytes, how)])
  }

  function DoCheckPort(s: State): State
    requires s.worker.Holding?
  {
    if s.port then s.(worker := Sending(s.worker.bytes))
    else s.(worker := Draining,
            ring := s.ring.(dropped := s.ring.dropped + 1),
            h := Fared(s.h, s.worker.bytes, NoPort))
  }

  function DoSend(s: State, sent: int): State
    requires s.worker.Sending?
  {
    var (status, timeouts) := SendOne(s.port, sent, s.sendTimeouts);
    var s', bytes := s.(sendTimeouts := timeouts), s.worker.bytes;
    var dropping := s.ring.(dropped := s.ring.dropped + 1);
    if NtSuccess(status) then
      s'.(worker := Draining, h := Fared(s.h, bytes, Sent(status)))
    else if status == STATUS_TIMEOUT then
      s'.(worker := Draining, ring := dropping, h := Fared(s.h, bytes, SendTimedOut))
    else
      Park(s'.(h := Fared(s.h, bytes, HardError(s.port))), true)
  }

  function DoWake(s: State, cause: WakeCause): State {
    match cause
    case OnStop => s.(worker := Draining, stopping := true)
    case OnData => s.(worker := Draining, ring := s.ring.(dataReady := false))
    case OnTimeout => s.(worker := Draining)
  }

  function DoConnect(s: State): State {
    s.(port := true, sendTimeouts := 0, ring := s.ring.(dataReady := true))
  }

  function DoStop(s: State): State {
    s.(active := false, stopSignalled := true, ring := s.ring.(dataReady := true))
  }

  // ---- the step system ------------------------------------------------------------

  predicate Enabled(s: State, step: Step) {
    match step
    case FailEarly => s.active
    case Start(p, payload) => s.active && p !in s.producers
    case ReadWriteHead(p) => Live(s, p) && s.producers[p].pc.AtLoop?
    case CheckSpace(p) =>
      Live(s, p) && s.producers[p].pc.HaveCur? && |s.producers[p].payload| <= MAX_PAYLOAD
    case Cas(p) =>
      && Live(s, p) && (s.producers[p].pc.WantPad? || s.producers[p].pc.WantClaim?)
      && |s.producers[p].payload| <= MAX_PAYLOAD
    case PublishHeader(p, tick) =>
      && Live(s, p) && (s.producers[p].pc.PadReserved? || s.producers[p].pc.DataReserved?)
      && Masked(s.producers[p].pc.at) + HEADER <= RING
      && |s.producers[p].payload| <= MAX_PAYLOAD
    case CopyPayload(p) =>
      && Live(s, p) && s.producers[p].pc.DataClaimed?
      && Masked(s.producers[p].pc.at) + HEADER + |s.producers[p].payload| <= RING
    case Commit(p) =>
      && Live(s, p) && (s.producers[p].pc.PadClaimed? || s.producers[p].pc.DataFilled?)
      && Masked(s.producers[p].pc.at) + HEADER <= RING
    case Count(p) => Live(s, p) && s.producers[p].pc.ToCount?
    case Signal(p) => Live(s, p) && s.producers[p].pc.ToSignal?
    case Die(p) => Live(s, p)
    case Wake(cause) =>
      && s.worker.Parked?
      && (match cause
          case OnStop => s.stopSignalled
          case OnData => s.ring.dataReady && !s.stopSignalled
          case OnTimeout => !s.ring.dataReady && !s.stopSignalled)
    case Poll => s.worker.Draining?
    case Inspect => s.worker.Peeking? && InspectInBounds(s.ring)
    case Judge(now) => s.worker.Timing? && Masked(s.ring.readHead) + HEADER <= RING
    case CheckPort => s.worker.Holding?
    case Send(status) => s.worker.Sending?
    case Connect => true
    case Disconnect => true
    case Stop => true
  }

  function Apply(s: State, step: Step): State
    requires Enabled(s, step)
  {
    match step
    case FailEarly => DoFailEarly(s)
    case Start(p, payload) => DoStart(s, p, payload)
    case ReadWriteHead(p) => DoRead(s, p)
    case CheckSpace(p) => DoCheckSpace(s, p)
    case Cas(p) => DoCas(s, p)
    case PublishHeader(p, tick) => DoPublish(s, p, tick)
    case CopyPayload(p) => DoCopy(s, p)
    case Commit(p) => DoCommit(s, p)
    case Count(p) => DoCount(s, p)
    case Signal(p) => DoSignal(s, p)
    case Die(p) => DoDie(s, p)
    case Wake(cause) => DoWake(s, cause)
    case Poll => DoPoll(s)
    case Inspect => DoInspect(s)
    case Judge(now) => DoJudge(s, now)
    case CheckPort => DoCheckPort(s)
    case Send(status) => DoSend(s, status)
    case Connect => DoConnect(s)
    case Disconnect => s.(port := false, sendTimeouts := 0)
    case Stop => DoStop(s)
  }

  // ---- what a run has to respect for the ring to work --------------------------------

  /** The head is still the one this producer read: fewer than 2^32 bytes went by since. */
  predicate FreshSnapshot(s: State, p: Pid)
    requires p in s.producers && s.producers[p].pc.HasSnapshot()
  {
    s.h.w < s.producers[p].pc.g + TWO32
  }

  /** The claim does not take the last free byte. */
  predicate ClaimLeavesGap(s: State, p: Pid)
    requires p in s.producers && |s.producers[p].payload| <= MAX_PAYLOAD
  {
    s.producers[p].pc.WantClaim? && s.ring.writeHead == s.producers[p].pc.cur
    ==> s.h.w + Stride(|s.producers[p].payload|) != s.h.r + RING
  }

  /** The tail a wrap leaves behind has room for a pad header. */
  predicate WrapLeavesHeader(s: State, p: Pid)
    requires p in s.producers
  {
    s.producers[p].pc.WantPad? && s.ring.writeHead == s.producers[p].pc.cur
    ==> SpaceToEnd(s.producers[p].pc.cur) >= HEADER
  }

  /** The worker looks at no slot between its reservation and its header stores. */
  predicate HeaderVisible(s: State) {
    s.h.slots != [] ==> !s.h.slots[0].phase.Reserved?
  }

  /** A slot is skipped as stuck only if its producer is gone, and was gone before it could count the
      event as enqueued. */
  predicate OnlyDeadPoisoned(s: State, now: u64)
    requires Masked(s.ring.readHead) + HEADER <= RING
  {
    Expired(s, now) && s.h.slots != [] ==>
      && s.h.slots[0].owner in s.producers && s.producers[s.h.slots[0].owner].dead
      && (s.h.slots[0].phase.Committed? ==> s.producers[s.h.slots[0].owner].pc.ToCount?)
  }

  /** Every event has bytes. */
  predicate NonEmpty(payload: seq<byte>) {
    payload != []
  }

  predicate Assumed(s: State, step: Step)
    requires Enabled(s, step)
  {
    match step
    case Start(p, payload) => NonEmpty(payload)
    case Cas(p) => FreshSnapshot(s, p) && ClaimLeavesGap(s, p) && WrapLeavesHeader(s, p)
    case Inspect => HeaderVisible(s)
    case Judge(now) => OnlyDeadPoisoned(s, now)
    case _ => true
  }

  // ---- runs -----------------------------------------------------------------------

  /** The calls that a list of steps starts, in order. */
  function Calls(steps: seq<Step>): seq<Call> {
    if steps == [] then []
    else (if steps[0].Start? then [Call(steps[0].p, steps[0].payload)] else []) + Calls(steps[1..])
  }

  /** Every step of the list can be taken in turn. */
  predicate Possible(s: State, steps: seq<Step>)
    decreases |steps|
  {
    steps == [] || (Enabled(s, steps[0]) && Possible(Apply(s, steps[0]), steps[1..]))
  }

  function Exec(s: State, steps: seq<Step>): State
    requires Possible(s, steps)
    decreases |steps|
  {
    if steps == [] then s else Exec(Apply(s, steps[0]), steps[1..])
  }

  /** Every step of the list respects the conditions above. */
  predicate Respects(s: State, steps: seq<Step>)
    requires Possible(s, steps)
    decreases |steps|
  {
    steps == [] || (Assumed(s, steps[0]) && Respects(Apply(s, steps[0]), steps[1..]))
  }
}
