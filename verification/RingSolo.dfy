/**
 One call of `ProduceSlot` with nobody in between: its effect on the ring as a function, and the
 steps of the concurrent system that it is made of.
 */
module RingSolo {
  import opened Bytes
  import opened RingLayout
  import opened RingProtocol
  import opened RingSteps

  datatype Status = Success | InvalidParameter | InsufficientResources

  // ---- the call as a function -------------------------------------------------------------

  function Dropped(ring: Ring): Ring {
    ring.(dropped := ring.dropped + 1, dataReady := true)
  }

  /** The head moves to the start of the ring; the tail becomes a pad if it can hold a header. */
  function Wrapped(ring: Ring): Ring {
    var off, space := Masked(ring.writeHead), SpaceToEnd(ring.writeHead);
    var moved := ring.(writeHead := U32(ring.writeHead + space));
    if space < HEADER then moved
    else
      var claimed := WriteAt(ring.mem, off, HeaderBytes(CLAIMED, PadHeader(space)));
      moved.(mem := WriteAt(claimed, off, ToLE(COMMITTED, 4)))
  }

  /** A slot of `stride` bytes at `off` is claimed, filled and committed. */
  function AppendedAt(ring: Ring, off: nat, stride: u32, bytes: seq<byte>, tick: u64): Ring
    requires |bytes| <= MAX_PAYLOAD && off + HEADER + |bytes| <= RING
  {
    var seqNum := U32(ring.seqCounter + 1);
    var claimed := WriteAt(ring.mem, off, HeaderBytes(CLAIMED, Header(0, |bytes|, seqNum, stride, tick)));
    var copied := WriteAt(claimed, off + HEADER, bytes);
    ring.(mem := WriteAt(copied, off, ToLE(COMMITTED, 4)),
          writeHead := U32(ring.writeHead + stride),
          seqCounter := seqNum, enqueued := ring.enqueued + 1, dataReady := true)
  }

  /** The event takes the next slot at the head. */
  function Appended(ring: Ring, bytes: seq<byte>, tick: u64): Ring
    requires |bytes| <= MAX_PAYLOAD && Stride(|bytes|) <= SpaceToEnd(ring.writeHead)
  {
    StrideBounds(|bytes|);
    AppendedAt(ring, Masked(ring.writeHead), Stride(|bytes|), bytes, tick)
  }

  predicate Fits(ring: Ring, size: nat)
    requires size <= MAX_PAYLOAD
  {
    Stride(size) <= FreeBytes(ring.writeHead, ring.readHead)
  }

  predicate NeedsWrap(ring: Ring, size: nat)
    requires size <= MAX_PAYLOAD
  {
    Stride(size) > SpaceToEnd(ring.writeHead)
  }

  /** After a wrap the head is at the start of the ring, so a call wraps at most once. */
  lemma WrapsAtMostOnce(ring: Ring, size: nat)
    requires size <= MAX_PAYLOAD
    ensures Masked(Wrapped(ring).writeHead) == 0 && !NeedsWrap(Wrapped(ring), size)
  {
    var w := ring.writeHead;
    ModOfMod(w + SpaceToEnd(w));
    assert w == RING * (w / RING) + Masked(w);
    assert w + SpaceToEnd(w) == RING * (w / RING + 1);
    StrideBounds(size);
  }

  function Produced(ring: Ring, bytes: seq<byte>, tick: u64): (Ring, Status) {
    if |bytes| > MAX_PAYLOAD then (Dropped(ring), InvalidParameter)
    else if !Fits(ring, |bytes|) then (Dropped(ring), InsufficientResources)
    else if !NeedsWrap(ring, |bytes|) then (Appended(ring, bytes, tick), Success)
    else
      WrapsAtMostOnce(ring, |bytes|);
      if !Fits(Wrapped(ring), |bytes|) then (Dropped(Wrapped(ring)), InsufficientResources)
      else (Appended(Wrapped(ring), bytes, tick), Success)
  }

  /** When a call alone is accepted, in the code's own numbers: never with more than 65508 bytes; else if the
      slot, rounded up to eight bytes, fits the free space and either the rest of the ring before its end or,
      after a wrap, the free space that is left. */
  lemma CallOutcome(ring: Ring, bytes: seq<byte>, tick: u64)
    ensures var status := Produced(ring, bytes, tick).1;
            var stride, used, off := (28 + |bytes| + 7) / 8 * 8, (ring.writeHead - ring.readHead) % 262144, ring.writeHead % 262144;
            && (status == InvalidParameter <==> |bytes| > 65508)
            && (|bytes| <= 65508 ==>
                  (status == Success <==>
                    && used + stride <= 262144
                    && (off + stride <= 262144 || (used + 262144 - off) % 262144 + stride <= 262144)))
  {
    UsedOfHeads(ring.writeHead, ring.readHead);
    if |bytes| <= 65508 {
      StrideIs(|bytes|);
      WrappedUsed(ring);
      hide Wrapped, Appended, Dropped, Stride, Used;
    }
  }

  lemma StrideIs(size: nat)
    requires size <= 65508
    ensures Stride(size) == (28 + size + 7) / 8 * 8
  {
  }

  lemma UsedOfHeads(w: u32, r: u32)
    ensures Used(w, r) == (w - r) % RING
  {
    assert U32(w) == w && U32(r) == r;
    UsedIsDistance(w, r);
    hide Used, U32;
  }

  lemma WrappedUsed(ring: Ring)
    ensures Wrapped(ring).readHead == ring.readHead
    ensures Used(Wrapped(ring).writeHead, ring.readHead) == (Used(ring.writeHead, ring.readHead) + SpaceToEnd(ring.writeHead)) % RING
  {
    WrappedHeads(ring);
    var w: nat, r: nat, space := ring.writeHead, ring.readHead, SpaceToEnd(ring.writeHead);
    UsedOfHeads(w, r);
    UsedOfHeads(U32(w + space), r);
    assert U32(r) == r;
    UsedIsDistance(w + space, r);
    hide Wrapped, Used, U32, SpaceToEnd;
    SameDistance(w - r, space);
  }

  lemma SameDistance(d: int, space: int)
    ensures (d + space) % RING == (d % RING + space) % RING
  {
    var q := d / RING;
    assert d == RING * q + d % RING;
    ModLaps(d % RING + space, q);
  }

  lemma WrappedHeads(ring: Ring)
    ensures Wrapped(ring).readHead == ring.readHead
    ensures Wrapped(ring).writeHead == U32(ring.writeHead + SpaceToEnd(ring.writeHead))
  {
    hide WriteAt, HeaderBytes, U32;
  }

  /** The sizes that leave the ring in order: a claim must not take the last free byte, and a wrap
      must leave a tail that holds a header. */
  predicate Safe(ring: Ring, size: nat) {
    size <= MAX_PAYLOAD && Fits(ring, size) ==>
      if !NeedsWrap(ring, size) then Stride(size) != FreeBytes(ring.writeHead, ring.readHead)
      else
        && SpaceToEnd(ring.writeHead) >= HEADER
        && (Fits(Wrapped(ring), size) ==>
              Stride(size) != FreeBytes(Wrapped(ring).writeHead, ring.readHead))
  }

  // ---- building runs ---------------------------------------------------------------------------

  lemma {:induction false} Extend(s: State, steps: seq<Step>, step: Step)
    requires Possible(s, steps) && Enabled(Exec(s, steps), step)
    ensures Possible(s, steps + [step]) && Exec(s, steps + [step]) == Apply(Exec(s, steps), step)
    ensures Respects(s, steps + [step]) <==> Respects(s, steps) && Assumed(Exec(s, steps), step)
    ensures Calls(steps + [step]) == Calls(steps) + (if step.Start? then [Call(step.p, step.payload)] else [])
    decreases |steps|
  {
    var all := steps + [step];
    if steps == [] {
      assert all == [step] && all[1..] == [];
    } else {
      assert all[0] == steps[0] && all[1..] == steps[1..] + [step];
      Extend(Apply(s, steps[0]), steps[1..], step);
    }
  }

  /** A run so far: where it started, its steps, where it is. */
  datatype Trail = Trail(from: State, steps: seq<Step>, now: State)

  predicate Walked(t: Trail) {
    Possible(t.from, t.steps) && Exec(t.from, t.steps) == t.now
  }

  predicate Clean(t: Trail)
    requires Walked(t)
  {
    Respects(t.from, t.steps)
  }

  function Fed(t: Trail): seq<Call> {
    Calls(t.steps)
  }

  /** `t'` goes on from `t` without starting a call. */
  predicate Onward(t: Trail, t': Trail) {
    t'.from == t.from && Fed(t') == Fed(t)
  }

  function Begin(s: State): (t: Trail)
    ensures Walked(t) && Clean(t) && t.now == s && Fed(t) == []
  {
    Trail(s, [], s)
  }

  ghost function Then(t: Trail, step: Step): (t': Trail)
    requires Walked(t) && Enabled(t.now, step)
    ensures Walked(t') && t'.from == t.from && t'.now == Apply(t.now, step)
    ensures Clean(t') <==> Clean(t) && Assumed(t.now, step)
    ensures if step.Start? then Fed(t') == Fed(t) + [Call(step.p, step.payload)] else Onward(t, t')
  {
    Extend(t.from, t.steps, step);
    Trail(t.from, t.steps + [step], Apply(t.now, step))
  }

  /** One more step of a run, for each step a claiming call takes. */
  lemma ThenCas(t: Trail, p: Pid) returns (t': Trail)
    requires Walked(t) && CanCas(t.now, p)
    ensures Walked(t') && Onward(t, t') && t'.now == DoCas(t.now, p)
    ensures Clean(t') <==> Clean(t) && FreshSnapshot(t.now, p) && ClaimLeavesGap(t.now, p) && WrapLeavesHeader(t.now, p)
  {
    t' := Then(t, Cas(p));
  }

  lemma ThenRead(t: Trail, p: Pid) returns (t': Trail)
    requires Walked(t) && AtTop(t.now, p)
    ensures Walked(t') && Onward(t, t') && t'.now == DoRead(t.now, p) && (Clean(t') <==> Clean(t))
  {
    t' := Then(t, ReadWriteHead(p));
  }

  lemma ThenCheck(t: Trail, p: Pid) returns (t': Trail)
    requires Walked(t) && Live(t.now, p) && t.now.producers[p].pc.HaveCur? && |t.now.producers[p].payload| <= MAX_PAYLOAD
    ensures Walked(t') && Onward(t, t') && t'.now == DoCheckSpace(t.now, p) && (Clean(t') <==> Clean(t))
  {
    t' := Then(t, CheckSpace(p));
  }

  lemma ThenPublish(t: Trail, p: Pid, tick: u64) returns (t': Trail)
    requires Walked(t) && Enabled(t.now, PublishHeader(p, tick))
    ensures Walked(t') && Onward(t, t') && t'.now == DoPublish(t.now, p, tick) && (Clean(t') <==> Clean(t))
  {
    t' := Then(t, PublishHeader(p, tick));
  }

  lemma ThenCopy(t: Trail, p: Pid) returns (t': Trail)
    requires Walked(t) && Enabled(t.now, CopyPayload(p))
    ensures Walked(t') && Onward(t, t') && t'.now == DoCopy(t.now, p) && (Clean(t') <==> Clean(t))
  {
    t' := Then(t, CopyPayload(p));
  }

  lemma ThenCommit(t: Trail, p: Pid) returns (t': Trail)
    requires Walked(t) && Enabled(t.now, Commit(p))
    ensures Walked(t') && Onward(t, t') && t'.now == DoCommit(t.now, p) && (Clean(t') <==> Clean(t))
  {
    t' := Then(t, Commit(p));
  }

  lemma ThenCount(t: Trail, p: Pid) returns (t': Trail)
    requires Walked(t) && Live(t.now, p) && t.now.producers[p].pc.ToCount?
    ensures Walked(t') && Onward(t, t') && t'.now == DoCount(t.now, p) && (Clean(t') <==> Clean(t))
  {
    t' := Then(t, Count(p));
  }

  lemma ThenJudge(t: Trail, now: u64) returns (t': Trail)
    requires Walked(t) && Enabled(t.now, Judge(now))
    ensures Walked(t') && Onward(t, t') && t'.now == DoJudge(t.now, now)
    ensures Clean(t') <==> Clean(t) && OnlyDeadPoisoned(t.now, now)
  {
    t' := Then(t, Judge(now));
  }

  // ---- the call as steps -------------------------------------------------------------------------

  /** `s` with one more slot behind the head, while `p` is at work on it. */
  function Working(s: State, p: Pid, pr: Producer, ring: Ring, slot: Slot): State {
    s.(producers := s.producers[p := pr], ring := ring,
       h := s.h.(w := s.h.w + slot.stride, slots := s.h.slots + [slot],
                 claimed := s.h.claimed + (if slot.pad then [] else [slot.payload]),
                 log := if slot.pad then s.h.log else Claim(s.h.log, pr.call)))
  }

  /** A call that has just reserved a slot. */
  function Reserving(pr: Producer, pc: Pc): Producer {
    pr.(pc := pc, mine := pr.mine + 1)
  }

  /** A live call at the top of the loop. */
  predicate AtTop(s: State, p: Pid) {
    Live(s, p) && s.producers[p].pc.AtLoop? && |s.producers[p].payload| <= MAX_PAYLOAD
  }

  /** Reading the head and checking the space. */
  lemma CheckSegment(t: Trail, p: Pid) returns (t': Trail)
    requires Walked(t) && AtTop(t.now, p)
    ensures Walked(t') && Onward(t, t') && (Clean(t') <==> Clean(t))
    ensures var s := t.now;
            var size := |s.producers[p].payload|;
            var pc := if !Fits(s.ring, size) then ToSignal
                      else if NeedsWrap(s.ring, size) then WantPad(s.ring.writeHead, s.h.w, s.h.Reservations())
                      else WantClaim(s.ring.writeHead, s.h.w, s.h.Reservations());
            t'.now == if Fits(s.ring, size) then SetPc(s, p, pc)
                      else SetPc(s, p, pc).(ring := s.ring.(dropped := s.ring.dropped + 1),
                                            h := s.h.(refused := s.h.refused + 1,
                                                      log := Refusal(s.h.log, s.producers[p].call)))
  {
    hide Walked, Clean, Fed;
    hide Stride, FreeBytes, SpaceToEnd;
    var t1 := ThenRead(t, p);
    t' := ThenCheck(t1, p);
  }

  lemma SignalSegment(t: Trail, p: Pid) returns (t': Trail)
    requires Walked(t) && Live(t.now, p) && t.now.producers[p].pc.ToSignal?
    ensures Walked(t') && Onward(t, t') && (Clean(t') <==> Clean(t)) && t'.now == DoSignal(t.now, p)
  {
    hide Walked, Clean, Fed;
    t' := Then(t, Signal(p));
  }

  predicate ReadyToClaim(s: State, p: Pid) {
    && Live(s, p) && |s.producers[p].payload| <= MAX_PAYLOAD
    && s.producers[p].pc == WantClaim(s.ring.writeHead, s.h.w, s.h.Reservations())
    && Stride(|s.producers[p].payload|) <= SpaceToEnd(s.ring.writeHead)
  }

  predicate ReadyToWrap(s: State, p: Pid) {
    && Live(s, p) && |s.producers[p].payload| <= MAX_PAYLOAD
    && s.producers[p].pc == WantPad(s.ring.writeHead, s.h.w, s.h.Reservations())
  }

  /** The slot the next reservation makes. */
  function NewSlot(s: State, p: Pid, stride: nat, pad: bool): Slot
    requires p in s.producers
  {
    Slot(s.h.w, stride, pad, Reserved, p, if pad then [] else s.producers[p].payload, 0, 0)
  }

  lemma ReserveData(t: Trail, p: Pid) returns (t': Trail)
    requires Walked(t) && ReadyToClaim(t.now, p)
    ensures Walked(t') && Onward(t, t')
    ensures Clean(t') <==> Clean(t) && t.now.h.w + Stride(|t.now.producers[p].payload|) != t.now.h.r + RING
    ensures var s, stride := t.now, Stride(|t.now.producers[p].payload|);
            t'.now == Working(s, p, Reserving(s.producers[p], DataReserved(s.ring.writeHead, s.h.Reservations())),
                              s.ring.(writeHead := U32(s.ring.writeHead + stride)), NewSlot(s, p, stride, false))
  {
    hide Walked, Clean, Fed, Stride;
    t' := ThenCas(t, p);
  }

  lemma ReservePad(t: Trail, p: Pid) returns (t': Trail)
    requires Walked(t) && ReadyToWrap(t.now, p)
    ensures Walked(t') && Onward(t, t')
    ensures Clean(t') <==> Clean(t) && SpaceToEnd(t.now.ring.writeHead) >= HEADER
    ensures var s, space := t.now, SpaceToEnd(t.now.ring.writeHead);
            var pc := if space >= HEADER then PadReserved(s.ring.writeHead, s.h.Reservations()) else AtLoop;
            t'.now == Working(s, p, Reserving(s.producers[p], pc),
                              s.ring.(writeHead := U32(s.ring.writeHead + space)), NewSlot(s, p, space, true))
  {
    hide Walked, Clean, Fed, SpaceToEnd;
    t' := ThenCas(t, p);
    assert t'.now.h.claimed == t.now.h.claimed + [];
  }

  /** `t` stands in a call that has one more slot than `s`, with `p` at `pc`. */
  predicate In(t: Trail, s: State, p: Pid, pc: Pc, ring: Ring, slot: Slot) {
    && Walked(t) && p in s.producers && !s.producers[p].dead
    && t.now == Working(s, p, Reserving(s.producers[p], pc), ring, slot)
  }

  lemma StoreHeader(t: Trail, s: State, p: Pid, at: u32, ring: Ring, slot: Slot, tick: u64) returns (t': Trail)
    requires In(t, s, p, DataReserved(at, s.h.Reservations()), ring, slot)
    requires Masked(at) + HEADER <= RING && |s.producers[p].payload| <= MAX_PAYLOAD
    ensures var seqNum, size := U32(ring.seqCounter + 1), |s.producers[p].payload|;
            var hb := HeaderBytes(CLAIMED, Header(0, size, seqNum, Stride(size), tick));
            In(t', s, p, DataClaimed(at, s.h.Reservations()),
               ring.(mem := WriteAt(ring.mem, Masked(at), hb), seqCounter := seqNum),
               slot.(phase := Claimed, seqNum := seqNum, tick := tick))
    ensures Onward(t, t') && (Clean(t') <==> Clean(t))
  {
    hide Walked, Clean, Fed, HeaderBytes, Stride;
    t' := ThenPublish(t, p, tick);
  }

  lemma StorePadHeader(t: Trail, s: State, p: Pid, at: u32, ring: Ring, slot: Slot) returns (t': Trail)
    requires In(t, s, p, PadReserved(at, s.h.Reservations()), ring, slot) && slot.seqNum == 0 && slot.tick == 0
    requires Masked(at) + HEADER <= RING && |s.producers[p].payload| <= MAX_PAYLOAD
    ensures var hb := HeaderBytes(CLAIMED, PadHeader(SpaceToEnd(at)));
            In(t', s, p, PadClaimed(at, s.h.Reservations()),
               ring.(mem := WriteAt(ring.mem, Masked(at), hb)), slot.(phase := Claimed))
    ensures Onward(t, t') && (Clean(t') <==> Clean(t))
  {
    hide Walked, Clean, Fed, HeaderBytes;
    t' := ThenPublish(t, p, 0);
  }

  lemma CopyIn(t: Trail, s: State, p: Pid, at: u32, ring: Ring, slot: Slot) returns (t': Trail)
    requires In(t, s, p, DataClaimed(at, s.h.Reservations()), ring, slot)
    requires Masked(at) + HEADER + |s.producers[p].payload| <= RING
    ensures In(t', s, p, DataFilled(at, s.h.Reservations()),
               ring.(mem := WriteAt(ring.mem, Masked(at) + HEADER, s.producers[p].payload)),
               slot.(phase := Filled))
    ensures Onward(t, t') && (Clean(t') <==> Clean(t))
  {
    hide Walked, Clean, Fed;
    t' := ThenCopy(t, p);
  }

  lemma CommitData(t: Trail, s: State, p: Pid, at: u32, ring: Ring, slot: Slot) returns (t': Trail)
    requires In(t, s, p, DataFilled(at, s.h.Reservations()), ring, slot) && Masked(at) + HEADER <= RING
    ensures In(t', s, p, ToCount, ring.(mem := WriteAt(ring.mem, Masked(at), ToLE(COMMITTED, 4))),
               slot.(phase := Committed))
    ensures Onward(t, t') && (Clean(t') <==> Clean(t))
  {
    hide Walked, Clean, Fed;
    t' := ThenCommit(t, p);
  }

  lemma CommitPad(t: Trail, s: State, p: Pid, at: u32, ring: Ring, slot: Slot) returns (t': Trail)
    requires In(t, s, p, PadClaimed(at, s.h.Reservations()), ring, slot) && Masked(at) + HEADER <= RING
    ensures Walked(t') && Onward(t, t') && (Clean(t') <==> Clean(t))
    ensures t'.now == Working(s, p, Reserving(s.producers[p], AtLoop).(owes := true),
                              ring.(mem := WriteAt(ring.mem, Masked(at), ToLE(COMMITTED, 4))),
                              slot.(phase := Committed))
  {
    hide Walked, Clean, Fed;
    t' := ThenCommit(t, p);
  }

  lemma Finish(t: Trail, s: State, p: Pid, ring: Ring, slot: Slot) returns (t': Trail)
    requires In(t, s, p, ToCount, ring, slot)
    ensures Walked(t') && Onward(t, t') && (Clean(t') <==> Clean(t))
    ensures t'.now == Working(s, p, s.producers[p], ring.(enqueued := ring.enqueued + 1, dataReady := true), slot)
                      .(producers := s.producers - {p})
  {
    hide Walked, Clean, Fed;
    var t1 := ThenCount(t, p);
    t' := SignalSegment(t1, p);
    assert t'.now.producers == s.producers - {p};
  }

  lemma FillAndFinish(t: Trail, s: State, p: Pid, at: u32, ring: Ring, slot: Slot) returns (t': Trail)
    requires In(t, s, p, DataClaimed(at, s.h.Reservations()), ring, slot)
    requires Masked(at) + HEADER + |s.producers[p].payload| <= RING
    ensures Walked(t') && Onward(t, t') && (Clean(t') <==> Clean(t))
    ensures var copied := WriteAt(ring.mem, Masked(at) + HEADER, s.producers[p].payload);
            t'.now == Working(s, p, s.producers[p],
                              ring.(mem := WriteAt(copied, Masked(at), ToLE(COMMITTED, 4)),
                                    enqueued := ring.enqueued + 1, dataReady := true),
                              slot.(phase := Committed)).(producers := s.producers - {p})
  {
    hide Walked, Clean, Fed, WriteAt, Working;
    var t1 := CopyIn(t, s, p, at, ring, slot);
    var ring1 := ring.(mem := WriteAt(ring.mem, Masked(at) + HEADER, s.producers[p].payload));
    var t2 := CommitData(t1, s, p, at, ring1, slot.(phase := Filled));
    var ring2 := ring1.(mem := WriteAt(ring1.mem, Masked(at), ToLE(COMMITTED, 4)));
    t' := Finish(t2, s, p, ring2, slot.(phase := Committed));
  }

  function ClaimedSlot(s: State, p: Pid, tick: u64): Slot
    requires p in s.producers && |s.producers[p].payload| <= MAX_PAYLOAD
  {
    var bytes := s.producers[p].payload;
    Slot(s.h.w, Stride(|bytes|), false, Committed, p, bytes, U32(s.ring.seqCounter + 1), tick)
  }

  /** A claim that fits, from the swap to the end of the call. */
  lemma ClaimSegment(t: Trail, p: Pid, tick: u64) returns (t': Trail)
    requires Walked(t) && ReadyToClaim(t.now, p)
    ensures Walked(t') && Onward(t, t')
    ensures Clean(t') <==> Clean(t) && t.now.h.w + Stride(|t.now.producers[p].payload|) != t.now.h.r + RING
    ensures var s := t.now;
            t'.now == Working(s, p, s.producers[p], Appended(s.ring, s.producers[p].payload, tick),
                              ClaimedSlot(s, p, tick)).(producers := s.producers - {p})
  {
    var s := t.now;
    var w, bytes := s.ring.writeHead, s.producers[p].payload;
    StrideBounds(|bytes|);
    hide Walked, Clean, Fed, Stride, HeaderBytes, WriteAt, Working;
    var t1 := ReserveData(t, p);
    var ring1, slot1 := s.ring.(writeHead := U32(w + Stride(|bytes|))), NewSlot(s, p, Stride(|bytes|), false);
    var t2 := StoreHeader(t1, s, p, w, ring1, slot1, tick);
    var seqNum := U32(s.ring.seqCounter + 1);
    var hb := HeaderBytes(CLAIMED, Header(0, |bytes|, seqNum, Stride(|bytes|), tick));
    var ring2 := ring1.(mem := WriteAt(s.ring.mem, Masked(w), hb), seqCounter := seqNum);
    var slot2 := slot1.(phase := Claimed, seqNum := seqNum, tick := tick);
    t' := FillAndFinish(t2, s, p, w, ring2, slot2);
  }

  /** A wrap, back to the top of the loop. */
  lemma WrapSegment(t: Trail, p: Pid) returns (t': Trail)
    requires Walked(t) && ReadyToWrap(t.now, p)
    ensures Walked(t') && Onward(t, t')
    ensures Clean(t') <==> Clean(t) && SpaceToEnd(t.now.ring.writeHead) >= HEADER
    ensures var s := t.now;
            var space := SpaceToEnd(s.ring.writeHead);
            t'.now == Working(s, p, Reserving(s.producers[p], AtLoop).(owes := s.producers[p].owes || space >= HEADER),
                              Wrapped(s.ring), PadLeft(s, p))
  {
    hide Walked, Clean, Fed, HeaderBytes, WriteAt, Working;
    var s := t.now;
    var w, space := s.ring.writeHead, SpaceToEnd(s.ring.writeHead);
    t' := ReservePad(t, p);
    if space >= HEADER {
      var ring1, slot := s.ring.(writeHead := U32(w + space)), NewSlot(s, p, space, true);
      var t2 := StorePadHeader(t', s, p, w, ring1, slot);
      var ring2 := ring1.(mem := WriteAt(s.ring.mem, Masked(w), HeaderBytes(CLAIMED, PadHeader(space))));
      t' := CommitPad(t2, s, p, w, ring2, slot.(phase := Claimed));
    }
  }

  // ---- the whole call --------------------------------------------------------------------------------

  /** What a wrap leaves at the end of the ring. */
  function PadLeft(s: State, p: Pid): Slot {
    var space := SpaceToEnd(s.ring.writeHead);
    Slot(s.h.w, space, true, if space >= HEADER then Committed else Reserved, p, [], 0, 0)
  }

  /** The bookkeeping a whole call leaves behind: a pad if it wrapped, its slot if it claimed. */
  function CallSlots(s: State, p: Pid, bytes: seq<byte>, tick: u64): seq<Slot> {
    if |bytes| > MAX_PAYLOAD || !Fits(s.ring, |bytes|) then []
    else
      var stride, seqNum := Stride(|bytes|), U32(s.ring.seqCounter + 1);
      if !NeedsWrap(s.ring, |bytes|) then [Slot(s.h.w, stride, false, Committed, p, bytes, seqNum, tick)]
      else
        var pad := PadLeft(s, p);
        if !Fits(Wrapped(s.ring), |bytes|) then [pad]
        else [pad, Slot(s.h.w + pad.stride, stride, false, Committed, p, bytes, seqNum, tick)]
  }

  /** The condition under which every step of the call respects the ring's conditions. */
  predicate SafeHere(s: State, size: nat) {
    size <= MAX_PAYLOAD && Fits(s.ring, size) ==>
      if !NeedsWrap(s.ring, size) then s.h.w + Stride(size) != s.h.r + RING
      else
        && SpaceToEnd(s.ring.writeHead) >= HEADER
        && (Fits(Wrapped(s.ring), size) ==>
              s.h.w + SpaceToEnd(s.ring.writeHead) + Stride(size) != s.h.r + RING)
  }

  predicate CallDone(s: State, p: Pid, bytes: seq<byte>, tick: u64, s': State) {
    && s'.ring == Produced(s.ring, bytes, tick).0
    && s' == s.(ring := s'.ring, h := s'.h)
    && s'.h.r == s.h.r && s'.h.slots == s.h.slots + CallSlots(s, p, bytes, tick)
    && s'.h.consumed == s.h.consumed
  }

  /** One uninterrupted call of `Enqueue`'s `ProduceSlot` is a run of the step system, and its effect on the ring is
      `Produced`; it respects every condition of a run exactly when it is safe. */
  lemma SoloCall(s: State, p: Pid, bytes: seq<byte>, tick: u64) returns (t: Trail)
    requires s.active && p !in s.producers
    ensures Walked(t) && t.from == s && Fed(t) == [Call(p, bytes)]
    ensures CallDone(s, p, bytes, tick, t.now)
    ensures Clean(t) <==> NonEmpty(bytes) && SafeHere(s, |bytes|)
  {
    hide Walked, Clean, Fed;
    var t0 := Then(Begin(s), Start(p, bytes));
    assert t0.now == DoStart(s, p, bytes);
    if |bytes| > MAX_PAYLOAD {
      t := SignalSegment(t0, p);
      assert t.now.producers == s.producers;
    } else {
      t := SoloLoop(t0, s, p, bytes, tick);
    }
  }

  lemma Forgotten(m: map<Pid, Producer>, p: Pid, pr: Producer)
    requires p !in m
    ensures m[p := pr] - {p} == m
  {
  }

  lemma SoloLoop(t0: Trail, s: State, p: Pid, bytes: seq<byte>, tick: u64) returns (t: Trail)
    requires Walked(t0) && p !in s.producers && |bytes| <= MAX_PAYLOAD
    requires t0.now == DoStart(s, p, bytes)
    ensures Walked(t) && Onward(t0, t)
    ensures CallDone(s, p, bytes, tick, t.now)
    ensures Clean(t) <==> Clean(t0) && SafeHere(s, |bytes|)
  {
    hide Walked, Clean, Fed, Stride, Fits, NeedsWrap, FreeBytes, SpaceToEnd, Appended, Wrapped, CallDone;
    var t1 := CheckSegment(t0, p);
    if !Fits(s.ring, |bytes|) {
      t := SoloRefused(t1, s, p, bytes, tick);
    } else if !NeedsWrap(s.ring, |bytes|) {
      t := SoloFit(t1, s, p, bytes, tick);
    } else {
      t := SoloWrap(t1, s, p, bytes, tick);
    }
  }

  lemma SoloRefused(t1: Trail, s: State, p: Pid, bytes: seq<byte>, tick: u64) returns (t: Trail)
    requires Walked(t1) && p !in s.producers && |bytes| <= MAX_PAYLOAD && !Fits(s.ring, |bytes|)
    requires var u := DoStart(s, p, bytes);
             t1.now == SetPc(u, p, ToSignal).(ring := u.ring.(dropped := u.ring.dropped + 1),
                                              h := u.h.(refused := u.h.refused + 1,
                                                        log := Refusal(u.h.log, u.producers[p].call)))
    ensures Walked(t) && Onward(t1, t)
    ensures CallDone(s, p, bytes, tick, t.now)
    ensures Clean(t) <==> Clean(t1)
  {
    hide Walked, Clean, Fed, Stride, Fits, NeedsWrap, Appended, Wrapped, CallDone;
    Forgotten(s.producers, p, t1.now.producers[p]);
    t := SignalSegment(t1, p);
    CallIsDone(s, p, bytes, tick, t.now);
  }

  lemma SoloFit(t1: Trail, s: State, p: Pid, bytes: seq<byte>, tick: u64) returns (t: Trail)
    requires Walked(t1) && p !in s.producers && |bytes| <= MAX_PAYLOAD
    requires Fits(s.ring, |bytes|) && !NeedsWrap(s.ring, |bytes|)
    requires t1.now == SetPc(DoStart(s, p, bytes), p, WantClaim(s.ring.writeHead, s.h.w, s.h.Reservations()))
    ensures Walked(t) && Onward(t1, t)
    ensures CallDone(s, p, bytes, tick, t.now)
    ensures Clean(t) <==> Clean(t1) && SafeHere(s, |bytes|)
  {
    hide Walked, Clean, Fed, Stride, FreeBytes, SpaceToEnd, Appended, Wrapped, CallDone;
    Forgotten(s.producers, p, t1.now.producers[p]);
    t := ClaimSegment(t1, p, tick);
    CallIsDone(s, p, bytes, tick, t.now);
  }

  lemma CallIsDone(s: State, p: Pid, bytes: seq<byte>, tick: u64, s': State)
    requires |bytes| <= MAX_PAYLOAD && (Fits(s.ring, |bytes|) ==> !NeedsWrap(s.ring, |bytes|))
    requires s' == s.(ring := s'.ring, h := s'.h) && s'.h.r == s.h.r && s'.h.consumed == s.h.consumed
    requires if Fits(s.ring, |bytes|) then
               && s'.ring == Appended(s.ring, bytes, tick)
               && s'.h.slots == s.h.slots + [Slot(s.h.w, Stride(|bytes|), false, Committed, p, bytes, U32(s.ring.seqCounter + 1), tick)]
             else s'.ring == Dropped(s.ring) && s'.h.slots == s.h.slots
    ensures CallDone(s, p, bytes, tick, s')
  {
    hide Stride, FreeBytes, SpaceToEnd, Appended, Wrapped;
    assert s.h.slots + [] == s.h.slots;
  }

  /** `u` is `s` after the call has wrapped and is back at the top of its loop. */
  predicate Retrying(s: State, u: State, p: Pid, bytes: seq<byte>) {
    && AtTop(u, p) && u.producers[p].payload == bytes && u.producers - {p} == s.producers
    && u == s.(producers := u.producers, ring := Wrapped(s.ring), h := u.h)
    && u.h.r == s.h.r && u.h.consumed == s.h.consumed && u.h.w == s.h.w + PadLeft(s, p).stride && u.h.slots == s.h.slots + [PadLeft(s, p)]
  }

  lemma SoloWrap(t1: Trail, s: State, p: Pid, bytes: seq<byte>, tick: u64) returns (t: Trail)
    requires Walked(t1) && p !in s.producers && |bytes| <= MAX_PAYLOAD
    requires Fits(s.ring, |bytes|) && NeedsWrap(s.ring, |bytes|)
    requires t1.now == SetPc(DoStart(s, p, bytes), p, WantPad(s.ring.writeHead, s.h.w, s.h.Reservations()))
    ensures Walked(t) && Onward(t1, t)
    ensures CallDone(s, p, bytes, tick, t.now)
    ensures Clean(t) <==> Clean(t1) && SafeHere(s, |bytes|)
  {
    hide Walked, Clean, Fed, Stride, FreeBytes, SpaceToEnd, Wrapped, CallDone;
    var t2 := WrapSegment(t1, p);
    Forgotten(s.producers, p, t2.now.producers[p]);
    assert Retrying(s, t2.now, p, bytes);
    hide Working, Retrying, DoStart, SetPc;
    t := SecondTry(t2, s, p, bytes, tick);
  }

  lemma SameOthers(m: map<Pid, Producer>, p: Pid, pr: Producer)
    ensures m[p := pr] - {p} == m - {p}
  {
  }

  lemma SecondTry(t2: Trail, s: State, p: Pid, bytes: seq<byte>, tick: u64) returns (t: Trail)
    requires Walked(t2) && |bytes| <= MAX_PAYLOAD
    requires Fits(s.ring, |bytes|) && NeedsWrap(s.ring, |bytes|) && Retrying(s, t2.now, p, bytes)
    ensures Walked(t) && Onward(t2, t)
    ensures CallDone(s, p, bytes, tick, t.now)
    ensures Clean(t) <==>
            Clean(t2) && (Fits(Wrapped(s.ring), |bytes|) ==>
                            s.h.w + SpaceToEnd(s.ring.writeHead) + Stride(|bytes|) != s.h.r + RING)
  {
    hide Walked, Clean, Fed, Stride, FreeBytes, SpaceToEnd, Appended, CallDone;
    WrapsAtMostOnce(s.ring, |bytes|);
    assert Wrapped(s.ring).seqCounter == s.ring.seqCounter;
    hide Wrapped, Fits;
    var u := t2.now;
    var t3 := CheckSegment(t2, p);
    SameOthers(u.producers, p, t3.now.producers[p]);
    if !Fits(Wrapped(s.ring), |bytes|) {
      t := SignalSegment(t3, p);
    } else {
      t := ClaimSegment(t3, p, tick);
    }
    WrappedCallIsDone(s, p, bytes, tick, t.now);
  }

  lemma WrappedCallIsDone(s: State, p: Pid, bytes: seq<byte>, tick: u64, s': State)
    requires |bytes| <= MAX_PAYLOAD && Fits(s.ring, |bytes|) && NeedsWrap(s.ring, |bytes|)
    requires !NeedsWrap(Wrapped(s.ring), |bytes|) && Wrapped(s.ring).seqCounter == s.ring.seqCounter
    requires s' == s.(ring := s'.ring, h := s'.h) && s'.h.r == s.h.r && s'.h.consumed == s.h.consumed
    requires var space, pad := SpaceToEnd(s.ring.writeHead), PadLeft(s, p);
             if Fits(Wrapped(s.ring), |bytes|) then
               && s'.ring == Appended(Wrapped(s.ring), bytes, tick)
               && s'.h.slots == s.h.slots + [pad]
                  + [Slot(s.h.w + space, Stride(|bytes|), false, Committed, p, bytes, U32(s.ring.seqCounter + 1), tick)]
             else s'.ring == Dropped(Wrapped(s.ring)) && s'.h.slots == s.h.slots + [pad]
    ensures CallDone(s, p, bytes, tick, s')
  {
    hide Stride, FreeBytes, SpaceToEnd, Appended, Wrapped;
    assert CallDone(s, p, bytes, tick, s') by {
      assert s'.h.slots == s.h.slots + CallSlots(s, p, bytes, tick);
    }
  }
}
