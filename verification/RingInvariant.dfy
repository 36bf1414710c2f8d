/**
 What every step of the dispatcher keeps, and that it keeps it.
 */
module RingInvariant {
  import opened Bytes
  import opened RingLayout
  import opened RingProtocol

  // ---- the tiling of the ring -------------------------------------------------------

  function End(slot: Slot): nat {
    slot.start + slot.stride
  }

  /** A slot is aligned, has room for its header, and lies in one piece. */
  predicate SlotOk(slot: Slot) {
    && slot.start % 8 == 0 && slot.stride % 8 == 0 && slot.stride >= MIN_SKIP
    && slot.start % RING + slot.stride <= RING
    && (slot.pad ==> slot.start % RING + slot.stride == RING && slot.payload == [] && slot.phase != Filled)
    && (!slot.pad ==> 0 < |slot.payload| <= MAX_PAYLOAD && slot.stride == Stride(|slot.payload|))
  }

  /** The slots cover the bytes from `r` to `w` exactly, in order, and leave a gap. */
  predicate Tiling(slots: seq<Slot>, r: nat, w: nat) {
    && r <= w < r + RING && r % 8 == 0 && w % 8 == 0
    && (slots == [] ==> r == w)
    && (slots != [] ==> slots[0].start == r && End(slots[|slots| - 1]) == w)
    && (forall i :: 0 <= i < |slots| ==> SlotOk(slots[i]) && r <= slots[i].start && End(slots[i]) <= w)
    && Chain(slots)
  }

  /** Each slot starts where the one before it ends. */
  predicate Chain(slots: seq<Slot>) {
    forall i, j :: 0 <= i < j < |slots| ==>
      End(slots[i]) <= slots[j].start && (j == i + 1 ==> slots[j].start == End(slots[i]))
  }

  function HeaderOf(slot: Slot): Header
    requires SlotOk(slot)
  {
    if slot.pad then PadHeader(slot.stride)
    else Header(0, |slot.payload|, slot.seqNum, slot.stride, slot.tick)
  }

  function StateWord(phase: Phase): u32 {
    if phase.Committed? then COMMITTED else CLAIMED
  }

  /** The bytes of the ring say what the slot is. */
  predicate InMemory(mem: Memory, slot: Slot)
    requires SlotOk(slot)
  {
    var off := slot.start % RING;
    && (!slot.phase.Reserved? ==>
          ReadAt(mem, off, HEADER) == HeaderBytes(StateWord(slot.phase), HeaderOf(slot)))
    && (!slot.pad && (slot.phase.Filled? || slot.phase.Committed?) ==>
          HEADER + |slot.payload| <= slot.stride && ReadAt(mem, off + HEADER, |slot.payload|) == slot.payload)
  }

  predicate Stored(mem: Memory, slots: seq<Slot>) {
    forall i :: 0 <= i < |slots| ==> SlotOk(slots[i]) && InMemory(mem, slots[i])
  }

  // ---- producers and their slots -------------------------------------------------------

  /** Every producer that owns a slot finds it, and every uncommitted slot has its producer. */
  predicate Linked(producers: map<Pid, Producer>, slots: seq<Slot>, base: nat) {
    && (forall p :: p in producers && producers[p].pc.OwnsSlot() ==>
          Owned(p, producers[p], slots, base))
    && (forall i :: 0 <= i < |slots| && !slots[i].phase.Committed? ==>
          && slots[i].owner in producers
          && producers[slots[i].owner].pc.OwnsSlot()
          && producers[slots[i].owner].pc.n == base + i)
  }

  predicate Owned(p: Pid, pr: Producer, slots: seq<Slot>, base: nat)
    requires pr.pc.OwnsSlot()
  {
    var n := pr.pc.n;
    && base <= n < base + |slots|
    && slots[n - base].owner == p
    && slots[n - base].phase == pr.pc.SlotPhase()
    && slots[n - base].pad == pr.pc.OwnsPad()
    && pr.pc.at == U32(slots[n - base].start)
    && (!slots[n - base].pad ==> slots[n - base].payload == pr.payload)
  }

  /** What a call in progress may rely on.  A space check made against an old read head stays good
      as long as the write head has not moved. */
  predicate CallOk(pr: Producer, r: nat, w: nat, reservations: nat) {
    && pr.payload != []
    && (!pr.pc.ToSignal? ==> |pr.payload| <= MAX_PAYLOAD)
    && pr.began + pr.mine + pr.fails <= (if pr.pc.HasSnapshot() then pr.pc.t else reservations)
    && (pr.pc.HasSnapshot() ==>
          && pr.pc.cur == U32(pr.pc.g) && pr.pc.g <= w && pr.pc.t <= reservations
          && (pr.pc.t == reservations <==> pr.pc.g == w))
    && (pr.pc.WantClaim? ==>
          && pr.pc.g % RING + Stride(|pr.payload|) <= RING
          && (pr.pc.g == w ==> w + Stride(|pr.payload|) <= r + RING))
    && (pr.pc.WantPad? ==>
          && pr.pc.g % RING + Stride(|pr.payload|) > RING
          && (pr.pc.g == w ==> w + (RING - w % RING) < r + RING))
  }

  predicate CallsOk(producers: map<Pid, Producer>, r: nat, w: nat, reservations: nat) {
    forall p :: p in producers ==> CallOk(producers[p], r, w, reservations)
  }

  // ---- first in, first out ------------------------------------------------------------

  /** Payloads of the slots still in the ring, in ring order; pads do not show. */
  function Outstanding(slots: seq<Slot>): seq<seq<byte>> {
    if slots == [] then []
    else (if slots[0].pad then [] else [slots[0].payload]) + Outstanding(slots[1..])
  }

  function AllPayloads(retired: seq<Retired>): seq<seq<byte>> {
    if retired == [] then [] else [retired[0].payload] + AllPayloads(retired[1..])
  }

  /** The retired payloads without the poisoned ones. */
  function Survivors(retired: seq<Retired>): seq<seq<byte>> {
    if retired == [] then []
    else (if retired[0].poisoned then [] else [retired[0].payload]) + Survivors(retired[1..])
  }

  predicate Fifo(h: Hist) {
    && h.claimed == AllPayloads(h.retired) + Outstanding(h.slots)
    && h.consumed == Survivors(h.retired)
  }

  // ---- wake-ups ------------------------------------------------------------------------

  /** While the worker is parked, or about to park, a committed head slot comes with the event set
      or with its own producer still on the way to setting it. */
  predicate Awake(worker: Worker, dataReady: bool, producers: map<Pid, Producer>, slots: seq<Slot>) {
    (worker == Parked(false) || worker.Timing?) && slots != [] && slots[0].phase.Committed? ==>
      dataReady || (slots[0].owner in producers && producers[slots[0].owner].OwesSignal())
  }

  // ---- conservation -----------------------------------------------------------------

  predicate Uncounted(pr: Producer) { !pr.pc.ToSignal? }
  predicate CommittedUncounted(pr: Producer) { pr.pc.ToCount? }

  function Members(m: map<Pid, Producer>, f: Producer -> bool): set<Pid> {
    set p | p in m && f(m[p])
  }

  function HowMany(m: map<Pid, Producer>, f: Producer -> bool): nat {
    |Members(m, f)|
  }

  function CommittedData(slots: seq<Slot>): nat {
    if slots == [] then 0
    else (if !slots[0].pad && slots[0].phase.Committed? then 1 else 0) + CommittedData(slots[1..])
  }

  function CountFate(fates: seq<Fate>, f: Fate -> bool): nat {
    if fates == [] then 0 else (if f(fates[0]) then 1 else 0) + CountFate(fates[1..], f)
  }

  predicate CountedAtDrain(f: Fate) { f.how.NoPort? || f.how.SendTimedOut? }
  predicate IsTimedOut(f: Fate) { f.how.SendTimedOut? }

  predicate Counted(s: State) {
    && s.h.attempts == s.ring.enqueued + s.h.refused + s.ring.poisoned + HowMany(s.producers, Uncounted)
    && s.ring.enqueued + HowMany(s.producers, CommittedUncounted) == |s.h.consumed| + CommittedData(s.h.slots)
    && |s.h.retired| == |s.h.consumed| + s.ring.poisoned
    && |s.h.consumed| == |s.h.fates| + (if s.worker.Holding? || s.worker.Sending? then 1 else 0)
    && s.ring.dropped == s.h.refused + CountFate(s.h.fates, CountedAtDrain)
  }

  // ---- the invariant -------------------------------------------------------------------

  predicate HeadsOk(ring: Ring, h: Hist) {
    ring.writeHead == U32(h.w) && ring.readHead == U32(h.r)
  }

  predicate WorkerOk(worker: Worker, slots: seq<Slot>, consumed: seq<seq<byte>>) {
    && (worker.Peeking? || worker.Timing? ==> slots != [])
    && (worker.Timing? ==> !slots[0].phase.Reserved?)
    && (worker.Holding? || worker.Sending? ==>
          worker.bytes != [] && consumed != [] && consumed[|consumed| - 1] == worker.bytes)
  }

  /** The ring's bytes and heads are those of the slots. */
  predicate RingInv(ring: Ring, h: Hist) {
    HeadsOk(ring, h) && Tiling(h.slots, h.r, h.w) && Stored(ring.mem, h.slots)
  }

  predicate CallInv(producers: map<Pid, Producer>, h: Hist) {
    Linked(producers, h.slots, h.base) && CallsOk(producers, h.r, h.w, h.Reservations())
  }

  predicate BookInv(s: State) {
    && Fifo(s.h)
    && Awake(s.worker, s.ring.dataReady, s.producers, s.h.slots)
    && Counted(s)
    && WorkerOk(s.worker, s.h.slots, s.h.consumed)
  }

  /** The branches for timed-out sends have never run. */
  predicate NoTimeoutSeen(sendTimeouts: int, fates: seq<Fate>) {
    sendTimeouts == 0 && CountFate(fates, IsTimedOut) == 0
  }

  predicate Inv(s: State) {
    && RingInv(s.ring, s.h) && CallInv(s.producers, s.h) && BookInv(s)
    && NoTimeoutSeen(s.sendTimeouts, s.h.fates)
  }

  lemma InitInv(ticksPerMs: u64)
    ensures Inv(Init(ticksPerMs))
  {
    var s := Init(ticksPerMs);
    assert Members(s.producers, Uncounted) == {} && Members(s.producers, CommittedUncounted) == {};
    assert s.h.slots == [] && s.h.retired == [] && s.h.fates == [];
    assert Counted(s);
    assert Fifo(s.h);
  }

  // ---- sequence lemmas -----------------------------------------------------------------

  lemma OutstandingAppend(slots: seq<Slot>, slot: Slot)
    ensures Outstanding(slots + [slot]) == Outstanding(slots) + (if slot.pad then [] else [slot.payload])
    ensures CommittedData(slots + [slot]) ==
            CommittedData(slots) + (if !slot.pad && slot.phase.Committed? then 1 else 0)
  {
    if slots == [] {
      assert slots + [slot] == [slot];
    } else {
      assert (slots + [slot])[1..] == slots[1..] + [slot];
      OutstandingAppend(slots[1..], slot);
    }
  }

  lemma SurvivorsAppend(retired: seq<Retired>, e: Retired)
    ensures AllPayloads(retired + [e]) == AllPayloads(retired) + [e.payload]
    ensures Survivors(retired + [e]) == Survivors(retired) + (if e.poisoned then [] else [e.payload])
  {
    if retired == [] {
      assert retired + [e] == [e];
    } else {
      assert (retired + [e])[1..] == retired[1..] + [e];
      SurvivorsAppend(retired[1..], e);
    }
  }

  /** Changing a slot's phase does not change what is outstanding. */
  lemma OutstandingUpdate(slots: seq<Slot>, i: nat, slot: Slot)
    requires i < |slots| && slot.pad == slots[i].pad && slot.payload == slots[i].payload
    ensures Outstanding(slots[i := slot]) == Outstanding(slots)
    ensures CommittedData(slots[i := slot]) ==
            CommittedData(slots)
            + (if !slot.pad && slot.phase.Committed? then 1 else 0)
            - (if !slot.pad && slots[i].phase.Committed? then 1 else 0)
  {
    if i == 0 {
      assert slots[i := slot][1..] == slots[1..];
    } else {
      assert slots[i := slot][1..] == slots[1..][i - 1 := slot];
      OutstandingUpdate(slots[1..], i - 1, slot);
    }
  }

  lemma CountFateAppend(fates: seq<Fate>, e: Fate, f: Fate -> bool)
    ensures CountFate(fates + [e], f) == CountFate(fates, f) + (if f(e) then 1 else 0)
  {
    if fates == [] {
      assert fates + [e] == [e];
    } else {
      assert (fates + [e])[1..] == fates[1..] + [e];
      CountFateAppend(fates[1..], e, f);
    }
  }

  lemma CountUpdate(m: map<Pid, Producer>, p: Pid, pr: Producer, f: Producer -> bool)
    ensures HowMany(m[p := pr], f) ==
            HowMany(m, f) + (if f(pr) then 1 else 0) - (if p in m && f(m[p]) then 1 else 0)
  {
    MembersUpdate(m, p, pr, f);
    MembersSplit(m, p, f);
  }

  lemma MembersUpdate(m: map<Pid, Producer>, p: Pid, pr: Producer, f: Producer -> bool)
    ensures Members(m[p := pr], f) == (Members(m, f) - {p}) + (if f(pr) then {p} else {})
  {
  }

  lemma MembersSplit(m: map<Pid, Producer>, p: Pid, f: Producer -> bool)
    ensures Members(m, f) == (Members(m, f) - {p}) + (if p in m && f(m[p]) then {p} else {})
  {
  }

  lemma CountRemove(m: map<Pid, Producer>, p: Pid, f: Producer -> bool)
    ensures HowMany(m - {p}, f) == HowMany(m, f) - (if p in m && f(m[p]) then 1 else 0)
  {
    assert Members(m - {p}, f) == Members(m, f) - {p};
    MembersSplit(m, p, f);
  }

  // ---- tiling and memory lemmas -------------------------------------------------------

  /** No two slots share a byte of the ring. */
  lemma SlotsDisjoint(slots: seq<Slot>, r: nat, w: nat, i: nat, j: nat)
    requires Tiling(slots, r, w) && i < |slots| && j < |slots| && i != j
    ensures || slots[i].start % RING + slots[i].stride <= slots[j].start % RING
            || slots[j].start % RING + slots[j].stride <= slots[i].start % RING
  {
    if i < j {
      PhysicallyDisjoint(slots[i].start, slots[i].stride, slots[j].start, slots[j].stride);
    } else {
      PhysicallyDisjoint(slots[j].start, slots[j].stride, slots[i].start, slots[i].stride);
    }
  }

  lemma PayloadFits(slot: Slot)
    requires SlotOk(slot)
    ensures HEADER + |slot.payload| <= slot.stride
  {
    if !slot.pad {
      StrideBounds(|slot.payload|);
    }
  }

  /** A write inside one slot does not reach the bytes of another. */
  lemma OtherSlotKept(mem: Memory, mem': Memory, slot: Slot, off: nat, bs: seq<byte>)
    requires SlotOk(slot) && InMemory(mem, slot)
    requires off + |bs| <= RING && mem' == WriteAt(mem, off, bs)
    requires slot.start % RING + slot.stride <= off || off + |bs| <= slot.start % RING
    ensures InMemory(mem', slot)
  {
    PayloadFits(slot);
    ReadElsewhere(mem, off, bs, slot.start % RING, HEADER);
    ReadElsewhere(mem, off, bs, slot.start % RING + HEADER, |slot.payload|);
  }

  /** Writing into slot `i` and describing the result by `slot` keeps every slot stored. */
  lemma StoredUpdate(mem: Memory, mem': Memory, slots: seq<Slot>, r: nat, w: nat,
                     i: nat, slot: Slot, off: nat, bs: seq<byte>)
    requires Tiling(slots, r, w) && Stored(mem, slots) && i < |slots|
    requires slot.start == slots[i].start && slot.stride == slots[i].stride && SlotOk(slot)
    requires slot.start % RING <= off && off + |bs| <= slot.start % RING + slot.stride
    requires mem' == WriteAt(mem, off, bs) && InMemory(mem', slot)
    ensures Stored(mem', slots[i := slot])
  {
    forall k | 0 <= k < |slots| && k != i
      ensures InMemory(mem', slots[k])
    {
      SlotsDisjoint(slots, r, w, i, k);
      OtherSlotKept(mem, mem', slots[k], off, bs);
    }
  }

  /** Writing into the head slot and leaving it keeps the others stored. */
  lemma StoredPop(mem: Memory, mem': Memory, slots: seq<Slot>, r: nat, w: nat, off: nat, bs: seq<byte>)
    requires Tiling(slots, r, w) && Stored(mem, slots) && slots != []
    requires r % RING <= off && off + |bs| <= r % RING + slots[0].stride
    requires mem' == WriteAt(mem, off, bs)
    ensures Stored(mem', slots[1..])
  {
    forall k | 0 <= k < |slots[1..]|
      ensures InMemory(mem', slots[1..][k])
    {
      SlotsDisjoint(slots, r, w, 0, k + 1);
      OtherSlotKept(mem, mem', slots[k + 1], off, bs);
    }
  }

  lemma TilingAppend(slots: seq<Slot>, r: nat, w: nat, slot: Slot)
    requires Tiling(slots, r, w) && SlotOk(slot) && slot.start == w && End(slot) < r + RING
    ensures Tiling(slots + [slot], r, End(slot))
  {
    var all := slots + [slot];
    AlignedSum(slot.start, slot.stride);
    forall i | 0 <= i < |all|
      ensures SlotOk(all[i]) && r <= all[i].start && End(all[i]) <= End(slot)
    {
      assert all[i] == if i < |slots| then slots[i] else slot;
    }
    assert Chain(all) by {
      forall i, j | 0 <= i < j < |all|
        ensures End(all[i]) <= all[j].start && (j == i + 1 ==> all[j].start == End(all[i]))
      {
        assert all[i] == slots[i];
        assert all[j] == if j < |slots| then slots[j] else slot;
      }
    }
  }

  lemma TilingUpdate(slots: seq<Slot>, r: nat, w: nat, i: nat, slot: Slot)
    requires Tiling(slots, r, w) && i < |slots| && SlotOk(slot)
    requires slot.start == slots[i].start && slot.stride == slots[i].stride
    ensures Tiling(slots[i := slot], r, w)
  {
    var all := slots[i := slot];
    assert all[0].start == slots[0].start && End(all[|all| - 1]) == End(slots[|all| - 1]);
    assert Chain(all) by {
      forall a, b | 0 <= a < b < |all|
        ensures End(all[a]) <= all[b].start && (b == a + 1 ==> all[b].start == End(all[a]))
      {
        assert End(all[a]) == End(slots[a]) && all[b].start == slots[b].start;
      }
    }
  }

  lemma TilingPop(slots: seq<Slot>, r: nat, w: nat)
    requires Tiling(slots, r, w) && slots != []
    ensures Tiling(slots[1..], r + slots[0].stride, w)
  {
    var rest := slots[1..];
    AlignedSum(r, slots[0].stride);
    if rest != [] {
      assert rest[0] == slots[1] && slots[1].start == End(slots[0]);
      assert rest[|rest| - 1] == slots[|slots| - 1];
    }
    forall i | 0 <= i < |rest|
      ensures SlotOk(rest[i]) && r + slots[0].stride <= rest[i].start && End(rest[i]) <= w
    {
      assert rest[i] == slots[i + 1];
    }
  }
}
