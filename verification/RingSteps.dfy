/**
 Every step of the dispatcher, taken under the conditions of a run, keeps the invariant.
 */
module RingSteps {
  import opened Bytes
  import opened RingLayout
  import opened RingProtocol
  import opened RingInvariant

  // ---- links between producers and slots -------------------------------------------------

  /** A producer that owns no slot before or after changes no link. */
  lemma LinkedIdle(producers: map<Pid, Producer>, slots: seq<Slot>, base: nat, p: Pid, pr: Producer)
    requires Linked(producers, slots, base)
    requires p in producers ==> !producers[p].pc.OwnsSlot()
    requires !pr.pc.OwnsSlot()
    ensures Linked(producers[p := pr], slots, base)
    ensures Linked(producers - {p}, slots, base)
  {
  }

  lemma LinkedSame(producers: map<Pid, Producer>, slots: seq<Slot>, base: nat, p: Pid, pr: Producer)
    requires Linked(producers, slots, base)
    requires p in producers && pr.pc == producers[p].pc && pr.payload == producers[p].payload
    ensures Linked(producers[p := pr], slots, base)
  {
  }

  lemma LinkedAppend(producers: map<Pid, Producer>, slots: seq<Slot>, base: nat, p: Pid, pr: Producer, slot: Slot)
    requires Linked(producers, slots, base)
    requires p in producers && !producers[p].pc.OwnsSlot()
    requires slot.owner == p && pr.pc.OwnsSlot() && pr.pc.n == base + |slots|
    requires slot.phase == pr.pc.SlotPhase() && slot.pad == pr.pc.OwnsPad()
    requires pr.pc.at == U32(slot.start) && (!slot.pad ==> slot.payload == pr.payload)
    ensures Linked(producers[p := pr], slots + [slot], base)
  {
  }

  /** An owner moves its slot to its next phase. */
  lemma LinkedPhase(producers: map<Pid, Producer>, slots: seq<Slot>, base: nat, p: Pid, pr: Producer, slot: Slot)
    requires Linked(producers, slots, base)
    requires p in producers && producers[p].pc.OwnsSlot()
    requires pr.pc.OwnsSlot() && pr.pc.n == producers[p].pc.n && pr.pc.at == producers[p].pc.at
    requires pr.payload == producers[p].payload && pr.pc.OwnsPad() == producers[p].pc.OwnsPad()
    requires var i := pr.pc.n - base; 0 <= i < |slots| && slot == slots[i].(phase := pr.pc.SlotPhase(), seqNum := slot.seqNum, tick := slot.tick)
    ensures Linked(producers[p := pr], slots[pr.pc.n - base := slot], base)
  {
    var i := pr.pc.n - base;
    assert Owned(p, producers[p], slots, base);
    forall q | q in producers && q != p && producers[q].pc.OwnsSlot()
      ensures Owned(q, producers[q], slots[i := slot], base)
    {
      assert Owned(q, producers[q], slots, base);
    }
  }

  /** An owner commits its slot and lets go of it. */
  lemma LinkedCommit(producers: map<Pid, Producer>, slots: seq<Slot>, base: nat, p: Pid, pr: Producer)
    requires Linked(producers, slots, base)
    requires p in producers && producers[p].pc.OwnsSlot() && !pr.pc.OwnsSlot()
    requires base <= producers[p].pc.n < base + |slots|
    ensures var i := producers[p].pc.n - base;
            Linked(producers[p := pr], slots[i := slots[i].(phase := Committed)], base)
  {
    var i := producers[p].pc.n - base;
    var slots' := slots[i := slots[i].(phase := Committed)];
    assert Owned(p, producers[p], slots, base);
    forall q | q in producers && q != p && producers[q].pc.OwnsSlot()
      ensures Owned(q, producers[q], slots', base)
    {
      assert Owned(q, producers[q], slots, base);
    }
  }

  lemma LinkedPop(producers: map<Pid, Producer>, slots: seq<Slot>, base: nat)
    requires Linked(producers, slots, base) && slots != [] && slots[0].phase.Committed?
    ensures Linked(producers, slots[1..], base + 1)
  {
    forall q | q in producers && producers[q].pc.OwnsSlot()
      ensures Owned(q, producers[q], slots[1..], base + 1)
    {
      assert Owned(q, producers[q], slots, base);
    }
  }

  lemma LinkedPoison(producers: map<Pid, Producer>, slots: seq<Slot>, base: nat)
    requires Linked(producers, slots, base) && slots != []
    requires slots[0].phase.Committed? ==>
               slots[0].owner in producers && !producers[slots[0].owner].pc.OwnsSlot()
    ensures Linked(producers - {slots[0].owner}, slots[1..], base + 1)
  {
    var gone := slots[0].owner;
    forall q | q in producers && q != gone && producers[q].pc.OwnsSlot()
      ensures Owned(q, producers[q], slots[1..], base + 1)
    {
      assert Owned(q, producers[q], slots, base);
    }
    forall i | 0 <= i < |slots[1..]| && !slots[1..][i].phase.Committed?
      ensures slots[1..][i].owner in producers - {gone}
      ensures producers[slots[1..][i].owner].pc.OwnsSlot() && producers[slots[1..][i].owner].pc.n == base + 1 + i
    {
      assert slots[1..][i] == slots[i + 1];
    }
  }

  // ---- calls in progress -----------------------------------------------------------------

  /** The worker freeing space only helps: an old read head over-estimates occupancy. */
  lemma CallsAfterRelease(producers: map<Pid, Producer>, r: nat, r': nat, w: nat, n: nat)
    requires CallsOk(producers, r, w, n) && r <= r'
    ensures CallsOk(producers, r', w, n)
  {
  }

  /** A head moved by one producer outdates every snapshot the others hold. */
  lemma CallsAfterAdvance(producers: map<Pid, Producer>, r: nat, w: nat, w': nat, n: nat)
    requires CallsOk(producers, r, w, n) && w < w'
    ensures CallsOk(producers, r, w', n + 1)
  {
  }

  lemma CallsUpdate(producers: map<Pid, Producer>, r: nat, w: nat, n: nat, p: Pid, pr: Producer)
    requires CallsOk(producers, r, w, n) && CallOk(pr, r, w, n)
    ensures CallsOk(producers[p := pr], r, w, n)
    ensures CallsOk(producers - {p}, r, w, n)
  {
  }

  // ---- producer steps ----------------------------------------------------------------------

  lemma HeadFacts(s: State)
    requires Inv(s)
    ensures s.h.r <= s.h.w < s.h.r + RING && s.h.w % 8 == 0 && s.h.r % 8 == 0
    ensures s.ring.writeHead == U32(s.h.w) && s.ring.readHead == U32(s.h.r)
    ensures Masked(s.ring.readHead) == s.h.r % RING
  {
    ModOfMod(s.h.r);
  }

  lemma CallFact(s: State, p: Pid)
    requires Inv(s) && p in s.producers
    ensures CallOk(s.producers[p], s.h.r, s.h.w, s.h.Reservations())
  {
  }

  function One(b: bool): nat { if b then 1 else 0 }

  lemma QuietCalls(producers: map<Pid, Producer>, h: Hist, p: Pid, pr: Producer)
    requires CallInv(producers, h) && !pr.pc.OwnsSlot() && CallOk(pr, h.r, h.w, h.Reservations())
    requires p in producers ==> !producers[p].pc.OwnsSlot()
    ensures CallInv(producers[p := pr], h)
  {
    LinkedIdle(producers, h.slots, h.base, p, pr);
    CallsUpdate(producers, h.r, h.w, h.Reservations(), p, pr);
  }

  /** A step that moves one call along, without a slot, and counts what it decides. */
  lemma QuietBooks(s: State, p: Pid, pr: Producer, s': State)
    requires BookInv(s)
    requires p in s.producers && s.producers[p].OwesSignal() ==> pr.OwesSignal()
    requires s'.producers == s.producers[p := pr] && s'.worker == s.worker
    requires s'.ring.poisoned == s.ring.poisoned && s'.ring.dataReady == s.ring.dataReady
    requires s'.h == s.h.(attempts := s'.h.attempts, refused := s'.h.refused, log := s'.h.log)
    requires s'.ring.dropped - s.ring.dropped == s'.h.refused - s.h.refused
    requires s'.h.attempts - s.h.attempts ==
             s'.ring.enqueued - s.ring.enqueued + s'.h.refused - s.h.refused
             + One(Uncounted(pr)) - One(p in s.producers && Uncounted(s.producers[p]))
    requires s'.ring.enqueued - s.ring.enqueued ==
             One(p in s.producers && CommittedUncounted(s.producers[p])) - One(CommittedUncounted(pr))
    ensures BookInv(s')
  {
    CountUpdate(s.producers, p, pr, Uncounted);
    CountUpdate(s.producers, p, pr, CommittedUncounted);
  }

  lemma FailEarlyKeeps(s: State)
    requires Inv(s)
    ensures Inv(DoFailEarly(s))
  {
  }

  lemma StartKeeps(s: State, p: Pid, payload: seq<byte>)
    requires Inv(s) && p !in s.producers && NonEmpty(payload)
    ensures Inv(DoStart(s, p, payload))
  {
    hide Tiling, Stored, Linked, CallsOk, Fifo, Counted;
    var pc := if |payload| > MAX_PAYLOAD then ToSignal else AtLoop;
    var pr := Producer(payload, pc, false, false, s.h.Reservations(), 0, 0, |s.h.log.calls|);
    QuietCalls(s.producers, s.h, p, pr);
    QuietBooks(s, p, pr, DoStart(s, p, payload));
  }

  lemma ReadWriteHeadKeeps(s: State, p: Pid)
    requires Inv(s) && Live(s, p) && s.producers[p].pc.AtLoop?
    ensures Inv(DoRead(s, p))
  {
    var s' := DoRead(s, p);
    QuietCalls(s.producers, s.h, p, s'.producers[p]);
    QuietBooks(s, p, s'.producers[p], s');
  }

  /** The check's verdict holds of the unbounded heads for as long as the write head stands. */
  lemma CheckedCall(pr: Producer, r: nat, w: nat, n: nat)
    requires r <= w < r + RING && CallOk(pr, r, w, n) && pr.pc.HaveCur?
    ensures CallOk(pr.(pc := AfterCheck(pr, U32(r))), r, w, n)
  {
    ModOfMod(pr.pc.g);
    if pr.pc.g == w {
      WrappedHeadsAreExact(w, r);
    }
  }

  lemma CheckSpaceKeeps(s: State, p: Pid)
    requires Inv(s) && Live(s, p) && s.producers[p].pc.HaveCur? && |s.producers[p].payload| <= MAX_PAYLOAD
    ensures Inv(DoCheckSpace(s, p))
  {
    hide Tiling, Stored, CallInv, BookInv, CallOk, Stride, NoTimeoutSeen;
    HeadFacts(s);
    CallFact(s, p);
    CheckedCall(s.producers[p], s.h.r, s.h.w, s.h.Reservations());
    CheckBooks(s, p);
    var pr := s.producers[p].(pc := AfterCheck(s.producers[p], s.ring.readHead));
    assert !pr.pc.OwnsSlot();
    hide AfterCheck;
    QuietCalls(s.producers, s.h, p, pr);
    CallsForHeads(s.producers[p := pr], s.h, DoCheckSpace(s, p).h);
  }

  lemma CheckBooks(s: State, p: Pid)
    requires BookInv(s) && Live(s, p) && s.producers[p].pc.HaveCur? && |s.producers[p].payload| <= MAX_PAYLOAD
    ensures BookInv(DoCheckSpace(s, p))
  {
    hide BookInv, Stride;
    var s', pc := DoCheckSpace(s, p), AfterCheck(s.producers[p], s.ring.readHead);
    assert pc.ToSignal? || pc.WantPad? || pc.WantClaim?;
    hide AfterCheck;
    QuietBooks(s, p, s.producers[p].(pc := pc), s');
  }

  lemma CallsForHeads(producers: map<Pid, Producer>, h: Hist, h': Hist)
    requires CallInv(producers, h) && h'.r == h.r && h'.w == h.w && h'.slots == h.slots && h'.base == h.base
    ensures CallInv(producers, h')
  {
    hide Linked, CallsOk;
  }

  lemma CountKeeps(s: State, p: Pid)
    requires Inv(s) && Live(s, p) && s.producers[p].pc.ToCount?
    ensures Inv(DoCount(s, p))
  {
    var s' := DoCount(s, p);
    assert CallOk(s.producers[p], s.h.r, s.h.w, s.h.Reservations());
    QuietCalls(s.producers, s.h, p, s'.producers[p]);
    QuietBooks(s, p, s'.producers[p], s');
  }

  predicate CanCas(s: State, p: Pid) {
    && Live(s, p) && (s.producers[p].pc.WantPad? || s.producers[p].pc.WantClaim?)
    && |s.producers[p].payload| <= MAX_PAYLOAD
  }

  /** A compare-and-swap that succeeds found the head it had read. */
  lemma SnapshotCurrent(s: State, p: Pid)
    requires Inv(s) && CanCas(s, p) && FreshSnapshot(s, p)
    ensures s.ring.writeHead == s.producers[p].pc.cur <==> s.h.w == s.producers[p].pc.g
  {
    assert CallOk(s.producers[p], s.h.r, s.h.w, s.h.Reservations());
    SameResidue(s.h.w, s.producers[p].pc.g);
  }

  lemma SameResidue(w: nat, g: nat)
    requires g <= w < g + TWO32
    ensures U32(w) == U32(g) <==> w == g
  {
    if U32(w) == U32(g) {
      assert w - g == TWO32 * (w / TWO32 - g / TWO32);
    }
  }

  lemma CasFailChanges(s: State, p: Pid)
    requires CanCas(s, p) && s.ring.writeHead != s.producers[p].pc.cur
    ensures var pr := s.producers[p];
            DoCas(s, p) == s.(producers := s.producers[p := pr.(pc := AtLoop, fails := pr.fails + 1)])
  {
    hide Stride, SpaceToEnd, U32;
  }

  /** A failed compare-and-swap is paid for by a slot another producer reserved since. */
  lemma CasFailKeeps(s: State, p: Pid)
    requires Inv(s) && CanCas(s, p) && s.ring.writeHead != s.producers[p].pc.cur
    ensures Inv(DoCas(s, p))
    ensures var pr := s.producers[p];
            DoCas(s, p) == s.(producers := s.producers[p := pr.(pc := AtLoop, fails := pr.fails + 1)])
  {
    CallFact(s, p);
    CasFailChanges(s, p);
    var s', pr := DoCas(s, p), s.producers[p].(pc := AtLoop, fails := s.producers[p].fails + 1);
    hide RingInv, CallInv, BookInv, DoCas, Stride;
    QuietCalls(s.producers, s.h, p, pr);
    QuietBooks(s, p, pr, s');
  }

  /** Reserving a slot at the write head keeps the tiling and the stored slots. */
  lemma ReserveRing(ring: Ring, h: Hist, slot: Slot, ring': Ring, h': Hist)
    requires RingInv(ring, h)
    requires SlotOk(slot) && slot.start == h.w && End(slot) < h.r + RING && slot.phase.Reserved?
    requires ring'.mem == ring.mem && ring'.readHead == ring.readHead && ring'.writeHead == U32(End(slot))
    requires h'.r == h.r && h'.w == End(slot) && h'.slots == h.slots + [slot]
    ensures RingInv(ring', h')
  {
    TilingAppend(h.slots, h.r, h.w, slot);
  }

  predicate NewOwner(before: Producer, pr: Producer, p: Pid, slot: Slot, n: nat) {
    && before.pc.HasSnapshot() && pr == before.(pc := pr.pc, mine := before.mine + 1)
    && pr.pc.OwnsSlot() && pr.pc.n == n && pr.pc.SlotPhase() == Reserved
    && slot.phase.Reserved? && slot.owner == p && slot.pad == pr.pc.OwnsPad()
    && pr.pc.at == U32(slot.start) && (!slot.pad ==> slot.payload == pr.payload)
  }

  lemma ReserveCalls(producers: map<Pid, Producer>, h: Hist, p: Pid, pr: Producer, slot: Slot, h': Hist)
    requires CallInv(producers, h) && p in producers
    requires NewOwner(producers[p], pr, p, slot, h.Reservations()) && slot.stride > 0
    requires h'.r == h.r && h'.w == h.w + slot.stride && h'.slots == h.slots + [slot] && h'.base == h.base
    ensures CallInv(producers[p := pr], h')
  {
    assert CallOk(producers[p], h.r, h.w, h.Reservations());
    LinkedAppend(producers, h.slots, h.base, p, pr, slot);
    CallsAfterAdvance(producers, h.r, h.w, h'.w, h.Reservations());
    CallsUpdate(producers, h.r, h'.w, h.Reservations() + 1, p, pr);
  }

  lemma ReserveBooks(s: State, p: Pid, pr: Producer, slot: Slot, s': State)
    requires BookInv(s) && p in s.producers
    requires NewOwner(s.producers[p], pr, p, slot, s.h.Reservations())
    requires s'.producers == s.producers[p := pr] && s'.worker == s.worker
    requires s'.ring == s.ring.(writeHead := s'.ring.writeHead)
    requires s'.h == s.h.(w := s'.h.w, slots := s.h.slots + [slot],
                          claimed := s.h.claimed + (if slot.pad then [] else [slot.payload]), log := s'.h.log)
    ensures BookInv(s')
  {
    OutstandingAppend(s.h.slots, slot);
    CountUpdate(s.producers, p, pr, Uncounted);
    CountUpdate(s.producers, p, pr, CommittedUncounted);
    hide Members, Outstanding, CommittedData;
    assert Fifo(s'.h);
    assert s.h.slots != [] ==> s'.h.slots[0] == s.h.slots[0];
  }

  /** What a swap that succeeds needs: a claim leaves a gap before the read head; so does a wrap, and
      its tail holds a header. */
  predicate SwapFits(s: State, p: Pid)
    requires CanCas(s, p)
  {
    var pr := s.producers[p];
    if pr.pc.WantClaim? then s.h.w + Stride(|pr.payload|) < s.h.r + RING
    else SpaceToEnd(pr.pc.cur) >= HEADER && s.h.w + SpaceToEnd(pr.pc.cur) < s.h.r + RING
  }

  /** With a snapshot that is not 2^32 bytes old, the space check leaves only two ways to fail. */
  lemma FreshSwapFits(s: State, p: Pid)
    requires Inv(s) && CanCas(s, p) && FreshSnapshot(s, p) && s.ring.writeHead == s.producers[p].pc.cur
    ensures SwapFits(s, p) <==> ClaimLeavesGap(s, p) && WrapLeavesHeader(s, p)
  {
    hide Tiling, Stored, Linked, CallsOk, BookInv;
    SnapshotCurrent(s, p);
    HeadFacts(s);
    CallFact(s, p);
    ModOfMod(s.h.w);
  }

  /** The offset the space check used is the offset of the head that the swap finds. */
  lemma SameOffset(s: State, p: Pid)
    requires Inv(s) && CanCas(s, p) && s.ring.writeHead == s.producers[p].pc.cur
    ensures s.producers[p].pc.g % RING == s.h.w % RING == Masked(s.ring.writeHead)
  {
    hide Tiling, Stored, Linked, CallsOk, BookInv;
    HeadFacts(s);
    CallFact(s, p);
    ModOfMod(s.h.w);
    ModOfMod(s.producers[p].pc.g);
  }

  lemma CasClaimKeeps(s: State, p: Pid)
    requires Inv(s) && CanCas(s, p) && SwapFits(s, p)
    requires s.producers[p].pc.WantClaim? && s.ring.writeHead == s.producers[p].pc.cur
    ensures Inv(DoCas(s, p))
  {
    hide Tiling, Stored, Linked, CallsOk, Fifo, Counted, Awake;
    var s' := DoCas(s, p);
    var pr := s.producers[p];
    SameOffset(s, p);
    HeadFacts(s);
    CallFact(s, p);
    StrideBounds(|pr.payload|);
    var slot := Slot(s.h.w, Stride(|pr.payload|), false, Reserved, p, pr.payload, 0, 0);
    AdvanceWrapped(s.h.w, slot.stride);
    ReserveRing(s.ring, s.h, slot, s'.ring, s'.h);
    ReserveCalls(s.producers, s.h, p, s'.producers[p], slot, s'.h);
    ReserveBooks(s, p, s'.producers[p], slot, s');
  }

  /** The tail behind an aligned head makes a well-formed pad as soon as it can hold a header. */
  lemma PadSlotOk(w: nat, p: Pid)
    requires w % 8 == 0 && RING - w % RING >= HEADER
    ensures SlotOk(Slot(w, RING - w % RING, true, Reserved, p, [], 0, 0))
  {
    TailAligned(w);
  }

  lemma CasPadKeeps(s: State, p: Pid)
    requires Inv(s) && CanCas(s, p) && SwapFits(s, p)
    requires s.producers[p].pc.WantPad? && s.ring.writeHead == s.producers[p].pc.cur
    ensures Inv(DoCas(s, p))
  {
    hide Tiling, Stored, Linked, CallsOk, Fifo, Counted, Awake;
    var s' := DoCas(s, p);
    SameOffset(s, p);
    HeadFacts(s);
    CallFact(s, p);
    PadSlotOk(s.h.w, p);
    var slot := Slot(s.h.w, RING - s.h.w % RING, true, Reserved, p, [], 0, 0);
    AdvanceWrapped(s.h.w, slot.stride);
    ReserveRing(s.ring, s.h, slot, s'.ring, s'.h);
    ReserveCalls(s.producers, s.h, p, s'.producers[p], slot, s'.h);
    assert s'.h.claimed == s.h.claimed + [];
    ReserveBooks(s, p, s'.producers[p], slot, s');
  }

  /** The tail of the ring behind an aligned head is a multiple of 8. */
  lemma TailAligned(w: nat)
    requires w % 8 == 0
    ensures (RING - w % RING) % 8 == 0
  {
    assert w == RING * (w / RING) + w % RING;
    assert (w % RING) % 8 == 0;
  }

  // ---- owners at work ------------------------------------------------------------------------

  /** A producer and the slot it owns. */
  predicate OwnsAt(s: State, p: Pid, i: nat) {
    && Live(s, p) && s.producers[p].pc.OwnsSlot() && i < |s.h.slots|
    && s.producers[p].pc.n == s.h.base + i
    && Owned(p, s.producers[p], s.h.slots, s.h.base)
    && SlotOk(s.h.slots[i])
    && Masked(s.producers[p].pc.at) == s.h.slots[i].start % RING
    && HEADER + |s.h.slots[i].payload| <= s.h.slots[i].stride
  }

  lemma OwnerFacts(s: State, p: Pid) returns (i: nat)
    requires Inv(s) && Live(s, p) && s.producers[p].pc.OwnsSlot()
    ensures OwnsAt(s, p, i)
  {
    hide BookInv, Stored, CallsOk;
    assert Owned(p, s.producers[p], s.h.slots, s.h.base);
    i := s.producers[p].pc.n - s.h.base;
    assert SlotOk(s.h.slots[i]);
    hide CallInv, RingInv;
    ModOfMod(s.h.slots[i].start);
    PayloadFits(s.h.slots[i]);
  }

  /** A write into slot `i` that leaves the slot as `slot` describes. */
  lemma MoveRing(ring: Ring, h: Hist, i: nat, slot: Slot, off: nat, bs: seq<byte>, ring': Ring, h': Hist)
    requires RingInv(ring, h) && i < |h.slots|
    requires slot.start == h.slots[i].start && slot.stride == h.slots[i].stride && SlotOk(slot)
    requires slot.start % RING <= off && off + |bs| <= slot.start % RING + slot.stride
    requires ring'.mem == WriteAt(ring.mem, off, bs) && InMemory(ring'.mem, slot)
    requires ring'.writeHead == ring.writeHead && ring'.readHead == ring.readHead
    requires h'.r == h.r && h'.w == h.w && h'.slots == h.slots[i := slot]
    ensures RingInv(ring', h')
  {
    TilingUpdate(h.slots, h.r, h.w, i, slot);
    StoredUpdate(ring.mem, ring'.mem, h.slots, h.r, h.w, i, slot, off, bs);
  }

  /** The owner moves on with its slot and keeps it. */
  predicate Moved(before: Producer, pr: Producer, slot: Slot, slot': Slot) {
    && before.pc.OwnsSlot() && pr == before.(pc := pr.pc) && pr.pc.OwnsSlot()
    && pr.pc.n == before.pc.n && pr.pc.at == before.pc.at && pr.pc.OwnsPad() == before.pc.OwnsPad()
    && slot' == slot.(phase := pr.pc.SlotPhase(), seqNum := slot'.seqNum, tick := slot'.tick)
    && !slot'.phase.Reserved?
  }

  lemma MoveCalls(producers: map<Pid, Producer>, h: Hist, p: Pid, pr: Producer, i: nat, slot: Slot, h': Hist)
    requires CallInv(producers, h) && p in producers && i < |h.slots|
    requires Moved(producers[p], pr, h.slots[i], slot) && pr.pc.n == h.base + i
    requires h'.r == h.r && h'.w == h.w && h'.slots == h.slots[i := slot] && h'.base == h.base
    ensures CallInv(producers[p := pr], h')
  {
    assert CallOk(producers[p], h.r, h.w, h.Reservations());
    LinkedPhase(producers, h.slots, h.base, p, pr, slot);
    CallsUpdate(producers, h.r, h.w, h.Reservations(), p, pr);
  }

  lemma MoveBooks(s: State, p: Pid, pr: Producer, i: nat, slot: Slot, s': State)
    requires BookInv(s) && p in s.producers && i < |s.h.slots|
    requires Moved(s.producers[p], pr, s.h.slots[i], slot)
    requires !s.h.slots[i].phase.Committed?
    requires s'.producers == s.producers[p := pr] && s'.worker == s.worker
    requires s'.ring == s.ring.(mem := s'.ring.mem, seqCounter := s'.ring.seqCounter)
    requires s'.h == s.h.(slots := s.h.slots[i := slot])
    ensures BookInv(s')
  {
    OutstandingUpdate(s.h.slots, i, slot);
    CountUpdate(s.producers, p, pr, Uncounted);
    CountUpdate(s.producers, p, pr, CommittedUncounted);
  }

  lemma PublishKeeps(s: State, p: Pid, tick: u64)
    requires Inv(s) && Live(s, p) && (s.producers[p].pc.PadReserved? || s.producers[p].pc.DataReserved?)
    requires Masked(s.producers[p].pc.at) + HEADER <= RING && |s.producers[p].payload| <= MAX_PAYLOAD
    ensures Inv(DoPublish(s, p, tick))
  {
    hide Tiling, Stored, Linked, CallsOk, Fifo, Counted, Awake;
    var i := OwnerFacts(s, p);
    if s.producers[p].pc.PadReserved? {
      PublishSlotKeeps(s, p, i, tick, s.h.slots[i].(phase := Claimed, seqNum := 0, tick := 0));
    } else {
      var seqNum := U32(s.ring.seqCounter + 1);
      PublishSlotKeeps(s, p, i, tick, s.h.slots[i].(phase := Claimed, seqNum := seqNum, tick := tick));
    }
  }

  predicate Publishes(s: State, p: Pid, i: nat, tick: u64, slot: Slot) {
    && OwnsAt(s, p, i) && |s.producers[p].payload| <= MAX_PAYLOAD
    && (|| (s.producers[p].pc.PadReserved? && slot == s.h.slots[i].(phase := Claimed, seqNum := 0, tick := 0))
        || (s.producers[p].pc.DataReserved? &&
            slot == s.h.slots[i].(phase := Claimed, seqNum := U32(s.ring.seqCounter + 1), tick := tick)))
  }

  predicate Published(s: State, s': State, p: Pid, i: nat, slot: Slot)
    requires OwnsAt(s, p, i)
  {
    && SlotOk(slot) && p in s'.producers && Moved(s.producers[p], s'.producers[p], s.h.slots[i], slot)
    && s'.producers == s.producers[p := s'.producers[p]]
    && slot.start % RING == Masked(s.producers[p].pc.at)
    && s'.ring.mem == WriteAt(s.ring.mem, slot.start % RING, HeaderBytes(CLAIMED, HeaderOf(slot)))
    && s'.ring == s.ring.(mem := s'.ring.mem, seqCounter := s'.ring.seqCounter)
    && s' == s.(producers := s'.producers, ring := s'.ring, h := s.h.(slots := s.h.slots[i := slot]))
  }

  lemma PublishEffect(s: State, p: Pid, i: nat, tick: u64, slot: Slot)
    requires Publishes(s, p, i, tick, slot)
    ensures Published(s, DoPublish(s, p, tick), p, i, slot)
  {
    hide HeaderBytes, Stride;
    var s' := DoPublish(s, p, tick);
    var header := if slot.pad then PadHeader(slot.stride) else Header(0, |slot.payload|, slot.seqNum, slot.stride, slot.tick);
    assert HeaderOf(slot) == header;
    assert s'.h == s.h.(slots := s.h.slots[i := slot]);
    if s.producers[p].pc.PadReserved? {
      assert SpaceToEnd(s.producers[p].pc.at) == slot.stride;
    }
  }

  lemma PublishSlotKeeps(s: State, p: Pid, i: nat, tick: u64, slot: Slot)
    requires Inv(s) && Publishes(s, p, i, tick, slot)
    ensures Inv(DoPublish(s, p, tick))
  {
    hide Tiling, Stored, Linked, CallsOk, Fifo, Counted, Awake;
    var s' := DoPublish(s, p, tick);
    PublishEffect(s, p, i, tick, slot);
    hide DoPublish, HeaderBytes;
    var hb := HeaderBytes(CLAIMED, HeaderOf(slot));
    ReadBack(s.ring.mem, slot.start % RING, hb);
    MoveRing(s.ring, s.h, i, slot, slot.start % RING, hb, s'.ring, s'.h);
    MoveCalls(s.producers, s.h, p, s'.producers[p], i, slot, s'.h);
    MoveBooks(s, p, s'.producers[p], i, slot, s');
  }

  /** Copying the payload in leaves the header alone. */
  lemma CopyMemory(mem: Memory, slot: Slot)
    requires SlotOk(slot) && !slot.pad && slot.phase.Claimed? && InMemory(mem, slot)
    requires HEADER + |slot.payload| <= slot.stride
    ensures InMemory(WriteAt(mem, slot.start % RING + HEADER, slot.payload), slot.(phase := Filled))
  {
    var off := slot.start % RING;
    ReadElsewhere(mem, off + HEADER, slot.payload, off, HEADER);
    ReadBack(mem, off + HEADER, slot.payload);
  }

  /** The commit changes the state word and nothing else. */
  lemma CommitMemory(mem: Memory, slot: Slot)
    requires SlotOk(slot) && InMemory(mem, slot) && (if slot.pad then slot.phase.Claimed? else slot.phase.Filled?)
    requires HEADER + |slot.payload| <= slot.stride
    ensures InMemory(WriteAt(mem, slot.start % RING, ToLE(COMMITTED, 4)), slot.(phase := Committed))
  {
    var off := slot.start % RING;
    RestateHeader(mem, off, CLAIMED, COMMITTED, HeaderOf(slot));
    ReadElsewhere(mem, off, ToLE(COMMITTED, 4), off + HEADER, |slot.payload|);
  }

  lemma StoredFact(s: State, i: nat)
    requires RingInv(s.ring, s.h) && i < |s.h.slots|
    ensures SlotOk(s.h.slots[i]) && InMemory(s.ring.mem, s.h.slots[i])
  {
  }

  lemma CopyEffect(s: State, p: Pid, i: nat)
    requires OwnsAt(s, p, i) && s.producers[p].pc.DataClaimed?
    ensures var s', slot := DoCopy(s, p), s.h.slots[i].(phase := Filled);
            && s' == s.(producers := s.producers[p := s'.producers[p]], ring := s.ring.(mem := s'.ring.mem),
                        h := s.h.(slots := s.h.slots[i := slot]))
            && s'.ring.mem == WriteAt(s.ring.mem, slot.start % RING + HEADER, slot.payload)
            && SlotOk(slot) && Moved(s.producers[p], s'.producers[p], s.h.slots[i], slot)
  {
    hide Stride;
  }

  lemma CopyKeeps(s: State, p: Pid)
    requires Inv(s) && Live(s, p) && s.producers[p].pc.DataClaimed?
    requires Masked(s.producers[p].pc.at) + HEADER + |s.producers[p].payload| <= RING
    ensures Inv(DoCopy(s, p))
  {
    hide Tiling, Stored, Linked, CallsOk, Fifo, Counted, Awake;
    var i := OwnerFacts(s, p);
    var s', slot := DoCopy(s, p), s.h.slots[i].(phase := Filled);
    CopyEffect(s, p, i);
    StoredFact(s, i);
    hide DoCopy;
    CopyMemory(s.ring.mem, s.h.slots[i]);
    hide InMemory;
    MoveRing(s.ring, s.h, i, slot, slot.start % RING + HEADER, slot.payload, s'.ring, s'.h);
    MoveCalls(s.producers, s.h, p, s'.producers[p], i, slot, s'.h);
    MoveBooks(s, p, s'.producers[p], i, slot, s');
  }

  lemma CommitRing(s: State, p: Pid, i: nat)
    requires RingInv(s.ring, s.h) && OwnsAt(s, p, i)
    requires s.producers[p].pc.PadClaimed? || s.producers[p].pc.DataFilled?
    ensures RingInv(DoCommit(s, p).ring, DoCommit(s, p).h)
  {
    hide Tiling, Stored;
    var s' := DoCommit(s, p);
    var slot := s.h.slots[i].(phase := Committed);
    StoredFact(s, i);
    CommitMemory(s.ring.mem, s.h.slots[i]);
    hide InMemory;
    MoveRing(s.ring, s.h, i, slot, slot.start % RING, ToLE(COMMITTED, 4), s'.ring, s'.h);
  }

  lemma CommitCalls(s: State, p: Pid, i: nat)
    requires CallInv(s.producers, s.h) && OwnsAt(s, p, i)
    requires s.producers[p].pc.PadClaimed? || s.producers[p].pc.DataFilled?
    ensures CallInv(DoCommit(s, p).producers, DoCommit(s, p).h)
  {
    hide Linked, WriteAt, ToLE;
    var s' := DoCommit(s, p);
    hide SlotOk;
    assert CallOk(s.producers[p], s.h.r, s.h.w, s.h.Reservations());
    hide CallsOk;
    LinkedCommit(s.producers, s.h.slots, s.h.base, p, s'.producers[p]);
    CallsUpdate(s.producers, s.h.r, s.h.w, s.h.Reservations(), p, s'.producers[p]);
  }

  lemma CommitBooks(s: State, p: Pid, i: nat)
    requires BookInv(s) && OwnsAt(s, p, i)
    requires s.producers[p].pc.PadClaimed? || s.producers[p].pc.DataFilled?
    ensures BookInv(DoCommit(s, p))
  {
    hide WriteAt, ToLE;
    var s' := DoCommit(s, p);
    OutstandingUpdate(s.h.slots, i, s.h.slots[i].(phase := Committed));
    CountUpdate(s.producers, p, s'.producers[p], Uncounted);
    CountUpdate(s.producers, p, s'.producers[p], CommittedUncounted);
    hide Members, HowMany, Outstanding, CommittedData, CountFate, SlotOk;
    assert Fifo(s'.h);
    hide Fifo;
    assert Counted(s');
    hide Counted;
    assert Awake(s'.worker, s'.ring.dataReady, s'.producers, s'.h.slots);
  }

  lemma CommitKeeps(s: State, p: Pid)
    requires Inv(s) && Live(s, p) && (s.producers[p].pc.PadClaimed? || s.producers[p].pc.DataFilled?)
    requires Masked(s.producers[p].pc.at) + HEADER <= RING
    ensures Inv(DoCommit(s, p))
  {
    hide Tiling, Stored, Linked, CallsOk, Fifo, Counted, Awake, WorkerOk;
    var i := OwnerFacts(s, p);
    CommitRing(s, p, i);
    CommitCalls(s, p, i);
    CommitBooks(s, p, i);
  }

  lemma SignalKeeps(s: State, p: Pid)
    requires Inv(s) && Live(s, p) && s.producers[p].pc.ToSignal?
    ensures Inv(DoSignal(s, p))
  {
    LinkedIdle(s.producers, s.h.slots, s.h.base, p, s.producers[p]);
    CallsUpdate(s.producers, s.h.r, s.h.w, s.h.Reservations(), p, s.producers[p]);
    CountRemove(s.producers, p, Uncounted);
    CountRemove(s.producers, p, CommittedUncounted);
  }

  lemma DieKeeps(s: State, p: Pid)
    requires Inv(s) && Live(s, p)
    ensures Inv(DoDie(s, p))
  {
    hide RingInv, CallInv, BookInv, NoTimeoutSeen;
    DieCalls(s, p);
    DieBooks(s, p);
  }

  lemma DieCalls(s: State, p: Pid)
    requires CallInv(s.producers, s.h) && Live(s, p)
    ensures CallInv(DoDie(s, p).producers, s.h)
  {
    var pr := s.producers[p].(dead := true);
    assert CallOk(s.producers[p], s.h.r, s.h.w, s.h.Reservations());
    hide Linked, CallsOk;
    LinkedSame(s.producers, s.h.slots, s.h.base, p, pr);
    CallsUpdate(s.producers, s.h.r, s.h.w, s.h.Reservations(), p, pr);
  }

  lemma DieBooks(s: State, p: Pid)
    requires BookInv(s) && Live(s, p)
    ensures BookInv(DoDie(s, p))
  {
    hide Fifo, Members, HowMany, CommittedData, CountFate;
    var pr := s.producers[p].(dead := true);
    CountUpdate(s.producers, p, pr, Uncounted);
    CountUpdate(s.producers, p, pr, CommittedUncounted);
  }
}
