/**
 The event ring's constants, its slot header, and the 32-bit head arithmetic.
 */
module RingLayout {
  import opened Bytes

  const RING: nat := 262144
  const QUARTER: nat := 65536
  const HEADER: nat := 28
  const MIN_SKIP: nat := 32
  const MAX_PAYLOAD: nat := 65508
  const SEND_BUFFER: nat := 65536
  const CLAIM_TIMEOUT_MS: nat := 500
  const PAD_FLAG: u16 := 0xFFFF

  const FREE: u32 := 0
  const CLAIMED: u32 := 1
  const COMMITTED: u32 := 2

  // ---- head arithmetic -----------------------------------------------------

  /** `x & RingMask()` */
  function Masked(x: u32): (o: nat)
    ensures o < RING
  {
    x % RING
  }

  /** Unsigned 32-bit subtraction. */
  function Sub32(a: u32, b: u32): u32 {
    (a - b) % TWO32
  }

  /** The occupancy the code computes from two wrapped heads. */
  function Used(writeHead: u32, readHead: u32): (u: nat)
    ensures u < RING
  {
    Masked(Sub32(writeHead, readHead))
  }

  function FreeBytes(writeHead: u32, readHead: u32): (f: nat)
    ensures 0 < f <= RING
  {
    RING - Used(writeHead, readHead)
  }

  function SpaceToEnd(head: u32): (n: nat)
    ensures 0 < n <= RING
  {
    RING - Masked(head)
  }

  /** `(v + 7) & ~7`, in 32 bits. */
  function AlignUp(v: u32): u32 {
    U32(v + 7) / 8 * 8
  }

  function Stride(payloadBytes: u32): u32 {
    AlignUp(U32(HEADER + payloadBytes))
  }

  /** The two bit-mask idioms of the code are the remainders and roundings used in this model. */
  lemma MaskIdioms(x: bv32)
    ensures x & 0x3FFFF == x % 0x40000
    ensures (x + 7) & !7 == (x + 7) / 8 * 8
  {
  }

  /** Wrapped heads give the offset and the occupancy of the unbounded ones, whatever number of
      times they have wrapped; the occupancy is right exactly below a full ring. */
  lemma WrappedHeadsAreExact(w: nat, r: nat)
    requires r <= w <= r + RING
    ensures Masked(U32(w)) == w % RING && Masked(U32(r)) == r % RING
    ensures Used(U32(w), U32(r)) == (w - r) % RING
    ensures Used(U32(w), U32(r)) == w - r <==> w - r < RING
  {
    ModOfMod(w);
    ModOfMod(r);
    var d := w - r;
    assert Sub32(U32(w), U32(r)) == d by {
      assert w == TWO32 * (w / TWO32) + U32(w);
      assert r == TWO32 * (r / TWO32) + U32(r);
      var k := w / TWO32 - r / TWO32;
      assert U32(w) - U32(r) == d - TWO32 * k;
      assert 0 <= d < TWO32;
      assert k == 0 || k == 1;
    }
  }

  /** Whole laps do not change an offset. */
  lemma ModLaps(x: int, k: int)
    ensures (x + RING * k) % RING == x % RING
  {
    var q := x / RING;
    assert x + RING * k == RING * (q + k) + x % RING;
  }

  /** For any two heads, also if the read head has passed the other, the computed occupancy is their
      distance modulo the ring. */
  lemma UsedIsDistance(w: nat, r: nat)
    ensures Used(U32(w), U32(r)) == (w - r) % RING
  {
    var a, b := w / TWO32, r / TWO32;
    assert w == TWO32 * a + U32(w) && r == TWO32 * b + U32(r);
    var y := U32(w) - U32(r);
    var q := y / TWO32;
    assert y == TWO32 * q + Sub32(U32(w), U32(r));
    var k := b - a - q;
    assert Sub32(U32(w), U32(r)) == (w - r) + RING * (16384 * k);
    ModLaps(w - r, 16384 * k);
  }

  lemma ModOfMod(x: nat)
    ensures Masked(U32(x)) == x % RING
  {
    var q := x / TWO32;
    assert x == RING * (16384 * q) + U32(x);
    var y := U32(x);
    assert y == RING * (y / RING) + y % RING;
    assert x == RING * (16384 * q + y / RING) + y % RING;
  }

  /** Advancing a wrapped head and wrapping an advanced head are the same. */
  lemma AdvanceWrapped(x: nat, d: nat)
    ensures U32(U32(x) + d) == U32(x + d)
  {
    assert x == TWO32 * (x / TWO32) + U32(x);
    var y := U32(x) + d;
    assert y == TWO32 * (y / TWO32) + U32(y);
    assert x + d == TWO32 * (x / TWO32 + y / TWO32) + U32(y);
  }

  lemma AlignedSum(a: nat, b: nat)
    requires a % 8 == 0 && b % 8 == 0
    ensures (a + b) % 8 == 0
  {
  }

  /** For every size the ring accepts, the stride is a multiple of 8 between 32 and a quarter of
      the ring, and holds the header and the payload. */
  lemma StrideBounds(size: nat)
    requires size <= MAX_PAYLOAD
    ensures Stride(size) % 8 == 0
    ensures MIN_SKIP <= Stride(size) <= QUARTER
    ensures HEADER + size <= Stride(size) < HEADER + size + 8
  {
    RoundUp(HEADER + size);
  }

  /** Away from the top of the 32-bit range, `AlignUp` is the next multiple of 8. */
  lemma RoundUp(v: nat)
    requires v < TWO32 - 8
    ensures U32(v) == v && AlignUp(v) % 8 == 0 && v <= AlignUp(v) < v + 8
    ensures v % 8 == 0 ==> AlignUp(v) == v
  {
    var q := (v + 7) / 8;
    assert U32(v + 7) == v + 7;
    assert AlignUp(v) == q * 8;
  }

  /** A pad's stride, recomputed from its stored payload length, is its own length. */
  lemma PadStride(space: nat)
    requires HEADER <= space <= RING && space % 8 == 0
    ensures Stride(space - HEADER) == space
  {
    RoundUp(space);
  }

  /** Two stretches that follow each other inside one lap of the ring, neither running past its
      end, share no physical byte. */
  lemma PhysicallyDisjoint(a: nat, na: nat, b: nat, nb: nat)
    requires a + na <= b && b + nb <= a + RING
    requires a % RING + na <= RING && b % RING + nb <= RING
    requires 0 < nb
    ensures a % RING + na <= b % RING || b % RING + nb <= a % RING
  {
    var q := a / RING;
    assert a == RING * q + a % RING;
    assert b == RING * (b / RING) + b % RING;
    assert b / RING == q || b / RING == q + 1;
  }

  // ---- slot header -----------------------------------------------------------

  /** The header fields other than the state word. */
  datatype Header = Header(flags: u16, payloadBytes: u32, seqNum: u32, strideBytes: u32, claimedTick: u64)

  /** The 28 packed bytes of a slot header. */
  function HeaderBytes(state: u32, h: Header): (bs: seq<byte>)
    ensures |bs| == HEADER
  {
    ToLE(state, 4) + ToLE(h.flags, 2) + ToLE(0, 2) + ToLE(h.payloadBytes, 4)
    + ToLE(h.seqNum, 4) + ToLE(h.strideBytes, 4) + ToLE(h.claimedTick, 8)
  }

  function PadHeader(space: nat): Header
    requires HEADER <= space <= RING
  {
    Header(PAD_FLAG, space - HEADER, 0, space, 0)
  }

  function StateAt(mem: seq<byte>, off: nat): u32
    requires off + 4 <= |mem|
  {
    Pow256Values();
    FromLE(ReadAt(mem, off, 4))
  }

  function FlagsAt(mem: seq<byte>, off: nat): u16
    requires off + HEADER <= |mem|
  {
    Pow256Values();
    FromLE(ReadAt(mem, off + 4, 2))
  }

  function ReservedAt(mem: seq<byte>, off: nat): u16
    requires off + HEADER <= |mem|
  {
    Pow256Values();
    FromLE(ReadAt(mem, off + 6, 2))
  }

  function SeqNumAt(mem: seq<byte>, off: nat): u32
    requires off + HEADER <= |mem|
  {
    Pow256Values();
    FromLE(ReadAt(mem, off + 12, 4))
  }

  function PayloadBytesAt(mem: seq<byte>, off: nat): u32
    requires off + HEADER <= |mem|
  {
    Pow256Values();
    FromLE(ReadAt(mem, off + 8, 4))
  }

  function StrideBytesAt(mem: seq<byte>, off: nat): u32
    requires off + HEADER <= |mem|
  {
    Pow256Values();
    FromLE(ReadAt(mem, off + 16, 4))
  }

  function ClaimedTickAt(mem: seq<byte>, off: nat): u64
    requires off + HEADER <= |mem|
  {
    Pow256Values();
    FromLE(ReadAt(mem, off + 20, 8))
  }

  /** Where each field lies in the packed bytes. */
  lemma HeaderSlices(state: u32, h: Header)
    ensures var hb := HeaderBytes(state, h);
            && hb[0..4] == ToLE(state, 4) && hb[4..6] == ToLE(h.flags, 2) && hb[6..8] == ToLE(0, 2)
            && hb[8..12] == ToLE(h.payloadBytes, 4) && hb[12..16] == ToLE(h.seqNum, 4)
            && hb[16..20] == ToLE(h.strideBytes, 4) && hb[20..28] == ToLE(h.claimedTick, 8)
  {
    hide ToLE;
  }

  lemma FieldReadsBack(mem: seq<byte>, off: nat, hb: seq<byte>, at: nat, k: nat, v: nat)
    requires off + HEADER <= |mem| && ReadAt(mem, off, HEADER) == hb && at + k <= HEADER
    requires hb[at..at + k] == ToLE(v, k) && v < Pow256(k)
    ensures FromLE(ReadAt(mem, off + at, k)) == v
  {
    ReadInside(mem, off, HEADER, hb, at, k);
    FromToLE(v, k);
  }

  /** Every field reads back as it was stored. */
  lemma HeaderReadsBack(mem: seq<byte>, off: nat, state: u32, h: Header)
    requires off + HEADER <= |mem| && ReadAt(mem, off, HEADER) == HeaderBytes(state, h)
    ensures StateAt(mem, off) == state && FlagsAt(mem, off) == h.flags && ReservedAt(mem, off) == 0
    ensures PayloadBytesAt(mem, off) == h.payloadBytes && SeqNumAt(mem, off) == h.seqNum
    ensures StrideBytesAt(mem, off) == h.strideBytes && ClaimedTickAt(mem, off) == h.claimedTick
  {
    var hb := HeaderBytes(state, h);
    Pow256Values();
    HeaderSlices(state, h);
    hide HeaderBytes, ToLE, FromLE, Pow256, ReadAt;
    FieldReadsBack(mem, off, hb, 0, 4, state);
    FieldReadsBack(mem, off, hb, 4, 2, h.flags);
    FieldReadsBack(mem, off, hb, 6, 2, 0);
    FieldReadsBack(mem, off, hb, 8, 4, h.payloadBytes);
    FieldReadsBack(mem, off, hb, 12, 4, h.seqNum);
    FieldReadsBack(mem, off, hb, 16, 4, h.strideBytes);
    FieldReadsBack(mem, off, hb, 20, 8, h.claimedTick);
  }

  /** Storing the state word leaves the rest of the header as it was. */
  lemma RestateHeader(mem: seq<byte>, off: nat, before: u32, state: u32, h: Header)
    requires off + HEADER <= |mem| && ReadAt(mem, off, HEADER) == HeaderBytes(before, h)
    ensures ReadAt(WriteAt(mem, off, ToLE(state, 4)), off, HEADER) == HeaderBytes(state, h)
  {
    RestateBytes(before, state, h);
    hide HeaderBytes, ToLE;
    WriteInside(mem, off, HEADER, 0, ToLE(state, 4));
  }

  lemma RestateBytes(before: u32, state: u32, h: Header)
    ensures WriteAt(HeaderBytes(before, h), 0, ToLE(state, 4)) == HeaderBytes(state, h)
  {
    hide ToLE;
    var hb, tail := HeaderBytes(before, h), HeaderBytes(before, h)[4..];
    assert HeaderBytes(state, h) == ToLE(state, 4) + tail;
  }

  /** `TicksToMs(now - claimedTick) >= ASYNC_CLAIM_TIMEOUT_MS`, with unsigned 64-bit subtraction. */
  predicate TimedOut(now: u64, claimedTick: u64, ticksPerMs: u64) {
    ticksPerMs != 0 && (now - claimedTick) % TWO64 / ticksPerMs >= CLAIM_TIMEOUT_MS
  }

  /** In unbounded arithmetic: a claim is old when 500 milliseconds' worth of ticks have gone by since, on a
      64-bit counter that may have wrapped; it never is on a clock of unknown rate. */
  lemma TimedOutIff(now: u64, claimedTick: u64, ticksPerMs: u64)
    ensures TimedOut(now, claimedTick, ticksPerMs) <==>
            && ticksPerMs > 0
            && (if claimedTick <= now then now - claimedTick >= 500 * ticksPerMs
                else now + 0x1_0000_0000_0000_0000 - claimedTick >= 500 * ticksPerMs)
  {
    var elapsed: nat := if claimedTick <= now then now - claimedTick else now + TWO64 - claimedTick;
    assert (now - claimedTick) % TWO64 == elapsed;
    if ticksPerMs > 0 {
      QuotientAtLeast(elapsed, ticksPerMs, 500);
    }
  }

  lemma QuotientAtLeast(a: nat, b: nat, n: nat)
    requires b > 0
    ensures a / b >= n <==> a >= n * b
  {
    var q := a / b;
    assert a == b * q + a % b;
    assert q >= n ==> b * q >= b * n;
    assert q <= n - 1 ==> b * q <= b * (n - 1);
    assert b * (n - 1) == b * n - b;
  }
}
