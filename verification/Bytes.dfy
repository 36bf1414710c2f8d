/**
 Bytes, little-endian integers and bounded writes into a block of memory.
 */
module Bytes {

  type byte = x: int | 0 <= x < 256

  const TWO32: nat := 0x1_0000_0000
  const TWO64: nat := 0x1_0000_0000_0000_0000

  type u16 = x: int | 0 <= x < 0x1_0000
  type u32 = x: int | 0 <= x < 0x1_0000_0000
  type u64 = x: int | 0 <= x < 0x1_0000_0000_0000_0000

  /** The low 32 bits of an unbounded value. */
  function U32(x: nat): u32 {
    x % TWO32
  }

  function Min(a: nat, b: nat): nat {
    if a <= b then a else b
  }

  /** 256 to the power `n`: how many values `n` bytes can hold. */
  function Pow256(n: nat): (p: nat)
    ensures p >= 1
  {
    if n == 0 then 1 else 256 * Pow256(n - 1)
  }

  lemma Pow256Values()
    ensures Pow256(1) == 0x100 && Pow256(2) == 0x1_0000
    ensures Pow256(4) == TWO32 && Pow256(8) == TWO64
  {
    assert Pow256(3) == 256 * Pow256(2);
    assert Pow256(5) == 256 * Pow256(4);
    assert Pow256(7) == 256 * Pow256(6);
  }

  /** The `n` low bytes of `v`, least significant first. */
  function ToLE(v: nat, n: nat): (bs: seq<byte>)
    ensures |bs| == n
  {
    if n == 0 then [] else [v % 256] + ToLE(v / 256, n - 1)
  }

  function FromLE(bs: seq<byte>): (v: nat)
    ensures v < Pow256(|bs|)
  {
    if bs == [] then 0 else bs[0] + 256 * FromLE(bs[1..])
  }

  lemma {:induction false} FromToLE(v: nat, n: nat)
    requires v < Pow256(n)
    ensures FromLE(ToLE(v, n)) == v
  {
    if n > 0 {
      FromToLE(v / 256, n - 1);
      assert ToLE(v, n)[1..] == ToLE(v / 256, n - 1);
    }
  }

  lemma {:induction false} ToFromLE(bs: seq<byte>)
    ensures ToLE(FromLE(bs), |bs|) == bs
  {
    if bs != [] {
      ToFromLE(bs[1..]);
      assert bs == [bs[0]] + bs[1..];
    }
  }

  /** Least significant byte first. */
  lemma LittleEndian(bs: seq<byte>)
    ensures |bs| == 2 ==> FromLE(bs) == bs[0] + 0x100 * (bs[1] as int)
    ensures |bs| == 4 ==> FromLE(bs) == bs[0] + 0x100 * (bs[1] as int) + 0x1_0000 * (bs[2] as int) + 0x100_0000 * (bs[3] as int)
  {
    if |bs| == 2 || |bs| == 4 {
      assert FromLE(bs) == bs[0] + 256 * FromLE(bs[1..]);
      assert FromLE(bs[1..]) == bs[1] + 256 * FromLE(bs[1..][1..]);
      if |bs| == 4 {
        var tail := bs[1..][1..];
        assert FromLE(tail) == tail[0] + 256 * FromLE(tail[1..]);
        assert FromLE(tail[1..]) == tail[1..][0] + 256 * FromLE(tail[1..][1..]);
        assert tail[1..][1..] == [];
      } else {
        assert bs[1..][1..] == [];
      }
    }
  }

  lemma RoundTrip32(v: u32)
    ensures FromLE(ToLE(v, 4)) == v
  {
    Pow256Values();
    FromToLE(v, 4);
  }

  /** `n` bytes of `mem` from `off`. */
  function ReadAt(mem: seq<byte>, off: nat, n: nat): (bs: seq<byte>)
    requires off + n <= |mem|
    ensures |bs| == n
  {
    mem[off..off + n]
  }

  /** `mem` with `bs` copied over it from `off` on; every other byte keeps its value. */
  function WriteAt(mem: seq<byte>, off: nat, bs: seq<byte>): (m: seq<byte>)
    requires off + |bs| <= |mem|
    ensures |m| == |mem|
  {
    mem[..off] + bs + mem[off + |bs|..]
  }

  lemma WriteAtEach(mem: seq<byte>, off: nat, bs: seq<byte>)
    requires off + |bs| <= |mem|
    ensures var m := WriteAt(mem, off, bs);
            forall i :: 0 <= i < |mem| ==> m[i] == if off <= i < off + |bs| then bs[i - off] else mem[i]
  {
  }

  lemma ReadBack(mem: seq<byte>, off: nat, bs: seq<byte>)
    requires off + |bs| <= |mem|
    ensures ReadAt(WriteAt(mem, off, bs), off, |bs|) == bs
  {
  }

  lemma ReadElsewhere(mem: seq<byte>, off: nat, bs: seq<byte>, at: nat, n: nat)
    requires off + |bs| <= |mem| && at + n <= |mem|
    requires at + n <= off || off + |bs| <= at
    ensures ReadAt(WriteAt(mem, off, bs), at, n) == ReadAt(mem, at, n)
  {
  }

  /** A read that lies inside a known stretch of memory is a slice of that stretch. */
  lemma ReadInside(mem: seq<byte>, off: nat, n: nat, known: seq<byte>, at: nat, k: nat)
    requires off + n <= |mem| && ReadAt(mem, off, n) == known
    requires at + k <= n
    ensures ReadAt(mem, off + at, k) == known[at..at + k]
  {
    var read, slice := ReadAt(mem, off + at, k), known[at..at + k];
    forall i | 0 <= i < k
      ensures read[i] == slice[i]
    {
      assert known[at + i] == mem[off + (at + i)];
    }
  }

  /** Writing inside a stretch of memory rewrites that stretch in the same place. */
  lemma WriteInside(mem: seq<byte>, off: nat, n: nat, at: nat, bs: seq<byte>)
    requires off + n <= |mem| && at + |bs| <= n
    ensures ReadAt(WriteAt(mem, off + at, bs), off, n) == WriteAt(ReadAt(mem, off, n), at, bs)
  {
  }
}
