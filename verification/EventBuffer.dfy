/**
 The serialization buffer: appends until something does not fit, then refuses everything.
 */
module EventBuffer {
  import opened Bytes

  /** A buffer as a value.  `usable` is false when its memory could not be had. */
  datatype Buf = Buf(bytes: seq<byte>, max: nat, overflow: bool, usable: bool)

  function Written(b: Buf, bs: seq<byte>): Buf {
    if b.overflow || !b.usable || bs == [] then b
    else if |b.bytes| + |bs| > b.max then b.(overflow := true)
    else b.(bytes := b.bytes + bs)
  }

  /** The result `WriteBytes` returns. */
  predicate Accepts(b: Buf, bs: seq<byte>) {
    !b.overflow && b.usable && (bs == [] || |b.bytes| + |bs| <= b.max)
  }

  function WrittenAll(b: Buf, chunks: seq<seq<byte>>): Buf
    decreases |chunks|
  {
    if chunks == [] then b else WrittenAll(Written(b, chunks[0]), chunks[1..])
  }

  function Concat(chunks: seq<seq<byte>>): seq<byte> {
    if chunks == [] then [] else chunks[0] + Concat(chunks[1..])
  }

  lemma ConcatThree(x: seq<byte>, y: seq<byte>, z: seq<byte>, more: seq<seq<byte>>)
    ensures Concat([x, y, z] + more) == x + y + z + Concat(more)
  {
    var c := [x, y, z] + more;
    assert c[1..] == [y, z] + more && c[1..][1..] == [z] + more && c[1..][1..][1..] == more;
    assert Concat(c[1..][1..]) == z + Concat(more);
    assert Concat(c[1..]) == y + (z + Concat(more));
  }

  /** Whatever is written, in whatever pieces, the buffer holds a prefix of it all, and holds all of
      it exactly when no overflow is recorded, which is exactly when it all fits. */
  lemma {:induction false} BufferHoldsPrefix(b: Buf, chunks: seq<seq<byte>>)
    requires b.usable && |b.bytes| <= b.max
    ensures var r := WrittenAll(b, chunks);
            && r.usable && r.max == b.max && |r.bytes| <= r.max
            && b.bytes <= r.bytes <= b.bytes + Concat(chunks)
            && (b.overflow ==> r == b)
            && (!b.overflow ==> (!r.overflow <==> |b.bytes| + |Concat(chunks)| <= b.max))
            && (!b.overflow ==> (!r.overflow <==> r.bytes == b.bytes + Concat(chunks)))
    decreases |chunks|
  {
    if chunks == [] {
      assert b.bytes + Concat(chunks) == b.bytes;
    } else {
      assert WrittenAll(b, chunks) == WrittenAll(Written(b, chunks[0]), chunks[1..]);
      assert Concat(chunks) == chunks[0] + Concat(chunks[1..]);
      var b1, first, rest := Written(b, chunks[0]), chunks[0], Concat(chunks[1..]);
      BufferHoldsPrefix(b1, chunks[1..]);
      hide WrittenAll, Concat;
      assert b.bytes + (first + rest) == (b.bytes + first) + rest;
      if b1.overflow {
        assert WrittenAll(b1, chunks[1..]) == b1;
      } else {
        assert b1.bytes == b.bytes + first;
      }
    }
  }

  lemma {:induction false} WrittenAllAppend(b: Buf, chunks: seq<seq<byte>>, more: seq<seq<byte>>)
    ensures WrittenAll(b, chunks + more) == WrittenAll(WrittenAll(b, chunks), more)
    ensures Concat(chunks + more) == Concat(chunks) + Concat(more)
    decreases |chunks|
  {
    if chunks == [] {
      assert chunks + more == more;
    } else {
      assert (chunks + more)[1..] == chunks[1..] + more;
      WrittenAllAppend(Written(b, chunks[0]), chunks[1..], more);
    }
  }

  /** A write is accepted exactly when there is memory and no overflow is recorded after it. */
  lemma AcceptsIff(b: Buf, bs: seq<byte>)
    ensures Accepts(b, bs) <==> b.usable && !Written(b, bs).overflow
  {
  }

  /** The test `m_CurrentSize + Length > m_MaxSize`, made in 32 bits, is the intended one exactly when
      the sum does not wrap. */
  lemma SizeTestExactWhen(current: u32, length: u32, max: u32)
    requires current <= max
    ensures (U32(current + length) > max <==> current + length > max)
            <==> current + length < TWO32
    ensures U32(66 + (TWO32 - 66)) <= 32768 < 66 + (TWO32 - 66)
  {
  }

  class Buffer {
    var data: array?<byte>
    var maxSize: nat
    var currentSize: nat
    var overflow: bool

    ghost predicate Valid()
      reads this
    {
      && currentSize <= maxSize < TWO32
      && (data == null ==> maxSize == 0)
      && (data != null ==> data.Length == maxSize)
    }

    ghost function Model(): (b: Buf)
      requires Valid()
      reads this, data
      ensures |b.bytes| == currentSize && b.max == maxSize
    {
      Buf(if data == null then [] else data[..currentSize], maxSize, overflow, data != null)
    }

    /** `memory`: whether the pool had room for the buffer. */
    constructor (size: u32, memory: bool)
      ensures Valid() && (data != null ==> fresh(data))
      ensures Model() == if size != 0 && memory then Buf([], size, false, true) else Buf([], 0, false, false)
    {
      currentSize, overflow := 0, false;
      if size != 0 && memory {
        data := new byte[size](_ => 0);
        maxSize := size;
      } else {
        data := null;
        maxSize := 0;
      }
    }

    /** The size test is made in 32 bits; `bs` is short enough for the sum not to wrap. */
    method WriteBytes(bs: seq<byte>) returns (ok: bool)
      requires Valid() && currentSize + |bs| < TWO32
      modifies this, data
      ensures Valid() && data == old(data)
      ensures Model() == Written(old(Model()), bs) && ok == Accepts(old(Model()), bs)
      ensures ok == (data != null && !overflow)
    {
      if overflow || data == null {
        return false;
      }
      if |bs| == 0 {
        return true;
      }
      if U32(currentSize + |bs|) > maxSize {
        overflow := true;
        return false;
      }
      CopyIn(currentSize, bs);
      currentSize := currentSize + |bs|;
      return true;
    }

    method CopyIn(off: nat, bs: seq<byte>)
      requires Valid() && data != null && off + |bs| <= maxSize
      modifies data
      ensures data[..] == WriteAt(old(data[..]), off, bs)
      ensures data[..off + |bs|] == old(data[..off]) + bs
    {
      for i := 0 to |bs|
        invariant data[..off] == old(data[..off]) && data[off..off + i] == bs[..i]
        invariant data[off + i..] == old(data[off + i..])
      {
        data[off + i] := bs[i];
        assert data[off..off + i + 1] == data[off..off + i] + [bs[i]];
      }
      assert data[..off + |bs|] == data[..off] + data[off..off + |bs|];
      assert data[..] == data[..off + |bs|] + data[off + |bs|..];
    }

    /** Overwrites the start of the buffer, as the serializers do with their finished record. */
    method Patch(bs: seq<byte>)
      requires Valid() && data != null && |bs| <= currentSize
      modifies data
      ensures Valid() && Model() == old(Model()).(bytes := WriteAt(old(Model()).bytes, 0, bs))
    {
      CopyIn(0, bs);
    }

    method Reset()
      requires Valid()
      modifies this, data
      ensures Valid() && data == old(data)
      ensures Model() == old(Model()).(bytes := [], overflow := false)
      ensures data != null ==> forall i :: 0 <= i < data.Length ==> data[i] == 0
    {
      currentSize := 0;
      overflow := false;
      if data != null {
        for i := 0 to maxSize
          invariant Valid() && data == old(data) && currentSize == 0 && !overflow && maxSize == old(maxSize)
          invariant forall k :: 0 <= k < i ==> data[k] == 0
          modifies data
        {
          data[i] := 0;
        }
      }
    }
  }
}
