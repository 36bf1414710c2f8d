/**
 Typed fields: id, data type, a length where the type has one, data.  A specification decoder
 inverts the writer.
 */
module FieldSerializer {
  import opened Wrappers
  import opened Bytes
  import opened EventBuffer

  /** The number types of the wire format. */
  datatype NumKind = UChar | UShort | ULong | ULongLong | Char | Short | Long | LongLong | Boolean

  datatype Field =
    | Number(id: byte, kind: NumKind, value: int)
    | Text(id: byte, bytes: seq<byte>)
    | Blob(id: byte, bytes: seq<byte>)

  const TEXT: byte := 9
  const BLOB: byte := 10

  function Code(k: NumKind): byte {
    match k
    case UChar => 1 case UShort => 2 case ULong => 3 case ULongLong => 4
    case Char => 5 case Short => 6 case Long => 7 case LongLong => 8
    case Boolean => 11
  }

  function Width(k: NumKind): nat {
    match k
    case UChar | Char | Boolean => 1
    case UShort | Short => 2
    case ULong | Long => 4
    case ULongLong | LongLong => 8
  }

  predicate Signed(k: NumKind) {
    k.Char? || k.Short? || k.Long? || k.LongLong?
  }

  /** The values of a field's C type. */
  predicate InRange(k: NumKind, v: int) {
    var n: int := Pow256(Width(k));
    if k.Boolean? then 0 <= v <= 1
    else if Signed(k) then -n <= 2 * v < n
    else 0 <= v < n
  }

  predicate WellFormed(f: Field) {
    match f
    case Number(_, k, v) => InRange(k, v)
    case Text(_, bytes) => |bytes| < 0x1_0000
    case Blob(_, bytes) => |bytes| < TWO32
  }

  /** Two's complement in `n` bytes. */
  function Raw(v: int, n: nat): nat {
    v % Pow256(n)
  }

  // ---- encoding ------------------------------------------------------------------------------------

  function DataChunk(bytes: seq<byte>): seq<seq<byte>> {
    if bytes == [] then [] else [bytes]
  }

  /** The separate writes a field makes. */
  function Chunks(f: Field): seq<seq<byte>> {
    match f
    case Number(id, k, v) => [[id], [Code(k)], ToLE(Raw(v, Width(k)), Width(k))]
    case Text(id, bytes) => [[id], [TEXT], ToLE(|bytes|, 2)] + DataChunk(bytes)
    case Blob(id, bytes) => [[id], [BLOB], ToLE(|bytes|, 4)] + DataChunk(bytes)
  }

  function Body(f: Field): seq<byte> {
    match f
    case Number(id, k, v) => [id, Code(k)] + ToLE(Raw(v, Width(k)), Width(k))
    case Text(id, bytes) => [id, TEXT] + ToLE(|bytes|, 2) + bytes
    case Blob(id, bytes) => [id, BLOB] + ToLE(|bytes|, 4) + bytes
  }

  lemma ChunksAreBody(f: Field)
    ensures Concat(Chunks(f)) == Body(f)
  {
    hide ToLE;
    match f
    case Number(id, k, v) =>
      ConcatThree([id], [Code(k)], ToLE(Raw(v, Width(k)), Width(k)), []);
      assert Chunks(f) == [[id], [Code(k)], ToLE(Raw(v, Width(k)), Width(k))] + [];
    case Text(id, bytes) =>
      ConcatThree([id], [TEXT], ToLE(|bytes|, 2), DataChunk(bytes));
    case Blob(id, bytes) =>
      ConcatThree([id], [BLOB], ToLE(|bytes|, 4), DataChunk(bytes));
  }

  function AllChunks(fields: seq<Field>): seq<seq<byte>> {
    if fields == [] then [] else Chunks(fields[0]) + AllChunks(fields[1..])
  }

  function Encode(fields: seq<Field>): seq<byte> {
    if fields == [] then [] else Body(fields[0]) + Encode(fields[1..])
  }

  lemma {:induction false} AllChunksAreEncode(fields: seq<Field>)
    ensures Concat(AllChunks(fields)) == Encode(fields)
  {
    if fields != [] {
      ChunksAreBody(fields[0]);
      AllChunksAreEncode(fields[1..]);
      WrittenAllAppend(Buf([], 0, false, true), Chunks(fields[0]), AllChunks(fields[1..]));
    }
  }

  /** For any sequence of field writes into a fresh buffer, the buffer holds a prefix of the full
      encoding, and the whole of it exactly when no overflow is recorded. */
  lemma FieldsFillPrefix(fields: seq<Field>, max: nat)
    ensures var r := WrittenAll(Buf([], max, false, true), AllChunks(fields));
            && r.bytes <= Encode(fields)
            && (!r.overflow <==> r.bytes == Encode(fields))
            && (!r.overflow <==> |Encode(fields)| <= max)
  {
    BufferHoldsPrefix(Buf([], max, false, true), AllChunks(fields));
    AllChunksAreEncode(fields);
    assert [] + Encode(fields) == Encode(fields);
  }

  // ---- decoding ---------------------------------------------------------------------------------------

  function KindOf(code: byte): Option<NumKind> {
    match code
    case 1 => Some(UChar) case 2 => Some(UShort) case 3 => Some(ULong) case 4 => Some(ULongLong)
    case 5 => Some(Char) case 6 => Some(Short) case 7 => Some(Long) case 8 => Some(LongLong)
    case 11 => Some(Boolean)
    case _ => None
  }

  function Cooked(raw: nat, k: NumKind): int {
    if Signed(k) && 2 * raw >= Pow256(Width(k)) then raw - Pow256(Width(k)) else raw
  }

  /** A length-prefixed body: its bytes and what follows. */
  function TakeSized(bs: seq<byte>, n: nat): Option<(seq<byte>, seq<byte>)> {
    if |bs| < n then None
    else
      var size := FromLE(bs[..n]);
      if |bs| < n + size then None else Some((bs[n..n + size], bs[n + size..]))
  }

  function DecodeOne(bs: seq<byte>): (r: Option<(Field, seq<byte>)>)
    ensures r.Some? ==> |r.value.1| < |bs|
  {
    if |bs| < 2 then None
    else
      var id, code, rest := bs[0], bs[1], bs[2..];
      if code == TEXT || code == BLOB then
        match TakeSized(rest, if code == TEXT then 2 else 4)
        case None => None
        case Some((bytes, after)) => Some((if code == TEXT then Text(id, bytes) else Blob(id, bytes), after))
      else
        match KindOf(code)
        case None => None
        case Some(k) =>
          if |rest| < Width(k) then None
          else Some((Number(id, k, Cooked(FromLE(rest[..Width(k)]), k)), rest[Width(k)..]))
  }

  function Decode(bs: seq<byte>): Option<seq<Field>>
    decreases |bs|
  {
    if bs == [] then Some([])
    else
      match DecodeOne(bs)
      case None => None
      case Some((f, rest)) =>
        match Decode(rest)
        case None => None
        case Some(fields) => Some([f] + fields)
  }

  lemma TakeSizedBack(bytes: seq<byte>, n: nat, rest: seq<byte>)
    requires |bytes| < Pow256(n)
    ensures TakeSized(ToLE(|bytes|, n) + bytes + rest, n) == Some((bytes, rest))
  {
    FromToLE(|bytes|, n);
    var all := ToLE(|bytes|, n) + bytes + rest;
    assert all[..n] == ToLE(|bytes|, n);
    assert all[n..n + |bytes|] == bytes;
  }

  lemma NumberBack(k: NumKind, v: int)
    requires InRange(k, v)
    ensures Cooked(FromLE(ToLE(Raw(v, Width(k)), Width(k))), k) == v
  {
    var n := Pow256(Width(k));
    Pow256Values();
    ModShift(v, n);
    hide Pow256, FromLE, ToLE;
    FromToLE(Raw(v, Width(k)), Width(k));
  }

  /** The remainder of a number one period away at most. */
  lemma ModShift(v: int, n: int)
    requires n > 0 && -n <= v < n
    ensures v % n == if v < 0 then v + n else v
  {
    var q := v / n;
    assert v == n * q + v % n;
    assert q >= 1 ==> n * q >= n;
    assert q <= -2 ==> n * q <= -2 * n;
  }

  lemma KindBack(k: NumKind)
    ensures KindOf(Code(k)) == Some(k) && Code(k) != TEXT && Code(k) != BLOB
  {
  }

  lemma NumberFieldBack(id: byte, k: NumKind, v: int, rest: seq<byte>)
    requires InRange(k, v)
    ensures DecodeOne(Body(Number(id, k, v)) + rest) == Some((Number(id, k, v), rest))
  {
    var raw := ToLE(Raw(v, Width(k)), Width(k));
    var bs := [id, Code(k)] + raw + rest;
    NumberBack(k, v);
    KindBack(k);
    hide ToLE, FromLE, Raw, Cooked, Code, KindOf, InRange;
    assert bs[2..] == raw + rest;
    assert bs[2..][..Width(k)] == raw && bs[2..][Width(k)..] == rest;
  }

  lemma DecodeSized(id: byte, code: byte, tail: seq<byte>, bytes: seq<byte>, rest: seq<byte>)
    requires code == TEXT || code == BLOB
    requires TakeSized(tail, if code == TEXT then 2 else 4) == Some((bytes, rest))
    ensures DecodeOne([id, code] + tail) == Some((if code == TEXT then Text(id, bytes) else Blob(id, bytes), rest))
  {
    hide TakeSized, KindOf;
    var bs := [id, code] + tail;
    assert bs[0] == id && bs[1] == code && bs[2..] == tail;
  }

  lemma SizedFieldBack(id: byte, code: byte, n: nat, bytes: seq<byte>, rest: seq<byte>)
    requires |bytes| < Pow256(n)
    requires (code == TEXT && n == 2) || (code == BLOB && n == 4)
    ensures var f := if code == TEXT then Text(id, bytes) else Blob(id, bytes);
            DecodeOne([id, code] + ToLE(|bytes|, n) + bytes + rest) == Some((f, rest))
  {
    TakeSizedBack(bytes, n, rest);
    var size := ToLE(|bytes|, n);
    hide ToLE, TakeSized, DecodeOne;
    DecodeSized(id, code, size + bytes + rest, bytes, rest);
    PrependFour([id, code], size, bytes, rest);
  }

  lemma PrependFour(a: seq<byte>, b: seq<byte>, c: seq<byte>, d: seq<byte>)
    ensures a + (b + c + d) == a + b + c + d
  {
  }

  /** The decoder reads back one field and leaves the rest. */
  lemma DecodeOneBack(f: Field, rest: seq<byte>)
    requires WellFormed(f)
    ensures DecodeOne(Body(f) + rest) == Some((f, rest))
  {
    Pow256Values();
    hide DecodeOne, ToLE;
    match f
    case Number(id, k, v) => NumberFieldBack(id, k, v, rest);
    case Text(id, bytes) => SizedFieldBack(id, TEXT, 2, bytes, rest);
    case Blob(id, bytes) => SizedFieldBack(id, BLOB, 4, bytes, rest);
  }

  lemma DecodeCons(bs: seq<byte>, f: Field, rest: seq<byte>, fields: seq<Field>)
    requires DecodeOne(bs) == Some((f, rest)) && Decode(rest) == Some(fields)
    ensures Decode(bs) == Some([f] + fields)
  {
    hide DecodeOne;
    assert bs != [];
  }

  /** Decoding inverts encoding for every sequence of fields. */
  lemma {:induction false} DecodeInvertsEncode(fields: seq<Field>)
    requires forall i :: 0 <= i < |fields| ==> WellFormed(fields[i])
    ensures Decode(Encode(fields)) == Some(fields)
  {
    if fields != [] {
      DecodeInvertsEncode(fields[1..]);
      DecodeOneBack(fields[0], Encode(fields[1..]));
      assert Encode(fields) == Body(fields[0]) + Encode(fields[1..]);
      assert fields == [fields[0]] + fields[1..];
      hide DecodeOne, Body, Encode, Decode;
      DecodeCons(Encode(fields), fields[0], Encode(fields[1..]), fields[1..]);
    }
  }

  /** So different sequences of fields have different encodings. */
  lemma EncodingsDiffer(a: seq<Field>, b: seq<Field>)
    requires forall i :: 0 <= i < |a| ==> WellFormed(a[i])
    requires forall i :: 0 <= i < |b| ==> WellFormed(b[i])
    requires a != b
    ensures Encode(a) != Encode(b)
  {
    DecodeInvertsEncode(a);
    DecodeInvertsEncode(b);
  }

  /** Each field's bytes: its id, the code of its type, then a number as two's complement, low byte first,
      in as many bytes as its type has, or a length in two or four bytes and the data. */
  lemma FieldBytes(f: Field)
    requires WellFormed(f)
    ensures var p := Body(f);
            && |p| >= 2 && p[0] == f.id
            && (match f
                case Number(_, k, v) =>
                  && p[1] == (match k
                              case UChar => 1 case UShort => 2 case ULong => 3 case ULongLong => 4
                              case Char => 5 case Short => 6 case Long => 7 case LongLong => 8
                              case Boolean => 11)
                  && |p| - 2 == (match k
                                 case UChar => 1 case Char => 1 case Boolean => 1 case UShort => 2 case Short => 2
                                 case ULong => 4 case Long => 4 case ULongLong => 8 case LongLong => 8)
                  && FromLE(p[2..]) == (if v < 0 then v + Pow256(|p| - 2) else v)
                case Text(_, bytes) => p[1] == 9 && |p| == 4 + |bytes| && FromLE(p[2..4]) == |bytes| && p[4..] == bytes
                case Blob(_, bytes) => p[1] == 10 && |p| == 6 + |bytes| && FromLE(p[2..6]) == |bytes| && p[6..] == bytes)
  {
    Pow256Values();
    match f
    case Number(id, k, v) =>
      NumberBytes(k, v);
      assert Body(f)[2..] == ToLE(Raw(v, Width(k)), Width(k));
    case Text(id, bytes) =>
      FromToLE(|bytes|, 2);
      hide ToLE, FromLE;
      assert Body(f)[2..4] == ToLE(|bytes|, 2) && Body(f)[4..] == bytes;
    case Blob(id, bytes) =>
      FromToLE(|bytes|, 4);
      hide ToLE, FromLE;
      assert Body(f)[2..6] == ToLE(|bytes|, 4) && Body(f)[6..] == bytes;
  }

  lemma NumberBytes(k: NumKind, v: int)
    requires InRange(k, v)
    ensures FromLE(ToLE(Raw(v, Width(k)), Width(k))) == if v < 0 then v + Pow256(Width(k)) else v
  {
    Pow256Values();
    ModShift(v, Pow256(Width(k)));
    hide Pow256, FromLE, ToLE;
    FromToLE(Raw(v, Width(k)), Width(k));
  }

  // ---- the writer ----------------------------------------------------------------------------------------

  lemma WrittenThree(b: Buf, x: seq<byte>, y: seq<byte>, z: seq<byte>, more: seq<seq<byte>>)
    ensures WrittenAll(b, [x, y, z] + more) == WrittenAll(Written(Written(Written(b, x), y), z), more)
  {
    var c := [x, y, z] + more;
    var b1 := Written(b, x);
    assert c[1..] == [y, z] + more && c[2..] == [z] + more && c[3..] == more;
    assert c[1..][1..] == c[2..] && c[2..][1..] == c[3..];
    assert WrittenAll(b1, c[1..]) == WrittenAll(Written(b1, y), c[2..]);
    assert WrittenAll(Written(b1, y), c[2..]) == WrittenAll(Written(Written(b1, y), z), more);
  }

  class Serializer {
    const buffer: Buffer

    ghost predicate Ready(extra: nat)
      reads this, buffer
    {
      buffer.Valid() && buffer.maxSize + extra < TWO32
    }

    constructor (b: Buffer)
      ensures buffer == b
    {
      buffer := b;
    }

    /** A field header and the fixed part that follows it; stops at the first write that fails. */
    method WriteHead(id: byte, code: byte, fixed: seq<byte>) returns (ok: bool)
      requires Ready(8) && 0 < |fixed| <= 8
      modifies buffer, buffer.data
      ensures buffer.Valid() && buffer.data == old(buffer.data) && buffer.maxSize == old(buffer.maxSize)
      ensures buffer.Model() == WrittenAll(old(buffer.Model()), [[id], [code], fixed])
      ensures ok <==> !buffer.overflow && buffer.Model().usable
    {
      ghost var b := buffer.Model();
      WrittenThree(b, [id], [code], fixed, []);
      assert [[id], [code], fixed] + [] == [[id], [code], fixed];
      ok := buffer.WriteBytes([id]);
      if !ok {
        return false;
      }
      ok := buffer.WriteBytes([code]);
      if !ok {
        return false;
      }
      ok := buffer.WriteBytes(fixed);
    }

    method WriteField(f: Field) returns (ok: bool)
      requires WellFormed(f) && Ready(8 + (if f.Number? then 0 else |f.bytes|))
      modifies buffer, buffer.data
      ensures buffer.Valid() && buffer.data == old(buffer.data) && buffer.maxSize == old(buffer.maxSize)
      ensures buffer.Model() == WrittenAll(old(buffer.Model()), Chunks(f))
      ensures ok <==> !buffer.overflow && buffer.Model().usable
    {
      match f {
        case Number(id, k, v) =>
          ok := WriteHead(id, Code(k), ToLE(Raw(v, Width(k)), Width(k)));
        case Text(id, bytes) =>
          WrittenAllAppend(buffer.Model(), [[id], [TEXT], ToLE(|bytes|, 2)], DataChunk(bytes));
          ok := WriteHead(id, TEXT, ToLE(|bytes|, 2));
          ok := WriteData(ok, bytes);
        case Blob(id, bytes) =>
          WrittenAllAppend(buffer.Model(), [[id], [BLOB], ToLE(|bytes|, 4)], DataChunk(bytes));
          ok := WriteHead(id, BLOB, ToLE(|bytes|, 4));
          ok := WriteData(ok, bytes);
      }
    }

    /** The variable part, if the head was written and there is one. */
    method WriteData(headWritten: bool, bytes: seq<byte>) returns (ok: bool)
      requires Ready(|bytes|) && (headWritten <==> !buffer.overflow && buffer.Model().usable)
      modifies buffer, buffer.data
      ensures buffer.Valid() && buffer.data == old(buffer.data) && buffer.maxSize == old(buffer.maxSize)
      ensures buffer.Model() == WrittenAll(old(buffer.Model()), DataChunk(bytes))
      ensures ok <==> !buffer.overflow && buffer.Model().usable
    {
      if !headWritten || |bytes| == 0 {
        StickyOverflowOrNothing(buffer.Model(), bytes);
        return headWritten;
      }
      ok := buffer.WriteBytes(bytes);
    }

    /** A run of fields, one after the other, whatever the single results are. */
    method WriteFields(fields: seq<Field>) returns (ok: bool)
      requires buffer.Valid()
      requires forall i :: 0 <= i < |fields| ==>
                 WellFormed(fields[i]) && buffer.maxSize + 8 + (if fields[i].Number? then 0 else |fields[i].bytes|) < TWO32
      modifies buffer, buffer.data
      ensures buffer.Valid()
      ensures buffer.Model() == WrittenAll(old(buffer.Model()), AllChunks(fields))
      ensures ok <==> !buffer.overflow && buffer.Model().usable
    {
      ok := !buffer.overflow && buffer.data != null;
      ghost var b := buffer.Model();
      for i := 0 to |fields|
        invariant buffer.Valid() && buffer.data == old(buffer.data) && buffer.maxSize == old(buffer.maxSize)
        invariant WrittenAll(buffer.Model(), AllChunks(fields[i..])) == WrittenAll(b, AllChunks(fields))
        invariant ok <==> !buffer.overflow && buffer.Model().usable
      {
        WrittenAllAppend(buffer.Model(), Chunks(fields[i]), AllChunks(fields[i + 1..]));
        assert fields[i..][0] == fields[i] && fields[i..][1..] == fields[i + 1..];
        ok := WriteField(fields[i]);
      }
      assert fields[|fields|..] == [];
    }
  }

  lemma StickyOverflowOrNothing(b: Buf, bytes: seq<byte>)
    requires b.overflow || !b.usable || bytes == []
    ensures WrittenAll(b, DataChunk(bytes)) == b
  {
  }
}
