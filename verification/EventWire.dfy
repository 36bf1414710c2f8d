/**
 The wire format between the driver's serializers and the service's parser: a packed record of 66
 bytes, strings after it, and offsets in the record that lead to them.
 */
module EventWire {
  import opened Wrappers
  import opened Bytes
  import opened EventBuffer

  const RECORD: nat := 66
  const MESSAGE_HEADER: nat := 16
  const DATA: nat := 17
  const DATA_BYTES: nat := 49

  const HOST_LOG: u32 := 1
  const PROCESS_EVENT: u32 := 1
  const FILE_EVENT: u32 := 2
  const NETWORK_EVENT: u32 := 3

  // ---- the record -------------------------------------------------------------------------------------

  function Words(ws: seq<u32>): (bs: seq<byte>)
    ensures |bs| == 4 * |ws|
  {
    if ws == [] then [] else ToLE(ws[0], 4) + Words(ws[1..])
  }

  /** Timestamp, type, operation, the blocked flag, then the data words and zeros up to 66 bytes. */
  function Record(time: u64, operation: u32, words: seq<u32>): (bs: seq<byte>)
    requires 4 * |words| <= DATA_BYTES
    ensures |bs| == RECORD
  {
    ToLE(time, 8) + Words([HOST_LOG, operation]) + [0] + Words(words) + seq(DATA_BYTES - 4 * |words|, _ => 0)
  }

  function U32At(bs: seq<byte>, off: nat): (v: u32)
    requires off + 4 <= |bs|
  {
    Pow256Values();
    FromLE(bs[off..off + 4])
  }

  function U64At(bs: seq<byte>, off: nat): (v: u64)
    requires off + 8 <= |bs|
  {
    Pow256Values();
    FromLE(bs[off..off + 8])
  }

  lemma {:induction false} WordAt(ws: seq<u32>, k: nat)
    requires k < |ws|
    ensures Words(ws)[4 * k..4 * k + 4] == ToLE(ws[k], 4)
  {
    if k > 0 {
      WordAt(ws[1..], k - 1);
      assert Words(ws)[4..] == Words(ws[1..]);
      assert Words(ws)[4 * k..4 * k + 4] == Words(ws)[4..][4 * (k - 1)..4 * (k - 1) + 4];
    }
  }

  /** A slice of the middle of three pieces. */
  lemma SliceOfMiddle(a: seq<byte>, b: seq<byte>, c: seq<byte>, i: nat, n: nat)
    requires i + n <= |b|
    ensures (a + b + c)[|a| + i..|a| + i + n] == b[i..i + n]
  {
  }

  /** A record gives its fields back. */
  lemma RecordTime(time: u64, operation: u32, words: seq<u32>)
    requires 4 * |words| <= DATA_BYTES
    ensures U64At(Record(time, operation, words), 0) == time
  {
    var rec, front := Record(time, operation, words), ToLE(time, 8);
    assert rec[0..8] == front;
    Pow256Values();
    FromToLE(time, 8);
  }

  lemma RecordOperation(time: u64, operation: u32, words: seq<u32>)
    requires 4 * |words| <= DATA_BYTES
    ensures var rec := Record(time, operation, words);
            U32At(rec, 12) == operation && rec[16] == 0
  {
    var rec, kinds := Record(time, operation, words), Words([HOST_LOG, operation]);
    var tail := [0] + Words(words) + seq(DATA_BYTES - 4 * |words|, _ => 0);
    assert rec == ToLE(time, 8) + kinds + tail;
    SliceOfMiddle(ToLE(time, 8), kinds, tail, 4, 4);
    WordAt([HOST_LOG, operation], 1);
    RoundTrip32(operation);
  }

  lemma RecordWord(time: u64, operation: u32, words: seq<u32>, k: nat)
    requires 4 * |words| <= DATA_BYTES && k < |words|
    ensures U32At(Record(time, operation, words), DATA + 4 * k) == words[k]
  {
    var front := ToLE(time, 8) + Words([HOST_LOG, operation]) + [0];
    SliceOfMiddle(front, Words(words), seq(DATA_BYTES - 4 * |words|, _ => 0), 4 * k, 4);
    WordAt(words, k);
    RoundTrip32(words[k]);
  }

  /** The four bytes at an offset hold a number, low byte first. */
  predicate HasU32(p: seq<byte>, off: nat, v: int) {
    off + 4 <= |p| && v == p[off] + 0x100 * (p[off + 1] as int) + 0x1_0000 * (p[off + 2] as int) + 0x100_0000 * (p[off + 3] as int)
  }

  lemma U32AtHas(p: seq<byte>, off: nat)
    requires off + 4 <= |p|
    ensures HasU32(p, off, U32At(p, off))
  {
    LittleEndian(p[off..off + 4]);
  }

  /** The packed layout, byte by byte: time at 0, the type 1 at 8, the operation at 12, the blocked flag at
      16, the data words from 17, zeros up to 66, then the strings. */
  lemma RecordLayout(time: u64, operation: u32, words: seq<u32>, strings: seq<seq<byte>>)
    requires 4 * |words| <= 49
    ensures var p := Image(time, operation, words, strings);
            && |p| == 66 + |Concat(strings)| && p[66..] == Concat(strings)
            && HasU32(p, 0, time % 0x1_0000_0000) && HasU32(p, 4, time / 0x1_0000_0000)
            && HasU32(p, 8, 1) && HasU32(p, 12, operation) && p[16] == 0
            && (forall k :: 0 <= k < |words| ==> HasU32(p, 17 + 4 * k, words[k]))
            && (forall i :: 17 + 4 * |words| <= i < 66 ==> p[i] == 0)
  {
    var rec, p := Record(time, operation, words), Image(time, operation, words, strings);
    assert p[..66] == rec && p[66..] == Concat(strings);
    ImageFields(time, operation, words, strings);
    RecordType(time, operation, words);
    TimeHalves(time);
    assert rec[0..8] == ToLE(time, 8);
    assert p[0..4] == ToLE(time, 8)[0..4] && p[4..8] == ToLE(time, 8)[4..8] && p[8..12] == rec[8..12];
    U32AtHas(p, 0);
    U32AtHas(p, 4);
    U32AtHas(p, 8);
    U32AtHas(p, 12);
    forall k | 0 <= k < |words|
      ensures HasU32(p, 17 + 4 * k, words[k])
    {
      U32AtHas(p, 17 + 4 * k);
    }
    RecordPadding(time, operation, words);
    assert forall i :: 0 <= i < 66 ==> p[i] == rec[i];
  }

  lemma RecordType(time: u64, operation: u32, words: seq<u32>)
    requires 4 * |words| <= DATA_BYTES
    ensures FromLE(Record(time, operation, words)[8..12]) == 1
  {
    var kinds := Words([HOST_LOG, operation]);
    var tail := [0] + Words(words) + seq(DATA_BYTES - 4 * |words|, _ => 0);
    assert Record(time, operation, words) == ToLE(time, 8) + kinds + tail;
    SliceOfMiddle(ToLE(time, 8), kinds, tail, 0, 4);
    WordAt([HOST_LOG, operation], 0);
    RoundTrip32(1);
  }

  lemma RecordPadding(time: u64, operation: u32, words: seq<u32>)
    requires 4 * |words| <= DATA_BYTES
    ensures forall i :: 17 + 4 * |words| <= i < 66 ==> Record(time, operation, words)[i] == 0
  {
    var rec := Record(time, operation, words);
    var front, zeros := ToLE(time, 8) + Words([HOST_LOG, operation]) + [0] + Words(words), seq(DATA_BYTES - 4 * |words|, _ => 0);
    assert |front| == 17 + 4 * |words| && rec == front + zeros;
    forall i | 17 + 4 * |words| <= i < 66
      ensures rec[i] == 0
    {
      assert rec[i] == zeros[i - |front|];
    }
  }

  /** The two halves of a 64-bit number. */
  lemma TimeHalves(time: u64)
    ensures FromLE(ToLE(time, 8)[0..4]) == time % 0x1_0000_0000
    ensures FromLE(ToLE(time, 8)[4..8]) == time / 0x1_0000_0000
  {
    ToLESplit(time, 4, 4);
    Pow256Values();
    var bs := ToLE(time, 8);
    assert bs[0..4] == bs[..4] && bs[4..8] == bs[4..];
    assert time / TWO32 < TWO32;
    FromToLE(time % 0x1_0000_0000, 4);
    FromToLE(time / 0x1_0000_0000, 4);
  }

  /** The low bytes of a number are those of its remainder, the high ones those of its quotient. */
  lemma {:induction false} ToLESplit(v: nat, n: nat, m: nat)
    ensures ToLE(v, n + m)[..n] == ToLE(v % Pow256(n), n)
    ensures ToLE(v, n + m)[n..] == ToLE(v / Pow256(n), m)
  {
    if n > 0 {
      ToLESplit(v / 256, n - 1, m);
      DigitSplit(v, Pow256(n - 1));
      var q := Pow256(n - 1);
      assert ToLE(v, n + m) == [v % 256] + ToLE(v / 256, n - 1 + m);
      assert ToLE(v % Pow256(n), n) == [v % Pow256(n) % 256] + ToLE(v % Pow256(n) / 256, n - 1);
    }
  }

  lemma DigitSplit(v: nat, q: nat)
    requires q > 0
    ensures v % (256 * q) % 256 == v % 256 && v % (256 * q) / 256 == v / 256 % q && v / (256 * q) == v / 256 / q
  {
    var a, b := v / 256, v % 256;
    var c, d := a / q, a % q;
    assert v == 256 * a + b && a == q * c + d;
    assert 256 * (q * c) == 256 * q * c;
    var low := 256 * d + b;
    assert v == 256 * q * c + low && 0 <= low < 256 * q;
    UniqueQuotient(v, 256 * q, c, low);
    UniqueQuotient(low, 256, d, b);
  }

  lemma UniqueQuotient(v: nat, n: nat, k: nat, r: nat)
    requires n > 0 && v == n * k + r && r < n
    ensures v / n == k && v % n == r
  {
    var q := v / n;
    assert v == n * q + v % n;
    assert q > k ==> n * q >= n * (k + 1) == n * k + n;
    assert q < k ==> n * k >= n * (q + 1) == n * q + n;
  }

  // ---- strings ------------------------------------------------------------------------------------------

  function Unit(low: int, high: int): u16
    requires 0 <= low < 256 && 0 <= high < 256
  {
    low + 256 * high
  }

  /** 16-bit units, low byte first; an odd last byte is left out. */
  function Units(bs: seq<byte>): (us: seq<u16>)
    ensures |us| == |bs| / 2
  {
    if |bs| < 2 then [] else [Unit(bs[0], bs[1])] + Units(bs[2..])
  }

  function UnitBytes(us: seq<u16>): (bs: seq<byte>)
    ensures |bs| == 2 * |us|
  {
    if us == [] then [] else [us[0] % 256, us[0] / 256] + UnitBytes(us[1..])
  }

  /** Units are the bytes two by two, low byte first. */
  predicate Shows(us: seq<u16>, bs: seq<byte>) {
    && |us| == |bs| / 2
    && (forall k :: 0 <= k < |us| ==> us[k] == bs[2 * k] + 0x100 * (bs[2 * k + 1] as int))
  }

  lemma {:induction false} UnitsShow(bs: seq<byte>)
    ensures Shows(Units(bs), bs)
  {
    if |bs| >= 2 {
      var us, rest := Units(bs), Units(bs[2..]);
      UnitsShow(bs[2..]);
      forall k | 0 <= k < |us|
        ensures us[k] == bs[2 * k] + 0x100 * (bs[2 * k + 1] as int)
      {
        if k > 0 {
          assert us[k] == rest[k - 1];
          assert bs[2..][2 * (k - 1)] == bs[2 * k] && bs[2..][2 * (k - 1) + 1] == bs[2 * k + 1];
        }
      }
    }
  }

  /** Reading units loses nothing exactly when the length is even. */
  lemma {:induction false} UnitsLoseNothingIff(bs: seq<byte>)
    ensures UnitBytes(Units(bs)) == bs <==> |bs| % 2 == 0
    ensures UnitBytes(Units(bs)) <= bs
  {
    if |bs| >= 2 {
      UnitsLoseNothingIff(bs[2..]);
      assert bs == [bs[0], bs[1]] + bs[2..];
      assert Units(bs)[1..] == Units(bs[2..]);
    }
  }

  lemma {:induction false} UnitsOfBytes(us: seq<u16>)
    ensures Units(UnitBytes(us)) == us
  {
    if us != [] {
      UnitsOfBytes(us[1..]);
      assert UnitBytes(us)[2..] == UnitBytes(us[1..]);
    }
  }

  /** The bytes of as many whole units as `n` bytes hold. */
  function Whole(n: nat): (m: nat)
    ensures m <= n
  {
    n / 2 * 2
  }

  lemma {:induction false} UnitsOfWhole(bs: seq<byte>)
    ensures Units(bs[..Whole(|bs|)]) == Units(bs)
  {
    if |bs| >= 2 {
      UnitsOfWhole(bs[2..]);
      assert bs[..Whole(|bs|)][2..] == bs[2..][..Whole(|bs[2..]|)];
    }
  }

  // ---- the parser -----------------------------------------------------------------------------------------

  datatype Tag = FileTag | ProcessTag | NetworkTag

  datatype Data =
    | FileData(operation: u32, pid: u32, processPath: seq<u16>, filePath: seq<u16>)
    | ProcessData(operation: u32, pid: u32, parent: u32,
                  processPath: seq<u16>, commandLine: seq<u16>, parentPath: seq<u16>)
    | NetworkData(operation: u32, protocol: u32, localPort: u16, remotePort: u16, dataLength: u32)

  /** `micros`: the timestamp in microseconds. */
  datatype Event = Event(id: nat, micros: nat, blocked: bool, tag: Tag, data: Data)

  /** `Outside`: the code would read memory beyond the message. */
  datatype Parsed = Ok(event: Event) | UnknownEvent | Outside

  /** None: the read leaves the message. */
  datatype Text = Inside(units: seq<u16>) | Beyond

  /** The string at an offset in the payload `p`.  Only its start is tested against the end. */
  function StringAt(p: seq<byte>, off: u32, length: u32): Text {
    if length == 0 || off >= |p| || length / 2 == 0 then Inside([])
    else if off + Whole(length) > |p| then Beyond
    else Inside(Units(p[off..off + Whole(length)]))
  }

  /** Network byte order. */
  function PortAt(p: seq<byte>, off: nat): u16
    requires off + 2 <= |p|
  {
    Unit(p[off + 1], p[off])
  }

  function ParseFile(p: seq<byte>): Option<Data> {
    if |p| < DATA + 24 then None
    else
      var processPath := StringAt(p, U32At(p, DATA + 8), U32At(p, DATA + 12));
      var filePath := StringAt(p, U32At(p, DATA + 16), U32At(p, DATA + 20));
      if processPath.Beyond? || filePath.Beyond? then None
      else Some(FileData(U32At(p, DATA), U32At(p, DATA + 4), processPath.units, filePath.units))
  }

  function ParseProcess(p: seq<byte>): Option<Data> {
    if |p| < DATA + 36 then None
    else
      var processPath := StringAt(p, U32At(p, DATA + 12), U32At(p, DATA + 16));
      var commandLine := StringAt(p, U32At(p, DATA + 20), U32At(p, DATA + 24));
      var parentPath := StringAt(p, U32At(p, DATA + 28), U32At(p, DATA + 32));
      if processPath.Beyond? || commandLine.Beyond? || parentPath.Beyond? then None
      else Some(ProcessData(U32At(p, DATA), U32At(p, DATA + 4), U32At(p, DATA + 8),
                            processPath.units, commandLine.units, parentPath.units))
  }

  /** Addresses are not kept. */
  function ParseNetwork(p: seq<byte>): Option<Data> {
    if |p| < RECORD then None
    else Some(NetworkData(U32At(p, DATA), U32At(p, DATA + 4), PortAt(p, DATA + 8), PortAt(p, DATA + 10),
                          U32At(p, DATA + 44)))
  }

  function Parse(msg: seq<byte>): Parsed {
    if |msg| < MESSAGE_HEADER + DATA then Outside
    else
      var p := msg[MESSAGE_HEADER..];
      var operation := U32At(p, 12);
      if operation !in {PROCESS_EVENT, FILE_EVENT, NETWORK_EVENT} then UnknownEvent
      else
        var (tag, data) :=
          if operation == FILE_EVENT then (FileTag, ParseFile(p))
          else if operation == PROCESS_EVENT then (ProcessTag, ParseProcess(p))
          else (NetworkTag, ParseNetwork(p));
        match data
        case None => Outside
        case Some(d) => Ok(Event(1, U64At(p, 0) / 10, p[16] != 0, tag, d))
  }

  /** A string is empty if its length or its place says so, shows the bytes it leads to, or leaves the message:
      only its start is tested against the end. */
  lemma StringOutcome(p: seq<byte>, off: u32, length: u32)
    ensures if length < 2 || off >= |p| then StringAt(p, off, length) == Inside([])
            else if off + 2 * (length / 2) > |p| then StringAt(p, off, length) == Beyond
            else
              && StringAt(p, off, length).Inside?
              && Shows(StringAt(p, off, length).units, p[off..off + 2 * (length / 2)])
  {
    if 2 <= length && off + 2 * (length / 2) <= |p| {
      UnitsShow(p[off..off + 2 * (length / 2)]);
    }
  }

  /** What kind of result any message has: unknown unless its operation is 1, 2 or 3; an event that is parsed
      has the tag and the variant of its operation, its own time and its own blocked flag. */
  lemma ParseOutcome(msg: seq<byte>)
    ensures |msg| < 33 ==> Parse(msg) == Outside
    ensures |msg| >= 33 ==>
              var operation, seen := U32At(msg, 28), Parse(msg);
              && (seen.UnknownEvent? <==> operation != 1 && operation != 2 && operation != 3)
              && (seen.Ok? ==>
                    && seen.event.id == 1 && seen.event.micros == U64At(msg, 16) / 10
                    && (seen.event.blocked <==> msg[32] != 0)
                    && (if operation == 1 then seen.event.tag.ProcessTag? && seen.event.data.ProcessData?
                        else if operation == 2 then seen.event.tag.FileTag? && seen.event.data.FileData?
                        else seen.event.tag.NetworkTag? && seen.event.data.NetworkData?))
  {
    if |msg| >= 33 {
      var p := msg[16..];
      assert p[12..16] == msg[28..32] && p[0..8] == msg[16..24] && p[16] == msg[32];
      hide StringAt, FromLE;
    }
  }

  /** A network event's record as its layout has it, ports in network byte order. */
  function NetworkRecord(time: u64, operation: u32, protocol: u32, localPort: u16, remotePort: u16,
                         addresses: seq<byte>, dataLength: u32, family: byte): (bs: seq<byte>)
    requires |addresses| == 32
    ensures |bs| == 66
  {
    ToLE(time, 8) + ToLE(1, 4) + ToLE(3, 4) + [0] + ToLE(operation, 4) + ToLE(protocol, 4)
    + [localPort / 256, localPort % 256, remotePort / 256, remotePort % 256] + addresses + ToLE(dataLength, 4) + [family]
  }

  lemma NetworkRead(header: seq<byte>, time: u64, operation: u32, protocol: u32, localPort: u16, remotePort: u16,
                    addresses: seq<byte>, dataLength: u32, family: byte)
    requires |header| == MESSAGE_HEADER && |addresses| == 32
    ensures Parse(header + NetworkRecord(time, operation, protocol, localPort, remotePort, addresses, dataLength, family)) ==
            Ok(Event(1, time / 10, false, NetworkTag, NetworkData(operation, protocol, localPort, remotePort, dataLength)))
  {
    var p := NetworkRecord(time, operation, protocol, localPort, remotePort, addresses, dataLength, family);
    var msg := header + p;
    assert msg[16..] == p;
    Pow256Values();
    FromToLE(time, 8);
    RoundTrip32(3);
    RoundTrip32(operation);
    RoundTrip32(protocol);
    RoundTrip32(dataLength);
    hide ToLE, FromLE, Pow256, ParseFile, ParseProcess;
    assert p[0..8] == ToLE(time, 8) && p[12..16] == ToLE(3, 4) && p[16] == 0;
    assert p[17..21] == ToLE(operation, 4) && p[21..25] == ToLE(protocol, 4) && p[61..65] == ToLE(dataLength, 4);
    assert p[25..29] == [localPort / 256, localPort % 256, remotePort / 256, remotePort % 256];
    assert p[25] == p[25..29][0] && p[26] == p[25..29][1] && p[27] == p[25..29][2] && p[28] == p[25..29][3];
  }

  /** The fields every event has: the number 1, the time in microseconds rounded down, not blocked. */
  predicate ShowsEvent(e: Event, time: u64) {
    e.id == 1 && 10 * e.micros <= time < 10 * e.micros + 10 && !e.blocked
  }

  // ---- where the strings are ------------------------------------------------------------------------------

  /** The offset stored for a string that starts at `at`; an absent string stores zero. */
  function Offset(at: nat, s: seq<byte>): u32 {
    if s == [] then 0 else U32(at)
  }

  lemma OffsetExact(at: nat, s: seq<byte>)
    requires at < TWO32
    ensures Offset(at, s) == if s == [] then 0 else at
  {
  }

  lemma StringRead(p: seq<byte>, off: u32, length: u32)
    requires length > 0 && off + length <= |p|
    ensures StringAt(p, off, length) == Inside(Units(p[off..off + Whole(length)]))
  {
  }

  lemma NoString(p: seq<byte>)
    ensures StringAt(p, 0, 0) == Inside(Units([]))
  {
  }

  /** The offset and length stored for a string lead the parser back to it. */
  lemma StringReadsBack(front: seq<byte>, s: seq<byte>, back: seq<byte>)
    requires |front| + |s| < TWO32
    ensures StringAt(front + s + back, Offset(|front|, s), |s|) == Inside(Units(s))
  {
    hide Offset, StringAt, Units, Whole, U32;
    var p, n := front + s + back, Whole(|s|);
    OffsetExact(|front|, s);
    if s == [] {
      NoString(p);
    } else {
      UnitsOfWhole(s);
      SliceOfMiddle(front, s, back, 0, n);
      StringRead(p, |front|, |s|);
    }
  }

  /** A finished event: the record, then the strings. */
  function Image(time: u64, operation: u32, words: seq<u32>, strings: seq<seq<byte>>): (bs: seq<byte>)
    requires 4 * |words| <= DATA_BYTES
    ensures |bs| >= RECORD
  {
    Record(time, operation, words) + Concat(strings)
  }

  /** The fields of an event, read from behind the message header. */
  lemma ImageFields(time: u64, operation: u32, words: seq<u32>, strings: seq<seq<byte>>)
    requires 4 * |words| <= DATA_BYTES
    ensures var p := Image(time, operation, words, strings);
            && U64At(p, 0) == time && U32At(p, 12) == operation && p[16] == 0
            && (forall k :: 0 <= k < |words| ==> U32At(p, DATA + 4 * k) == words[k])
  {
    var rec, p := Record(time, operation, words), Image(time, operation, words, strings);
    assert p[..RECORD] == rec;
    RecordTime(time, operation, words);
    RecordOperation(time, operation, words);
    assert p[0..8] == rec[0..8] && p[12..16] == rec[12..16];
    forall k | 0 <= k < |words|
      ensures U32At(p, DATA + 4 * k) == words[k]
    {
      RecordWord(time, operation, words, k);
      assert p[DATA + 4 * k..DATA + 4 * k + 4] == rec[DATA + 4 * k..DATA + 4 * k + 4];
    }
  }

  /** What lies before and after each of the three strings. */
  lemma ImageStrings(rec: seq<byte>, a: seq<byte>, b: seq<byte>, c: seq<byte>)
    ensures var p := rec + Concat([a, b, c]);
            && p == rec + a + (b + c)
            && p == (rec + a) + b + c
            && p == (rec + a + b) + c + []
  {
    ConcatStrings(a, b, c);
  }

  lemma ConcatStrings(a: seq<byte>, b: seq<byte>, c: seq<byte>)
    ensures Concat([a, b, c]) == a + b + c
  {
    ConcatThree(a, b, c, []);
    assert [a, b, c] + [] == [a, b, c];
  }
}
