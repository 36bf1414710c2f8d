/**
 The driver's two serializers and what the service's parser makes of their output.

 Both write a blank record, append the strings that are present, and copy the finished record over the
 blank one.
 */
module EventSerializers {
  import opened Wrappers
  import opened Bytes
  import opened EventBuffer
  import opened EventWire

  datatype Status = Success | InsufficientResources | BufferTooSmall

  /** A `UNICODE_STRING`'s bytes; no buffer is an empty string. */
  type Wide = s: seq<byte> | |s| < 0x1_0000 witness []

  // ---- the common shape -----------------------------------------------------------------------------------

  /** Where the three strings go when the buffer held `base` bytes: offsets and lengths. */
  function Places(base: nat, a: Wide, b: Wide, c: Wide): (ws: seq<u32>)
    ensures |ws| == 6
  {
    var at := base + RECORD;
    [Offset(at, a), |a|, Offset(at + |a|, b), |b|, Offset(at + |a| + |b|, c), |c|]
  }

  function Appended(b: Buf, time: u64, operation: u32, strings: seq<seq<byte>>): Buf {
    WrittenAll(b, [Record(time, operation, [])] + strings)
  }

  /** The buffer after a serializer: everything appended, and the record patched in unless something did
      not fit. */
  function Serialized(b: Buf, time: u64, operation: u32, words: seq<u32>, strings: seq<seq<byte>>): Buf
    requires b.usable && |b.bytes| <= b.max && 4 * |words| <= DATA_BYTES
  {
    var w := Appended(b, time, operation, strings);
    if w.overflow then w
    else
      BufferHoldsPrefix(b, [Record(time, operation, [])] + strings);
      w.(bytes := WriteAt(w.bytes, 0, Record(time, operation, words)))
  }

  /** In a fresh buffer the patch leaves the strings alone, and serializing succeeds exactly when the
      record and the strings fit. */
  lemma FreshSerialized(b: Buf, time: u64, operation: u32, words: seq<u32>, strings: seq<seq<byte>>)
    requires b.usable && b.bytes == [] && !b.overflow && 4 * |words| <= DATA_BYTES
    ensures var r := Serialized(b, time, operation, words, strings);
            && (r.overflow <==> RECORD + |Concat(strings)| > b.max)
            && (!r.overflow ==> r.bytes == Image(time, operation, words, strings))
  {
    hide Record;
    var blank := Record(time, operation, []);
    BufferHoldsPrefix(b, [blank] + strings);
    assert ([blank] + strings)[1..] == strings;
    assert Concat([blank] + strings) == blank + Concat(strings);
    hide Concat, WrittenAll;
    var w := Appended(b, time, operation, strings);
    if !w.overflow {
      assert w.bytes == blank + Concat(strings);
      assert w.bytes[RECORD..] == Concat(strings);
    }
  }

  lemma WrittenFour(b: Buf, r: seq<byte>, x: seq<byte>, y: seq<byte>, z: seq<byte>)
    ensures WrittenAll(b, [r] + [x, y, z]) == Written(Written(Written(Written(b, r), x), y), z)
  {
    var chunks := [r] + [x, y, z];
    assert chunks[1..] == [x, y, z] && [x, y, z][1..] == [y, z] && [y, z][1..] == [z] && [z][1..] == [];
    hide Written;
    assert WrittenAll(b, chunks) == WrittenAll(Written(b, r), [x, y, z]);
    var b1 := Written(b, r);
    assert WrittenAll(b1, [x, y, z]) == WrittenAll(Written(b1, x), [y, z]);
    var b2 := Written(b1, x);
    assert WrittenAll(b2, [y, z]) == WrittenAll(Written(b2, y), [z]);
    var b3 := Written(b2, y);
    assert WrittenAll(b3, [z]) == WrittenAll(Written(b3, z), []);
  }

  /** Appends a string if there is one; the offset it goes to and its length. */
  method AppendString(buffer: Buffer, s: Wide) returns (offset: u32, length: u32)
    requires buffer.Valid() && buffer.maxSize + 0x1_0000 <= TWO32
    modifies buffer, buffer.data
    ensures buffer.Valid() && buffer.data == old(buffer.data) && buffer.maxSize == old(buffer.maxSize)
    ensures buffer.Model() == Written(old(buffer.Model()), s)
    ensures offset == (if s == [] then 0 else old(buffer.currentSize)) && length == |s|
  {
    offset, length := 0, 0;
    if |s| > 0 {
      offset, length := buffer.currentSize, |s|;
      var ok := buffer.WriteBytes(s);
    }
  }

  lemma WrittenSize(b: Buf, s: seq<byte>)
    requires b.usable && !Written(b, s).overflow
    ensures !b.overflow && Written(b, s).bytes == b.bytes + s && Written(b, s).usable
    ensures Written(b, s).max == b.max && (|b.bytes| <= b.max ==> |b.bytes| + |s| <= b.max)
  {
  }

  /** If everything fitted, the sizes read along the way are the strings' places. */
  lemma PlacesRead(b: Buf, rec: seq<byte>, x: Wide, y: Wide, z: Wide)
    requires b.usable && |b.bytes| <= b.max < TWO32 && |rec| == RECORD
    requires !Written(Written(Written(Written(b, rec), x), y), z).overflow
    ensures var b1 := Written(b, rec);
            var b2 := Written(b1, x);
            var b3 := Written(b2, y);
            && !b1.overflow && !b3.overflow && |b3.bytes| >= RECORD
            && Written(b3, z).bytes == b.bytes + rec + x + y + z && |Written(b3, z).bytes| <= b.max
            && Places(|b.bytes|, x, y, z) ==
               [if x == [] then 0 else |b1.bytes|, |x|,
                if y == [] then 0 else |b2.bytes|, |y|,
                if z == [] then 0 else |b3.bytes|, |z|]
  {
    var b1 := Written(b, rec);
    var b2 := Written(b1, x);
    var b3 := Written(b2, y);
    WrittenSize(b3, z);
    WrittenSize(b2, y);
    WrittenSize(b1, x);
    WrittenSize(b, rec);
    hide Written;
    OffsetExact(|b1.bytes|, x);
    OffsetExact(|b2.bytes|, y);
    OffsetExact(|b3.bytes|, z);
    hide Offset;
  }

  lemma OverflowSticks(b: Buf, rec: seq<byte>, x: seq<byte>, y: seq<byte>, z: seq<byte>)
    requires Written(b, rec).overflow
    ensures Written(Written(Written(Written(b, rec), x), y), z) == Written(b, rec)
  {
  }

  /** The end of both serializers. */
  method Finish(buffer: Buffer, time: u64, operation: u32, words: seq<u32>) returns (status: Status)
    requires buffer.Valid() && buffer.data != null && 4 * |words| <= DATA_BYTES
    requires !buffer.overflow ==> RECORD <= buffer.currentSize
    modifies buffer.data
    ensures buffer.Valid() && status == if buffer.overflow then BufferTooSmall else Success
    ensures var b := old(buffer.Model());
            buffer.Model() == if b.overflow then b else b.(bytes := WriteAt(b.bytes, 0, Record(time, operation, words)))
  {
    hide Record, WriteAt;
    if !buffer.overflow {
      buffer.Patch(Record(time, operation, words));
    }
    status := if buffer.overflow then BufferTooSmall else Success;
  }

  /** An event about to be written: its first data words, up to three strings, and how many of their
      offsets and lengths its record has room for. */
  datatype Draft = Draft(time: u64, operation: u32, lead: seq<u32>, places: nat, a: Wide, b: Wide, c: Wide)
  {
    predicate Ok() {
      |lead| <= 3 && places <= 6
    }

    function Strings(): seq<seq<byte>> {
      [a, b, c]
    }

    /** The data words if the buffer held `base` bytes before. */
    function DataWords(base: nat): (ws: seq<u32>)
      requires Ok()
      ensures |ws| == |lead| + places
    {
      lead + Places(base, a, b, c)[..places]
    }

    function Blank(): (bs: seq<byte>)
      ensures |bs| == RECORD
    {
      Record(time, operation, [])
    }

    function Finished(base: nat): (bs: seq<byte>)
      requires Ok()
      ensures |bs| == RECORD
    {
      Record(time, operation, DataWords(base))
    }

    function Bytes(): (bs: seq<byte>)
      requires Ok()
      ensures |bs| >= RECORD
    {
      Image(time, operation, DataWords(0), Strings())
    }

    function Size(): nat {
      RECORD + |a| + |b| + |c|
    }
  }

  /** The result of serializing into a buffer that has memory: for any buffer, what it then holds; for
      a fresh one, success exactly when the event fits, and then its bytes are the event's image. */
  ghost predicate Result(b: Buf, d: Draft, r: Buf, status: Status)
    requires b.usable && |b.bytes| <= b.max && d.Ok()
  {
    && r == Serialized(b, d.time, d.operation, d.DataWords(|b.bytes|), d.Strings())
    && status == (if r.overflow then BufferTooSmall else Success)
    && (b.bytes == [] && !b.overflow ==>
          && (status == Success <==> d.Size() <= b.max)
          && (status == Success ==> r.bytes == d.Bytes()))
  }

  /** The buffer after the writes, in the order they are made. */
  ghost function WritesOf(b: Buf, d: Draft): Buf {
    Written(Written(Written(Written(b, d.Blank()), d.a), d.b), d.c)
  }

  lemma SerializedIs(b: Buf, d: Draft, words: seq<u32>)
    requires b.usable && |b.bytes| <= b.max && 4 * |words| <= DATA_BYTES
    ensures var w, r := WritesOf(b, d), Serialized(b, d.time, d.operation, words, d.Strings());
            && (w.overflow ==> r == w)
            && (!w.overflow ==>
                  && RECORD <= |w.bytes|
                  && r == w.(bytes := WriteAt(w.bytes, 0, Record(d.time, d.operation, words))))
  {
    hide Record, Written, WrittenAll, WriteAt;
    WrittenFour(b, d.Blank(), d.a, d.b, d.c);
    BufferHoldsPrefix(b, [d.Blank()] + d.Strings());
    assert Appended(b, d.time, d.operation, d.Strings()) == WritesOf(b, d);
    if !WritesOf(b, d).overflow {
      LongEnough(b, d);
    }
  }

  lemma LongEnough(b: Buf, d: Draft)
    requires b.usable && !WritesOf(b, d).overflow
    ensures RECORD <= |WritesOf(b, d).bytes|
  {
    hide Record;
  }

  lemma DraftDone(b: Buf, d: Draft)
    requires b.usable && |b.bytes| <= b.max && d.Ok()
    ensures var w := WritesOf(b, d);
            && (w.overflow ==> Result(b, d, w, BufferTooSmall))
            && (!w.overflow ==>
                  && RECORD <= |w.bytes|
                  && Result(b, d, w.(bytes := WriteAt(w.bytes, 0, d.Finished(|b.bytes|))), Success))
  {
    hide WritesOf, Record, WriteAt, Serialized, Image, Places;
    SerializedIs(b, d, d.DataWords(|b.bytes|));
    if b.bytes == [] && !b.overflow {
      ConcatStrings(d.a, d.b, d.c);
      FreshSerialized(b, d.time, d.operation, d.DataWords(0), d.Strings());
    }
  }

  lemma OffsetsRead(b: Buf, d: Draft)
    requires b.usable && |b.bytes| <= b.max < TWO32 && !WritesOf(b, d).overflow
    ensures var b1 := Written(b, d.Blank());
            var b2 := Written(b1, d.a);
            Places(|b.bytes|, d.a, d.b, d.c) ==
            [if d.a == [] then 0 else |b1.bytes|, |d.a|,
             if d.b == [] then 0 else |b2.bytes|, |d.b|,
             if d.c == [] then 0 else |Written(b2, d.b).bytes|, |d.c|]
  {
    hide Record, Written, Offset, Places;
    PlacesRead(b, d.Blank(), d.a, d.b, d.c);
  }

  lemma NothingWritten(b: Buf)
    ensures Written(b, []) == b
  {
  }

  /** If the blank record is refused, so is everything after it. */
  lemma RefusedAtOnce(b: Buf, d: Draft)
    requires b.usable && !Accepts(b, d.Blank())
    ensures WritesOf(b, d) == Written(b, d.Blank()) && WritesOf(b, d).overflow
  {
    hide Record;
    OverflowSticks(b, d.Blank(), d.a, d.b, d.c);
  }

  /** What the parser reads at the places of the three strings. */
  lemma StringsRead(rec: seq<byte>, a: Wide, b: Wide, c: Wide)
    requires |rec| == RECORD
    ensures var p, ws := rec + Concat([a, b, c]), Places(0, a, b, c);
            && StringAt(p, ws[0], ws[1]) == Inside(Units(a))
            && StringAt(p, ws[2], ws[3]) == Inside(Units(b))
            && StringAt(p, ws[4], ws[5]) == Inside(Units(c))
  {
    hide StringAt, Units, Offset, Concat;
    ImageStrings(rec, a, b, c);
    StringReadsBack(rec, a, b + c);
    StringReadsBack(rec + a, b, c);
    StringReadsBack(rec + a + b, c, []);
  }

  // ---- file events ----------------------------------------------------------------------------------------

  /** What the driver knows about a file operation. */
  datatype FileFacts = FileFacts(eventType: int, time: u64, process: u64, processPath: Wide, filePath: Wide)

  function OperationCode(eventType: int): u32 {
    match eventType
    case 100 => 0
    case 102 => 1
    case 103 => 2
    case 104 => 3
    case 105 => 4
    case 106 => 5
    case 101 => 7
    case _ => 0
  }

  function FileDraft(f: FileFacts): (d: Draft)
    ensures d.Ok()
  {
    Draft(f.time, FILE_EVENT, [OperationCode(f.eventType), U32(f.process)], 4, f.processPath, f.filePath, [])
  }

  /** The event the service should see. */
  function FileSeen(f: FileFacts): Event {
    Event(1, f.time / 10, false, FileTag,
          FileData(OperationCode(f.eventType), U32(f.process), Units(f.processPath), Units(f.filePath)))
  }

  /** The operation the service shows for each kind of file event. */
  predicate ShowsOperation(eventType: int, operation: u32) {
    && (eventType == 100 ==> operation == 0)
    && (eventType == 102 ==> operation == 1)
    && (eventType == 103 ==> operation == 2)
    && (eventType == 104 ==> operation == 3)
    && (eventType == 105 ==> operation == 4)
    && (eventType == 106 ==> operation == 5)
    && (eventType == 101 ==> operation == 7)
    && (eventType < 100 || eventType > 106 ==> operation == 0)
  }

  /** What the service shows of a file event, field by field. */
  predicate ShowsFile(e: Event, f: FileFacts) {
    && ShowsEvent(e, f.time) && e.tag.FileTag? && e.data.FileData?
    && ShowsOperation(f.eventType, e.data.operation)
    && e.data.pid == f.process % 0x1_0000_0000
    && Shows(e.data.processPath, f.processPath) && Shows(e.data.filePath, f.filePath)
  }

  lemma FileSeenShows(f: FileFacts)
    ensures ShowsFile(FileSeen(f), f)
  {
    UnitsShow(f.processPath);
    UnitsShow(f.filePath);
    hide Units, Shows;
  }

  lemma FirstFour(lead: seq<u32>, ws: seq<u32>)
    requires |lead| == 2 && |ws| == 6
    ensures lead + ws[..4] == [lead[0], lead[1], ws[0], ws[1], ws[2], ws[3]]
  {
  }

  method SerializeFileEvent(buffer: Buffer, f: FileFacts) returns (status: Status)
    requires buffer.Valid() && buffer.maxSize + 0x1_0000 <= TWO32
    modifies buffer, buffer.data
    ensures buffer.Valid() && buffer.data == old(buffer.data)
    ensures !old(buffer.Model()).usable ==> status == InsufficientResources && buffer.Model() == old(buffer.Model())
    ensures old(buffer.Model()).usable ==> Result(old(buffer.Model()), FileDraft(f), buffer.Model(), status)
  {
    if buffer.data == null {
      return InsufficientResources;
    }
    ghost var b, d := buffer.Model(), FileDraft(f);
    var ok := buffer.WriteBytes(Record(f.time, FILE_EVENT, []));
    DraftDone(b, d);
    if !ok {
      RefusedAtOnce(b, d);
      hide Result, Record, Written, WriteAt;
      return BufferTooSmall;
    }
    hide Result, Record, Written, Accepts, WriteAt, Places;
    var processOffset, processLength := AppendString(buffer, f.processPath);
    var fileOffset, fileLength := AppendString(buffer, f.filePath);
    NothingWritten(buffer.Model());
    assert buffer.Model() == WritesOf(b, d);
    var words := [OperationCode(f.eventType), U32(f.process), processOffset, processLength, fileOffset, fileLength];
    if !buffer.overflow {
      OffsetsRead(b, d);
      FirstFour(d.lead, Places(|b.bytes|, d.a, d.b, d.c));
      assert words == d.DataWords(|b.bytes|);
    }
    hide WritesOf;
    status := Finish(buffer, f.time, FILE_EVENT, words);
  }

  /** The service reads back every field of a file event: the operation code, the low half of the
      process id, both paths as 16-bit units, the time in microseconds; never outside the message. */
  lemma FileRoundTrip(header: seq<byte>, f: FileFacts)
    requires |header| == MESSAGE_HEADER
    ensures Parse(header + FileDraft(f).Bytes()) == Ok(FileSeen(f))
    ensures Parse(header + FileDraft(f).Bytes()).Ok? && ShowsFile(Parse(header + FileDraft(f).Bytes()).event, f)
  {
    FileSeenShows(f);
    FileParsed(header, f);
    hide Parse, FileDraft, FileSeen, ShowsFile;
  }

  /** The bytes of a serialized file event: the packed record with the offsets of the strings that are
      present, then the process path and the file path. */
  lemma FileLayout(f: FileFacts)
    ensures var p, n, m := FileDraft(f).Bytes(), |f.processPath|, |f.filePath|;
            && |p| == 66 + n + m && p[66..] == f.processPath + f.filePath
            && HasU32(p, 0, f.time % 0x1_0000_0000) && HasU32(p, 4, f.time / 0x1_0000_0000)
            && HasU32(p, 8, 1) && HasU32(p, 12, 2) && p[16] == 0
            && (exists operation: u32 :: ShowsOperation(f.eventType, operation) && HasU32(p, 17, operation))
            && HasU32(p, 21, f.process % 0x1_0000_0000)
            && HasU32(p, 25, if n == 0 then 0 else 66) && HasU32(p, 29, n)
            && HasU32(p, 33, if m == 0 then 0 else 66 + n) && HasU32(p, 37, m)
            && (forall i :: 41 <= i < 66 ==> p[i] == 0)
  {
    var d := FileDraft(f);
    var p, words := d.Bytes(), d.DataWords(0);
    RecordLayout(f.time, FILE_EVENT, words, d.Strings());
    ConcatStrings(f.processPath, f.filePath, []);
    FirstFour(d.lead, Places(0, d.a, d.b, d.c));
    OffsetExact(66, f.processPath);
    OffsetExact(66 + |f.processPath|, f.filePath);
    hide Image, Concat, Offset;
    assert f.processPath + f.filePath + [] == f.processPath + f.filePath;
    assert HasU32(p, 17 + 4 * 0, words[0]) && HasU32(p, 17 + 4 * 1, words[1]) && HasU32(p, 17 + 4 * 2, words[2]);
    assert HasU32(p, 17 + 4 * 3, words[3]) && HasU32(p, 17 + 4 * 4, words[4]) && HasU32(p, 17 + 4 * 5, words[5]);
    assert ShowsOperation(f.eventType, words[0]);
  }

  lemma FileParsed(header: seq<byte>, f: FileFacts)
    requires |header| == MESSAGE_HEADER
    ensures Parse(header + FileDraft(f).Bytes()) == Ok(FileSeen(f))
  {
    var d := FileDraft(f);
    var p, msg := d.Bytes(), header + d.Bytes();
    ImageFields(f.time, FILE_EVENT, d.DataWords(0), d.Strings());
    StringsRead(d.Finished(0), f.processPath, f.filePath, []);
    hide Image, Places, StringAt, Units, U32At, U64At;
    assert msg[MESSAGE_HEADER..] == p;
    FileFields(p, d);
  }

  lemma FileFields(p: seq<byte>, d: Draft)
    requires d.Ok() && |d.lead| == 2 && d.places == 4 && |p| >= RECORD
    requires forall k :: 0 <= k < 6 ==> U32At(p, DATA + 4 * k) == d.DataWords(0)[k]
    requires var ws := Places(0, d.a, d.b, d.c);
             StringAt(p, ws[0], ws[1]) == Inside(Units(d.a)) && StringAt(p, ws[2], ws[3]) == Inside(Units(d.b))
    ensures ParseFile(p) == Some(FileData(d.lead[0], d.lead[1], Units(d.a), Units(d.b)))
  {
    hide Places, StringAt, Units, U32At;
    var ws, all := Places(0, d.a, d.b, d.c), d.DataWords(0);
    assert all[0] == d.lead[0] && all[1] == d.lead[1];
    assert all[2] == ws[0] && all[3] == ws[1] && all[4] == ws[2] && all[5] == ws[3];
    assert U32At(p, DATA + 4 * 0) == all[0] && U32At(p, DATA + 4 * 1) == all[1];
    assert U32At(p, DATA + 4 * 2) == all[2] && U32At(p, DATA + 4 * 3) == all[3];
    assert U32At(p, DATA + 4 * 4) == all[4] && U32At(p, DATA + 4 * 5) == all[5];
  }
}
