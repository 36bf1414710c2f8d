/**
 Process notifications: the serializer that also feeds and reads the process cache, its round trip,
 and what a terminate event reports after any history.
 */
module ProcessEvents {
  import opened Wrappers
  import opened Bytes
  import opened EventBuffer
  import opened EventWire
  import opened EventSerializers
  import Cache = ProcessCache

  /** What the kernel tells about a new process. */
  datatype Creation = Creation(parent: u64, creator: u64, imageName: Wide, openNameAvailable: bool, commandLine: Wide)

  /** A notification; without a creation the process has ended. */
  datatype Notification = Notification(time: u64, pid: u64, info: Option<Creation>)

  /** The data of a process event before it is laid out. */
  datatype Report = Report(operation: u32, pid: u32, parent: u32, path: Wide, commandLine: Wide, parentPath: Wide)

  // ---- what is reported -------------------------------------------------------------------------------------

  /** A notification as the cache takes it; `memory`: whether a new entry could be allocated. */
  function NoticeOf(n: Notification, memory: bool): Cache.Notice {
    match n.info
    case Some(c) => if memory then Cache.Created(n.pid, c.parent, c.creator, c.imageName) else Cache.Ignored
    case None => Cache.Terminated(n.pid)
  }

  function CacheAfter(v: Cache.View, n: Notification, memory: bool): Cache.View {
    Cache.Noted(v, NoticeOf(n, memory))
  }

  /** A parent path comes from the cache after the new process is in it, a terminated process's
      parent and path from the cache before it leaves. */
  function ReportOf(v: Cache.View, n: Notification, memory: bool): Report {
    match n.info
    case Some(c) =>
      var after := CacheAfter(v, n, memory);
      Report(0, U32(n.pid), U32(c.parent), if c.openNameAvailable then c.imageName else [], c.commandLine,
             if c.parent in after then after[c.parent].imagePath else [])
    case None =>
      if n.pid in v then Report(1, U32(n.pid), U32(v[n.pid].parent), v[n.pid].imagePath, [], [])
      else Report(1, U32(n.pid), 0, [], [], [])
  }

  function ProcessDraft(time: u64, r: Report): (d: Draft)
    ensures d.Ok()
  {
    Draft(time, PROCESS_EVENT, [r.operation, r.pid, r.parent], 6, r.path, r.commandLine, r.parentPath)
  }

  function ProcessSeen(time: u64, r: Report): Event {
    Event(1, time / 10, false, ProcessTag,
          ProcessData(r.operation, r.pid, r.parent, Units(r.path), Units(r.commandLine), Units(r.parentPath)))
  }

  // ---- the serializer ---------------------------------------------------------------------------------------

  lemma AllSix(lead: seq<u32>, ws: seq<u32>)
    requires |lead| == 3 && |ws| == 6
    ensures lead + ws[..6] == [lead[0], lead[1], lead[2], ws[0], ws[1], ws[2], ws[3], ws[4], ws[5]]
  {
  }

  /** The image path of a cached process, empty if it is not cached. */
  method CachedPath(cache: Cache.ProcessCache, pid: u64) returns (path: Wide)
    requires cache.Valid()
    modifies cache
    ensures cache.Valid() && cache.view == old(cache.view)
    ensures old(cache.StatsExact()) ==> cache.StatsExact()
    ensures path == if pid in cache.view then cache.view[pid].imagePath else []
  {
    path := [];
    var cached := cache.IsProcessCached(pid);
    if cached {
      var entry := cache.GetProcessContext(pid);
      if entry.Some? {
        path := entry.value.imagePath;
      }
    }
  }

  /** The three strings appended to `b`, and the places they went to. */
  ghost predicate WroteStrings(b: Buf, r: Report, b': Buf, places: seq<u32>) {
    var b1 := Written(b, r.path);
    var b2 := Written(b1, r.commandLine);
    && b' == Written(b2, r.parentPath)
    && places == [if r.path == [] then 0 else |b.bytes|, |r.path|,
                  if r.commandLine == [] then 0 else |b1.bytes|, |r.commandLine|,
                  if r.parentPath == [] then 0 else |b2.bytes|, |r.parentPath|]
  }

  /** A new process: it is cached first, then its strings are written. */
  method WriteCreation(buffer: Buffer, cache: Cache.ProcessCache, n: Notification, c: Creation, memory: bool)
      returns (places: seq<u32>)
    requires buffer.Valid() && buffer.maxSize + 0x1_0000 <= TWO32 && cache.Valid() && n.info == Some(c)
    modifies buffer, buffer.data, cache, cache.table
    ensures buffer.Valid() && buffer.data == old(buffer.data) && buffer.maxSize == old(buffer.maxSize)
    ensures cache.Valid() && cache.view == CacheAfter(old(cache.view), n, memory)
    ensures old(cache.StatsExact()) ==> cache.StatsExact()
    ensures WroteStrings(old(buffer.Model()), ReportOf(old(cache.view), n, memory), buffer.Model(), places)
  {
    hide Written;
    ghost var v := cache.view;
    var status := cache.AddProcess(n.pid, c.parent, c.creator, c.imageName, memory);
    assert cache.view == CacheAfter(v, n, memory);
    var pathOffset, pathLength := AppendString(buffer, if c.openNameAvailable then c.imageName else []);
    var lineOffset, lineLength := AppendString(buffer, c.commandLine);
    var parentPath := CachedPath(cache, c.parent);
    var parentOffset, parentLength := AppendString(buffer, parentPath);
    places := [pathOffset, pathLength, lineOffset, lineLength, parentOffset, parentLength];
  }

  /** A process that ends: its parent and path are looked up, and it leaves the cache. */
  method WriteTermination(buffer: Buffer, cache: Cache.ProcessCache, n: Notification)
      returns (parent: u32, places: seq<u32>)
    requires buffer.Valid() && buffer.maxSize + 0x1_0000 <= TWO32 && cache.Valid() && n.info == None
    modifies buffer, buffer.data, cache, cache.table
    ensures buffer.Valid() && buffer.data == old(buffer.data) && buffer.maxSize == old(buffer.maxSize)
    ensures cache.Valid() && cache.view == CacheAfter(old(cache.view), n, true)
    ensures old(cache.StatsExact()) ==> cache.StatsExact()
    ensures parent == ReportOf(old(cache.view), n, true).parent
    ensures WroteStrings(old(buffer.Model()), ReportOf(old(cache.view), n, true), buffer.Model(), places)
  {
    parent, places := 0, [0, 0, 0, 0, 0, 0];
    var entry := cache.GetProcessContext(n.pid);
    NothingWritten(buffer.Model());
    if entry.Some? {
      hide Written;
      parent := U32(entry.value.parent);
      var offset, length := AppendString(buffer, entry.value.imagePath);
      NothingWritten(buffer.Model());
      places := [offset, length, 0, 0, 0, 0];
      var removed := cache.RemoveProcess(n.pid);
    }
    assert cache.view == old(cache.view) - {n.pid};
  }

  /** `result` and the buffer as `Result` says of the report; the cache is told unless the buffer does
      not even take the blank record. */
  method SerializeProcessEvent(buffer: Buffer, cache: Cache.ProcessCache, n: Notification, memory: bool)
      returns (status: Status)
    requires buffer.Valid() && buffer.maxSize + 0x1_0000 <= TWO32 && cache.Valid()
    modifies buffer, buffer.data, cache, cache.table
    ensures buffer.Valid() && buffer.data == old(buffer.data) && cache.Valid()
    ensures old(cache.StatsExact()) ==> cache.StatsExact()
    ensures !old(buffer.Model()).usable ==> status == InsufficientResources && buffer.Model() == old(buffer.Model())
    ensures old(buffer.Model()).usable ==>
              Result(old(buffer.Model()), ProcessDraft(n.time, ReportOf(old(cache.view), n, memory)),
                     buffer.Model(), status)
    ensures cache.view == if Accepts(old(buffer.Model()), Record(n.time, PROCESS_EVENT, []))
                          then CacheAfter(old(cache.view), n, memory) else old(cache.view)
  {
    if buffer.data == null {
      return InsufficientResources;
    }
    hide Record, Places, WriteAt, Result, WroteStrings;
    ghost var b, r := buffer.Model(), ReportOf(cache.view, n, memory);
    ghost var d := ProcessDraft(n.time, r);
    var ok := buffer.WriteBytes(Record(n.time, PROCESS_EVENT, []));
    DraftDone(b, d);
    if !ok {
      RefusedAtOnce(b, d);
      return BufferTooSmall;
    }
    hide Written, Accepts;
    ghost var b1 := buffer.Model();
    var words: seq<u32>, places;
    match n.info {
      case Some(c) =>
        places := WriteCreation(buffer, cache, n, c, memory);
        words := [0, U32(n.pid), U32(c.parent)] + places;
      case None =>
        var parent;
        parent, places := WriteTermination(buffer, cache, n);
        words := [1, U32(n.pid), parent] + places;
    }
    AfterStrings(b, d, r, buffer.Model(), places);
    hide WritesOf;
    status := Finish(buffer, n.time, PROCESS_EVENT, words);
  }

  /** Once the strings are written, the buffer is what the draft's writes make it, and the places are
      the draft's if nothing overflowed. */
  lemma AfterStrings(b: Buf, d: Draft, r: Report, b': Buf, places: seq<u32>)
    requires b.usable && |b.bytes| <= b.max < TWO32
    requires d == ProcessDraft(d.time, r) && WroteStrings(Written(b, d.Blank()), r, b', places)
    ensures b' == WritesOf(b, d)
    ensures |places| == 6 && (!b'.overflow ==> [r.operation, r.pid, r.parent] + places == d.DataWords(|b.bytes|))
  {
    hide Written, Record, Places;
    if !b'.overflow {
      OffsetsRead(b, d);
      PlacesRead(b, d.Blank(), d.a, d.b, d.c);
      AllSix(d.lead, Places(|b.bytes|, d.a, d.b, d.c));
    }
  }

  // ---- the round trip -----------------------------------------------------------------------------------------

  /** The service reads back every field of a process event, absent strings as empty ones, without a
      read outside the message. */
  lemma ProcessRoundTrip(header: seq<byte>, time: u64, r: Report)
    requires |header| == MESSAGE_HEADER
    ensures Parse(header + ProcessDraft(time, r).Bytes()) == Ok(ProcessSeen(time, r))
  {
    var d := ProcessDraft(time, r);
    var p, msg := d.Bytes(), header + d.Bytes();
    ImageFields(time, PROCESS_EVENT, d.DataWords(0), d.Strings());
    StringsRead(d.Finished(0), r.path, r.commandLine, r.parentPath);
    hide Image, Places, StringAt, Units, U32At, U64At;
    assert msg[MESSAGE_HEADER..] == p;
    ProcessFields(p, d);
  }

  lemma ProcessFields(p: seq<byte>, d: Draft)
    requires d.Ok() && |d.lead| == 3 && d.places == 6 && |p| >= RECORD
    requires forall k :: 0 <= k < 9 ==> U32At(p, DATA + 4 * k) == d.DataWords(0)[k]
    requires var ws := Places(0, d.a, d.b, d.c);
             && StringAt(p, ws[0], ws[1]) == Inside(Units(d.a)) && StringAt(p, ws[2], ws[3]) == Inside(Units(d.b))
             && StringAt(p, ws[4], ws[5]) == Inside(Units(d.c))
    ensures ParseProcess(p) ==
            Some(ProcessData(d.lead[0], d.lead[1], d.lead[2], Units(d.a), Units(d.b), Units(d.c)))
  {
    hide Places, StringAt, Units, U32At;
    var all := d.DataWords(0);
    AllSix(d.lead, Places(0, d.a, d.b, d.c));
    assert U32At(p, DATA + 4 * 0) == all[0] && U32At(p, DATA + 4 * 1) == all[1] && U32At(p, DATA + 4 * 2) == all[2];
    assert U32At(p, DATA + 4 * 3) == all[3] && U32At(p, DATA + 4 * 4) == all[4] && U32At(p, DATA + 4 * 5) == all[5];
    assert U32At(p, DATA + 4 * 6) == all[6] && U32At(p, DATA + 4 * 7) == all[7] && U32At(p, DATA + 4 * 8) == all[8];
  }

  // ---- histories ----------------------------------------------------------------------------------------------

  /** A notification of the past; `memory`: whether its entry could be allocated. */
  datatype Past = Past(n: Notification, memory: bool)

  /** The cache after a history. */
  function ViewAfter(ns: seq<Past>): Cache.View {
    if ns == [] then map[] else CacheAfter(ViewAfter(ns[..|ns| - 1]), ns[|ns| - 1].n, ns[|ns| - 1].memory)
  }

  function Notices(ns: seq<Past>): (hs: seq<Cache.Notice>)
    ensures |hs| == |ns|
  {
    seq(|ns|, i requires 0 <= i < |ns| => NoticeOf(ns[i].n, ns[i].memory))
  }

  lemma {:induction false} ViewIsCached(ns: seq<Past>)
    ensures ViewAfter(ns) == Cache.Cached(Notices(ns))
  {
    if ns != [] {
      ViewIsCached(ns[..|ns| - 1]);
      assert Notices(ns)[..|ns| - 1] == Notices(ns[..|ns| - 1]);
    }
  }

  /** The `i`th notification is a creation of the pid whose entry was allocated and that no later
      notification ends. */
  predicate Open(ns: seq<Past>, pid: u64, i: nat) {
    && i < |ns| && ns[i].n.pid == pid && ns[i].n.info.Some? && ns[i].memory
    && (forall k :: i < k < |ns| && ns[k].n.info.None? ==> ns[k].n.pid != pid)
  }

  /** It is the oldest of these. */
  predicate OldestOpen(ns: seq<Past>, pid: u64, i: nat) {
    Open(ns, pid, i) && forall j: nat :: j < i ==> !Open(ns, pid, j)
  }

  ghost predicate NoneOpen(ns: seq<Past>, pid: u64) {
    forall i: nat :: !OldestOpen(ns, pid, i)
  }

  lemma OpenIsOpenAt(ns: seq<Past>, pid: u64)
    ensures forall i: nat :: Open(ns, pid, i) <==> Cache.OpenAt(Notices(ns), pid, i)
    ensures forall i: nat :: OldestOpen(ns, pid, i) <==> Cache.OldestOpenAt(Notices(ns), pid, i)
  {
    var hs := Notices(ns);
    forall i: nat
      ensures Open(ns, pid, i) <==> Cache.OpenAt(hs, pid, i)
    {
      assert forall k :: 0 <= k < |ns| ==> hs[k] == NoticeOf(ns[k].n, ns[k].memory);
    }
  }

  /** The entry a history leaves for a pid: that of the oldest open creation. */
  lemma EntryAfter(ns: seq<Past>, pid: u64)
    ensures pid in ViewAfter(ns) <==> !NoneOpen(ns, pid)
    ensures forall i: nat :: OldestOpen(ns, pid, i) ==>
              && i < |ns| && ns[i].n.info.Some? && pid in ViewAfter(ns)
              && ViewAfter(ns)[pid].parent == ns[i].n.info.value.parent
              && ViewAfter(ns)[pid].imagePath == Cache.Cut(ns[i].n.info.value.imageName)
  {
    var v, hs := ViewAfter(ns), Notices(ns);
    ViewIsCached(ns);
    OpenIsOpenAt(ns, pid);
    Cache.CacheHoldsOldestOpen(hs, pid);
    hide ViewAfter, Cache.Cached, Cache.Cut, Cache.OldestOpenAt;
    forall i: nat | OldestOpen(ns, pid, i)
      ensures i < |ns| && ns[i].n.info.Some? && pid in v && v[pid] == Cache.EntryOf(hs[i])
      ensures hs[i] == Cache.Created(pid, ns[i].n.info.value.parent, ns[i].n.info.value.creator, ns[i].n.info.value.imageName)
    {
    }
  }

  /** The first 520 bytes of a path, all of it if it is shorter. */
  function First520(path: seq<byte>): seq<byte> {
    if |path| <= 520 then path else path[..520]
  }

  /** What the service shows of a process event, field by field. */
  predicate ShowsProcess(e: Event, time: u64, operation: u32, pid: u64, parent: u64,
                         path: seq<byte>, commandLine: seq<byte>, parentPath: seq<byte>) {
    && ShowsEvent(e, time) && e.tag.ProcessTag? && e.data.ProcessData? && e.data.operation == operation
    && e.data.pid == pid % 0x1_0000_0000 && e.data.parent == parent % 0x1_0000_0000
    && Shows(e.data.processPath, path) && Shows(e.data.commandLine, commandLine) && Shows(e.data.parentPath, parentPath)
  }

  /** The message sent for a notification after a history. */
  function MessageAfter(ns: seq<Past>, n: Notification, memory: bool): seq<byte> {
    ProcessDraft(n.time, ReportOf(ViewAfter(ns), n, memory)).Bytes()
  }

  lemma ReportShown(header: seq<byte>, time: u64, r: Report, operation: u32, pid: u64, parent: u64)
    requires |header| == MESSAGE_HEADER
    requires r.operation == operation && r.pid == U32(pid) && r.parent == U32(parent)
    ensures var seen := Parse(header + ProcessDraft(time, r).Bytes());
            seen.Ok? && ShowsProcess(seen.event, time, operation, pid, parent, r.path, r.commandLine, r.parentPath)
  {
    ProcessRoundTrip(header, time, r);
    UnitsShow(r.path);
    UnitsShow(r.commandLine);
    UnitsShow(r.parentPath);
    hide Parse, ProcessDraft, Units, Shows;
  }

  /** After any history, the terminate event that the service sees carries the parent and the image path,
      cut to 520 bytes, of the oldest creation of that pid that has not ended, or zero and nothing if
      there is none; and the pid is no longer cached. */
  lemma TerminateReportsOldest(header: seq<byte>, ns: seq<Past>, time: u64, pid: u64, memory: bool)
    requires |header| == MESSAGE_HEADER
    ensures var n := Notification(time, pid, None);
            var seen := Parse(header + MessageAfter(ns, n, memory));
            && seen.Ok?
            && (forall i: nat :: OldestOpen(ns, pid, i) ==>
                  && i < |ns| && ns[i].n.info.Some?
                  && ShowsProcess(seen.event, time, 1, pid, ns[i].n.info.value.parent,
                                  First520(ns[i].n.info.value.imageName), [], []))
            && (NoneOpen(ns, pid) ==> ShowsProcess(seen.event, time, 1, pid, 0, [], [], []))
            && pid !in ViewAfter(ns + [Past(n, memory)])
  {
    hide *;
    var n := Notification(time, pid, None);
    Uncached(ns, n, memory);
    TerminateShown(header, ns, n, memory);
    forall i: nat | OldestOpen(ns, pid, i)
      ensures i < |ns| && ns[i].n.info.Some?
      ensures ShowsProcess(Parse(header + MessageAfter(ns, n, memory)).event, time, 1, pid, ns[i].n.info.value.parent,
                           First520(ns[i].n.info.value.imageName), [], [])
    {
      TerminateShowsOldest(header, ns, n, memory, i);
    }
  }

  lemma TerminateShowsOldest(header: seq<byte>, ns: seq<Past>, n: Notification, memory: bool, i: nat)
    requires |header| == MESSAGE_HEADER && n.info == None && OldestOpen(ns, n.pid, i)
    ensures i < |ns| && ns[i].n.info.Some?
    ensures var seen := Parse(header + MessageAfter(ns, n, memory));
            && seen.Ok?
            && ShowsProcess(seen.event, n.time, 1, n.pid, ns[i].n.info.value.parent,
                            First520(ns[i].n.info.value.imageName), [], [])
  {
    var r := ReportOf(ViewAfter(ns), n, memory);
    TerminationReported(ns, n, memory);
    hide ReportOf, ViewAfter, OldestOpen, NoneOpen, ProcessDraft, Shows, First520, ShowsProcess, Parse, U32;
    ReportShown(header, n.time, r, 1, n.pid, ns[i].n.info.value.parent);
  }

  lemma TerminateShown(header: seq<byte>, ns: seq<Past>, n: Notification, memory: bool)
    requires |header| == MESSAGE_HEADER && n.info == None
    ensures var seen := Parse(header + MessageAfter(ns, n, memory));
            && seen.Ok?
            && (NoneOpen(ns, n.pid) ==> ShowsProcess(seen.event, n.time, 1, n.pid, 0, [], [], []))
  {
    var r := ReportOf(ViewAfter(ns), n, memory);
    TerminationReported(ns, n, memory);
    U32Small(r.parent);
    hide ReportOf, ViewAfter, OldestOpen, NoneOpen, ProcessDraft, Shows, First520, ShowsProcess, Parse, U32;
    ReportShown(header, n.time, r, 1, n.pid, r.parent);
  }

  lemma TerminationReported(ns: seq<Past>, n: Notification, memory: bool)
    requires n.info == None
    ensures var r := ReportOf(ViewAfter(ns), n, memory);
            && r.operation == 1 && r.pid == U32(n.pid) && r.commandLine == [] && r.parentPath == []
            && (forall i: nat :: OldestOpen(ns, n.pid, i) ==>
                  && i < |ns| && ns[i].n.info.Some?
                  && r.parent == U32(ns[i].n.info.value.parent) && r.path == First520(ns[i].n.info.value.imageName))
            && (NoneOpen(ns, n.pid) ==> r.parent == 0 && r.path == [])
  {
    EntryAfter(ns, n.pid);
    var v := ViewAfter(ns);
    hide OldestOpen, NoneOpen, ViewAfter, U32, Cache.Cut, First520, CacheAfter;
    forall i: nat | OldestOpen(ns, n.pid, i)
      ensures Cache.Cut(ns[i].n.info.value.imageName) == First520(ns[i].n.info.value.imageName)
    {
      CutIsFirst520(ns[i].n.info.value.imageName);
    }
  }

  lemma CutIsFirst520(path: seq<byte>)
    ensures Cache.Cut(path) == First520(path)
  {
    Cache.CutKeepsFront(path);
  }

  lemma Uncached(ns: seq<Past>, n: Notification, memory: bool)
    requires n.info == None
    ensures n.pid !in ViewAfter(ns + [Past(n, memory)])
  {
    assert (ns + [Past(n, memory)])[..|ns|] == ns;
  }

  lemma U32Small(x: u32)
    ensures U32(x) == x
  {
  }

  /** After any history, the create event that the service sees carries the notification's own parent, its
      image name if the open name was available, its command line, and as parent path the image path, cut to
      520 bytes, of the oldest creation of the parent that has not ended, this very creation included if its
      entry could be allocated; or nothing if there is none. */
  lemma CreateReportsWhole(header: seq<byte>, ns: seq<Past>, n: Notification, c: Creation, memory: bool)
    requires |header| == MESSAGE_HEADER && n.info == Some(c)
    ensures var all, seen := ns + [Past(n, memory)], Parse(header + MessageAfter(ns, n, memory));
            var path := if c.openNameAvailable then c.imageName else [];
            && seen.Ok?
            && (forall i: nat :: OldestOpen(all, c.parent, i) ==>
                  && i < |all| && all[i].n.info.Some?
                  && ShowsProcess(seen.event, n.time, 0, n.pid, c.parent, path, c.commandLine,
                                  First520(all[i].n.info.value.imageName)))
            && (NoneOpen(all, c.parent) ==>
                  ShowsProcess(seen.event, n.time, 0, n.pid, c.parent, path, c.commandLine, []))
  {
    var all, r := ns + [Past(n, memory)], ReportOf(ViewAfter(ns), n, memory);
    assert all[..|ns|] == ns;
    assert ViewAfter(all) == CacheAfter(ViewAfter(ns), n, memory);
    EntryAfter(all, c.parent);
    ReportShown(header, n.time, r, 0, n.pid, c.parent);
    hide Parse, ProcessDraft, U32, OldestOpen, NoneOpen, Shows;
  }

  /** The bytes of a serialized process event: the packed record with the offsets of the strings that are
      present, then the strings. */
  lemma ProcessLayout(time: u64, r: Report)
    ensures var p := ProcessDraft(time, r).Bytes();
            var n, m, k := |r.path|, |r.commandLine|, |r.parentPath|;
            && |p| == 66 + n + m + k && p[66..] == r.path + r.commandLine + r.parentPath
            && HasU32(p, 0, time % 0x1_0000_0000) && HasU32(p, 4, time / 0x1_0000_0000)
            && HasU32(p, 8, 1) && HasU32(p, 12, 1) && p[16] == 0
            && HasU32(p, 17, r.operation) && HasU32(p, 21, r.pid) && HasU32(p, 25, r.parent)
            && HasU32(p, 29, if n == 0 then 0 else 66) && HasU32(p, 33, n)
            && HasU32(p, 37, if m == 0 then 0 else 66 + n) && HasU32(p, 41, m)
            && HasU32(p, 45, if k == 0 then 0 else 66 + n + m) && HasU32(p, 49, k)
            && (forall i :: 53 <= i < 66 ==> p[i] == 0)
  {
    var d := ProcessDraft(time, r);
    var p, words := d.Bytes(), d.DataWords(0);
    RecordLayout(time, PROCESS_EVENT, words, d.Strings());
    ConcatStrings(r.path, r.commandLine, r.parentPath);
    AllSix(d.lead, Places(0, d.a, d.b, d.c));
    OffsetExact(66, r.path);
    OffsetExact(66 + |r.path|, r.commandLine);
    OffsetExact(66 + |r.path| + |r.commandLine|, r.parentPath);
    hide Image, Concat, Offset;
    assert HasU32(p, 17 + 4 * 0, words[0]) && HasU32(p, 17 + 4 * 1, words[1]) && HasU32(p, 17 + 4 * 2, words[2]);
    assert HasU32(p, 17 + 4 * 3, words[3]) && HasU32(p, 17 + 4 * 4, words[4]) && HasU32(p, 17 + 4 * 5, words[5]);
    assert HasU32(p, 17 + 4 * 6, words[6]) && HasU32(p, 17 + 4 * 7, words[7]) && HasU32(p, 17 + 4 * 8, words[8]);
  }
}
