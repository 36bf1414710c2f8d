/**
 The process cache: a chained hash table of 4096 buckets that behaves as a finite map, and what
 that map holds after any history of process notifications.
 */
module ProcessCache {
  import opened Wrappers
  import opened Bytes

  /** A cached process.  Image paths are byte strings; handles are 64-bit. */
  datatype Entry = Entry(pid: u64, parent: u64, creator: u64, imagePath: ImagePath)

  type ImagePath = p: seq<byte> | |p| <= IMAGE_PATH_BYTES witness []

  type View = map<u64, Entry>

  const BUCKETS: nat := 4096
  const IMAGE_PATH_BYTES: nat := 520

  /** `RtlCopyUnicodeString` into a buffer of 260 characters. */
  function Cut(path: seq<byte>): ImagePath {
    if |path| <= IMAGE_PATH_BYTES then path else path[..IMAGE_PATH_BYTES]
  }

  /** A short path is kept whole, a longer one keeps its first 520 bytes. */
  lemma CutKeepsFront(path: seq<byte>)
    ensures |path| <= 520 ==> Cut(path) == path
    ensures |path| > 520 ==> |Cut(path)| == 520 && Cut(path) == path[..520]
  {
  }

  /** The low 32 bits of the handle, scaled in 32 bits. */
  function ComputeHash(pid: u64): (h: nat)
    ensures h < BUCKETS
  {
    U32(U32(pid) * 2654435761) % BUCKETS
  }

  datatype AddStatus = Added | Collision | InsufficientResources

  // ---- the map the table stands for -----------------------------------------------------------------

  function AddedView(v: View, e: Entry): View {
    if e.pid in v then v else v[e.pid := e]
  }

  /** One bucket, as an association list, agrees with the map on the pids that hash to it. */
  ghost predicate BucketOk(bucket: seq<Entry>, b: nat, v: View) {
    && (forall i :: 0 <= i < |bucket| ==>
          ComputeHash(bucket[i].pid) == b && bucket[i].pid in v && v[bucket[i].pid] == bucket[i])
    && (forall i, j :: 0 <= i < j < |bucket| ==> bucket[i].pid != bucket[j].pid)
    && (forall pid :: pid in v && ComputeHash(pid) == b ==> HasPid(bucket, pid))
  }

  predicate HasPid(bucket: seq<Entry>, pid: u64) {
    exists i :: 0 <= i < |bucket| && bucket[i].pid == pid
  }

  lemma BucketInsert(bucket: seq<Entry>, b: nat, v: View, e: Entry)
    requires BucketOk(bucket, b, v) && e.pid !in v
    ensures ComputeHash(e.pid) == b ==> BucketOk([e] + bucket, b, v[e.pid := e])
    ensures ComputeHash(e.pid) != b ==> BucketOk(bucket, b, v[e.pid := e])
  {
    if ComputeHash(e.pid) == b {
      var bucket', v' := [e] + bucket, v[e.pid := e];
      forall pid | pid in v' && ComputeHash(pid) == b
        ensures HasPid(bucket', pid)
      {
        if pid == e.pid {
          assert bucket'[0].pid == pid;
        } else {
          var i :| 0 <= i < |bucket| && bucket[i].pid == pid;
          assert bucket'[i + 1].pid == pid;
        }
      }
    }
  }

  lemma BucketRemove(bucket: seq<Entry>, b: nat, v: View, pid: u64)
    requires BucketOk(bucket, b, v)
    ensures ComputeHash(pid) != b ==> BucketOk(bucket, b, v - {pid})
    ensures forall i :: 0 <= i < |bucket| && bucket[i].pid == pid ==>
              BucketOk(bucket[..i] + bucket[i + 1..], b, v - {pid})
  {
    forall i | 0 <= i < |bucket| && bucket[i].pid == pid
      ensures BucketOk(bucket[..i] + bucket[i + 1..], b, v - {pid})
    {
      var rest := bucket[..i] + bucket[i + 1..];
      forall q | q in v - {pid} && ComputeHash(q) == b
        ensures HasPid(rest, q)
      {
        var j :| 0 <= j < |bucket| && bucket[j].pid == q;
        assert rest[if j < i then j else j - 1].pid == q;
      }
    }
  }

  class ProcessCache {
    const table: array<seq<Entry>>
    var total: int
    var active: int
    var hits: nat
    var misses: nat
    ghost var view: View
    ghost var removals: nat
    ghost var gets: nat

    ghost predicate Valid()
      reads this, table
    {
      && table.Length == BUCKETS
      && (forall b :: 0 <= b < BUCKETS ==> BucketOk(table[b], b, view))
    }

    /** The statistics, until `Cleanup`. */
    ghost predicate StatsExact()
      reads this
    {
      active == |view| && total - active == removals && hits + misses == gets
    }

    constructor ()
      ensures Valid() && fresh(table) && view == map[] && StatsExact() && gets == 0 && removals == 0
    {
      table := new seq<Entry>[BUCKETS](_ => []);
      total, active, hits, misses := 0, 0, 0, 0;
      view, removals, gets := map[], 0, 0;
    }

    /** `FindProcessContextLocked`: the entry's place in its chain. */
    method Find(pid: u64) returns (found: Option<nat>)
      requires Valid()
      ensures found.Some? <==> pid in view
      ensures found.Some? ==>
                && found.value < |table[ComputeHash(pid)]|
                && table[ComputeHash(pid)][found.value] == view[pid]
    {
      var b := ComputeHash(pid);
      var bucket := table[b];
      assert BucketOk(bucket, b, view);
      for i := 0 to |bucket|
        invariant forall j :: 0 <= j < i ==> bucket[j].pid != pid
      {
        if bucket[i].pid == pid {
          return Some(i);
        }
      }
      assert !HasPid(bucket, pid);
      found := None;
    }

    /** Adding a pid that is already cached changes nothing: the old entry stays. */
    method AddProcess(pid: u64, parent: u64, creator: u64, imagePath: seq<byte>, memory: bool)
        returns (status: AddStatus)
      requires Valid()
      modifies this, table
      ensures Valid() && gets == old(gets) && removals == old(removals) && hits == old(hits) && misses == old(misses)
      ensures view == if memory then AddedView(old(view), Entry(pid, parent, creator, Cut(imagePath))) else old(view)
      ensures status == if !memory then InsufficientResources else if pid in old(view) then Collision else Added
      ensures total == old(total) + (if status == Added then 1 else 0)
      ensures active == old(active) + (if status == Added then 1 else 0)
      ensures old(StatsExact()) ==> StatsExact()
    {
      if !memory {
        return InsufficientResources;
      }
      var e := Entry(pid, parent, creator, Cut(imagePath));
      var b := ComputeHash(pid);
      var found := Find(pid);
      if found.Some? {
        return Collision;
      }
      forall c | 0 <= c < BUCKETS
        ensures c == b ==> BucketOk([e] + table[c], c, view[pid := e])
        ensures c != b ==> BucketOk(table[c], c, view[pid := e])
      {
        BucketInsert(table[c], c, view, e);
      }
      table[b] := [e] + table[b];
      view := view[pid := e];
      total := total + 1;
      active := active + 1;
      return Added;
    }

    method RemoveProcess(pid: u64) returns (removed: bool)
      requires Valid()
      modifies this, table
      ensures Valid() && view == old(view) - {pid} && removed == (pid in old(view))
      ensures gets == old(gets) && hits == old(hits) && misses == old(misses) && total == old(total)
      ensures active == old(active) - (if removed then 1 else 0)
      ensures removals == old(removals) + (if removed then 1 else 0)
      ensures old(StatsExact()) ==> StatsExact()
    {
      var found := Find(pid);
      if found.None? {
        assert view == view - {pid};
        return false;
      }
      var b, i := ComputeHash(pid), found.value;
      forall c | 0 <= c < BUCKETS
        ensures c == b ==> BucketOk(table[c][..i] + table[c][i + 1..], c, view - {pid})
        ensures c != b ==> BucketOk(table[c], c, view - {pid})
      {
        BucketRemove(table[c], c, view, pid);
      }
      table[b] := table[b][..i] + table[b][i + 1..];
      assert view.Keys - {pid} == (view - {pid}).Keys;
      view := view - {pid};
      active := active - 1;
      removals := removals + 1;
      return true;
    }

    method GetProcessContext(pid: u64) returns (entry: Option<Entry>)
      requires Valid()
      modifies this
      ensures Valid() && view == old(view) && gets == old(gets) + 1 && removals == old(removals)
      ensures total == old(total) && active == old(active) && hits + misses == old(hits + misses) + 1
      ensures entry == if pid in view then Some(view[pid]) else None
      ensures hits == old(hits) + (if pid in view then 1 else 0)
      ensures old(StatsExact()) ==> StatsExact()
    {
      var found := Find(pid);
      gets := gets + 1;
      if found.Some? {
        hits := hits + 1;
        entry := Some(table[ComputeHash(pid)][found.value]);
      } else {
        misses := misses + 1;
        entry := None;
      }
    }

    method IsProcessCached(pid: u64) returns (cached: bool)
      requires Valid()
      ensures cached == (pid in view)
    {
      var found := Find(pid);
      cached := found.Some?;
    }

    /** `known`: what the kernel says about a running process, as parent and image path. */
    method GetOrPopulate(pid: u64, known: Option<(u64, seq<byte>)>, memory: bool) returns (entry: Option<Entry>)
      requires Valid()
      modifies this, table
      ensures Valid() && (old(StatsExact()) ==> StatsExact())
      ensures view == if known.Some? && memory
                      then AddedView(old(view), Entry(pid, known.value.0, known.value.0, Cut(known.value.1)))
                      else old(view)
      ensures entry == if pid in view then Some(view[pid]) else None
      ensures gets == old(gets) + (if pid !in old(view) && known.Some? && memory then 2 else 1)
    {
      entry := GetProcessContext(pid);
      if entry.Some? || known.None? {
        return;
      }
      var (parent, path) := known.value;
      var status := AddProcess(pid, parent, parent, path, memory);
      if status != InsufficientResources {
        entry := GetProcessContext(pid);
      }
    }

    /** Empties every chain and leaves the counters alone. */
    method Cleanup()
      requires Valid()
      modifies this, table
      ensures Valid() && view == map[] && active == old(active) && total == old(total)
      ensures hits == old(hits) && misses == old(misses)
    {
      for i := 0 to BUCKETS
        invariant active == old(active) && total == old(total) && hits == old(hits) && misses == old(misses)
        invariant forall b :: 0 <= b < i ==> table[b] == []
      {
        table[i] := [];
      }
      view := map[];
    }
  }

  // ---- histories of notifications -----------------------------------------------------------------

  /** `Ignored`: a creation for which no entry could be allocated. */
  datatype Notice =
    | Created(pid: u64, parent: u64, creator: u64, imagePath: seq<byte>)
    | Terminated(pid: u64)
    | Ignored

  function EntryOf(n: Notice): Entry
    requires n.Created?
  {
    Entry(n.pid, n.parent, n.creator, Cut(n.imagePath))
  }

  function Noted(v: View, n: Notice): View {
    match n
    case Created(_, _, _, _) => AddedView(v, EntryOf(n))
    case Terminated(pid) => v - {pid}
    case Ignored => v
  }

  /** The cache after a history, oldest notice first. */
  function Cached(history: seq<Notice>): View {
    if history == [] then map[]
    else Noted(Cached(history[..|history| - 1]), history[|history| - 1])
  }

  /** The pid's notice at `i` is a create that no later notice terminates. */
  predicate OpenAt(history: seq<Notice>, pid: u64, i: nat) {
    && i < |history| && history[i].Created? && history[i].pid == pid
    && (forall k :: i < k < |history| ==> history[k] != Terminated(pid))
  }

  /** It is the oldest such. */
  predicate OldestOpenAt(history: seq<Notice>, pid: u64, i: nat) {
    OpenAt(history, pid, i) && forall j: nat :: j < i ==> !OpenAt(history, pid, j)
  }

  /** The cache holds, for each pid, the oldest create that has not been terminated, and nothing
      else. */
  lemma {:induction false} CacheHoldsOldestOpen(history: seq<Notice>, pid: u64)
    ensures pid in Cached(history) <==> exists i: nat :: OldestOpenAt(history, pid, i)
    ensures forall i: nat :: OldestOpenAt(history, pid, i) ==>
              pid in Cached(history) && Cached(history)[pid] == EntryOf(history[i])
  {
    if history != [] {
      var last := |history| - 1;
      var before := history[..last];
      CacheHoldsOldestOpen(before, pid);
      if history[last] == Terminated(pid) {
        assert forall i: nat :: !OpenAt(history, pid, i);
      } else {
        forall i: nat | i < last
          ensures OpenAt(history, pid, i) <==> OpenAt(before, pid, i)
        {
          OpenBefore(history, pid, i);
        }
        OldestCarries(history, pid);
      }
    }
  }

  lemma OpenBefore(history: seq<Notice>, pid: u64, i: nat)
    requires history != [] && history[|history| - 1] != Terminated(pid) && i < |history| - 1
    ensures OpenAt(history, pid, i) <==> OpenAt(history[..|history| - 1], pid, i)
  {
  }

  /** Adding a notice that does not terminate the pid keeps its oldest open create, or makes one. */
  lemma OldestCarries(history: seq<Notice>, pid: u64)
    requires history != [] && history[|history| - 1] != Terminated(pid)
    requires var before := history[..|history| - 1];
             && (pid in Cached(before) <==> exists i: nat :: OldestOpenAt(before, pid, i))
             && (forall i: nat :: OldestOpenAt(before, pid, i) ==>
                   pid in Cached(before) && Cached(before)[pid] == EntryOf(before[i]))
             && (forall i: nat :: i < |history| - 1 ==> (OpenAt(history, pid, i) <==> OpenAt(before, pid, i)))
    ensures pid in Cached(history) <==> exists i: nat :: OldestOpenAt(history, pid, i)
    ensures forall i: nat :: OldestOpenAt(history, pid, i) ==>
              pid in Cached(history) && Cached(history)[pid] == EntryOf(history[i])
  {
    var last := |history| - 1;
    var before := history[..last];
    if pid in Cached(before) {
      var k :| OldestOpenAt(before, pid, k);
      assert OldestOpenAt(history, pid, k);
      assert forall i: nat :: OldestOpenAt(history, pid, i) ==> i == k;
    } else {
      NoneOpen(before, pid, last);
      assert forall i: nat :: i < last ==> !OpenAt(history, pid, i);
      if history[last].Created? && history[last].pid == pid {
        assert OldestOpenAt(history, pid, last);
      } else {
        assert !OpenAt(history, pid, last);
      }
    }
  }

  /** If no open create is the oldest, there is no open create. */
  lemma {:induction false} NoneOpen(history: seq<Notice>, pid: u64, n: nat)
    requires forall i: nat :: !OldestOpenAt(history, pid, i)
    ensures forall i: nat :: i < n ==> !OpenAt(history, pid, i)
  {
    if n > 0 {
      NoneOpen(history, pid, n - 1);
      assert !OldestOpenAt(history, pid, n - 1);
    }
  }
}
