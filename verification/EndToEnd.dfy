/**
 From a file operation in the driver to an event in the service: serialize, enqueue, drain, parse.
 */
module EndToEnd {
  import opened Bytes
  import opened RingLayout
  import opened RingProtocol
  import opened RingInvariant
  import opened RingCalls
  import opened RingTheorems
  import opened EventSerializers
  import EventBuffer
  import EventWire
  import RingSolo
  import Dispatcher

  const EVENT_BUFFER: nat := 32768

  function EventBytes(f: FileFacts): (bs: seq<byte>) {
    FileDraft(f).Bytes()
  }

  /** Whether the event fits the buffer it is serialized into. */
  predicate FitsBuffer(f: FileFacts) {
    FileDraft(f).Size() <= EVENT_BUFFER
  }

  lemma BytesLength(f: FileFacts)
    ensures |EventBytes(f)| == FileDraft(f).Size()
  {
    hide EventWire.Record;
    EventWire.ConcatStrings(f.processPath, f.filePath, []);
  }

  // ---- Enqueue ----------------------------------------------------------------------------------------------

  datatype EnqueueStatus = Unsuccessful | NotSerialized(cause: Status) | Handed(result: RingSolo.Status)

  /** An event for an inactive dispatcher is ignored; one that cannot be buffered or does not fit is dropped
      and counted, with no signal; any other goes to the ring, which never finds it too large. */
  method Enqueue(d: Dispatcher.AsyncEventDispatcher, active: bool, memory: bool, f: FileFacts, tick: u64)
      returns (status: EnqueueStatus)
    requires d.Shape()
    modifies d, d.ring
    ensures d.Shape()
    ensures !active ==> status == Unsuccessful && d.Snapshot() == old(d.Snapshot())
    ensures active && !(memory && FitsBuffer(f)) ==>
              && status == NotSerialized(if memory then BufferTooSmall else InsufficientResources)
              && d.Snapshot() == old(d.Snapshot()).(dropped := old(d.dropped) + 1)
    ensures active && memory && FitsBuffer(f) ==>
              && status.Handed? && status.result != RingSolo.InvalidParameter
              && (d.Snapshot(), status.result) == RingSolo.Produced(old(d.Snapshot()), EventBytes(f), tick)
  {
    if !active {
      return Unsuccessful;
    }
    hide RingSolo.Produced;
    var event := new EventBuffer.Buffer(EVENT_BUFFER, memory);
    if event.data == null {
      d.dropped := d.dropped + 1;
      return NotSerialized(InsufficientResources);
    }
    var serialized := SerializeFileEvent(event, f);
    if serialized != Success {
      d.dropped := d.dropped + 1;
      return NotSerialized(serialized);
    }
    BytesLength(f);
    var result := d.ProduceSlot(event.data[..event.currentSize], tick);
    NeverTooLarge(old(d.Snapshot()), EventBytes(f), tick);
    return Handed(result);
  }

  lemma NeverTooLarge(ring: Ring, bytes: seq<byte>, tick: u64)
    requires |bytes| <= EVENT_BUFFER
    ensures RingSolo.Produced(ring, bytes, tick).1 != RingSolo.InvalidParameter
  {
    hide RingSolo.Appended, RingSolo.Wrapped, RingSolo.Fits;
  }

  // ---- runs whose events are file events ----------------------------------------------------------------------

  ghost predicate FromFile(payload: seq<byte>) {
    exists f :: FitsBuffer(f) && payload == EventBytes(f)
  }

  /** Every call of `ProduceSlot` in the run was made by `Enqueue`. */
  ghost predicate FileRun(steps: seq<Step>) {
    forall i :: 0 <= i < |steps| && steps[i].Start? ==> FromFile(steps[i].payload)
  }

  /** The conditions on a run's steps, other than the one on payloads, which `Enqueue` guarantees. */
  predicate Meets(s: State, steps: seq<Step>)
    requires Possible(s, steps)
    decreases |steps|
  {
    steps == [] || ((steps[0].Start? || Assumed(s, steps[0])) && Meets(Apply(s, steps[0]), steps[1..]))
  }

  lemma {:induction false} FileRunRespects(s: State, steps: seq<Step>)
    requires Possible(s, steps) && Meets(s, steps) && FileRun(steps)
    ensures Respects(s, steps)
    decreases |steps|
  {
    if steps != [] {
      hide Enabled, Apply;
      if steps[0].Start? {
        var f :| FitsBuffer(f) && steps[0].payload == EventBytes(f);
        assert NonEmpty(steps[0].payload);
      }
      FileRunRespects(Apply(s, steps[0]), steps[1..]);
    }
  }

  /** A run is fed by `Enqueue` when each of its calls is. */
  lemma {:induction false} CallsMakeFileRun(steps: seq<Step>)
    requires forall i :: 0 <= i < |Calls(steps)| ==> FromFile(Calls(steps)[i].payload)
    ensures FileRun(steps)
  {
    hide FromFile;
    if steps != [] {
      var rest, first := Calls(steps[1..]), if steps[0].Start? then [Call(steps[0].p, steps[0].payload)] else [];
      assert Calls(steps) == first + rest;
      assert forall i :: 0 <= i < |rest| ==> rest[i] == Calls(steps)[|first| + i];
      CallsMakeFileRun(steps[1..]);
      if steps[0].Start? {
        assert Calls(steps)[0].payload == steps[0].payload;
      }
      assert forall i :: 1 <= i < |steps| ==> steps[i] == steps[1..][i - 1];
    }
  }

  /** The calls of a run are `Enqueue`'s, one for each event given to it, in order. */
  predicate Given(steps: seq<Step>, given: seq<FileFacts>) {
    && |given| == |Calls(steps)|
    && (forall i :: 0 <= i < |given| ==> FitsBuffer(given[i]) && Calls(steps)[i].payload == EventBytes(given[i]))
  }

  /** Dropping the same places from the payloads and from the order of their calls keeps them in step. */
  lemma {:induction false} KeptInStep(payloads: seq<seq<byte>>, order: seq<nat>, given: seq<FileFacts>, keep: seq<bool>)
    requires |payloads| == |order| == |keep|
    requires forall i :: 0 <= i < |payloads| ==> order[i] < |given| && payloads[i] == EventBytes(given[order[i]])
    ensures var ps, os := Kept(payloads, keep), Kept(order, keep);
            |ps| == |os| && forall i :: 0 <= i < |ps| ==> 0 <= os[i] < |given| && ps[i] == EventBytes(given[os[i]])
  {
    if payloads != [] {
      hide EventBytes;
      KeptInStep(payloads[1..], order[1..], given, keep[1..]);
      KeptStep(payloads, keep);
      KeptStep(order, keep);
      hide Kept;
      assert payloads[0] == EventBytes(given[order[0]]);
    }
  }

  /** Over every run whose calls are those `Enqueue` makes for the events given to it: each claim carries the
      bytes of one of them, no event is claimed twice, and the messages the worker has read show, field by
      field and in claim order, exactly those events, without the poisoned ones.  An event that is not claimed
      was refused or its call has not claimed yet.  Nothing is read outside a message. */
  lemma FileEventsArrive(ticksPerMs: u64, steps: seq<Step>, given: seq<FileFacts>)
      returns (order: seq<nat>, keep: seq<bool>)
    requires Possible(Init(ticksPerMs), steps) && Meets(Init(ticksPerMs), steps) && Given(steps, given)
    ensures var s := Exec(Init(ticksPerMs), steps);
            && |order| == |keep| == |s.h.claimed| && Distinct(order + s.h.log.refusals)
            && (forall i :: 0 <= i < |order| ==> order[i] < |given| && s.h.claimed[i] == EventBytes(given[order[i]]))
            && (forall c :: 0 <= c < |given| ==>
                  (c in order + s.h.log.refusals <==> !Waiting(s.producers, Calls(steps), c)))
            && s.h.claimed == AllPayloads(s.h.retired) + Outstanding(s.h.slots)
            && keep == Flags(s.h.retired) + seq(|Outstanding(s.h.slots)|, _ => true)
            && CountFalse(keep) == s.ring.poisoned
            && |s.h.consumed| <= |Kept(order, keep)|
            && (forall i, header: seq<byte> :: 0 <= i < |s.h.consumed| && |header| == EventWire.MESSAGE_HEADER ==>
                  && 0 <= Kept(order, keep)[i] < |given|
                  && Arrives(header + s.h.consumed[i], given[Kept(order, keep)[i]]))
  {
    var s := Exec(Init(ticksPerMs), steps);
    CallsAreFiles(steps, given);
    FileRunRespects(Init(ticksPerMs), steps);
    keep := RingIsFifo(ticksPerMs, steps);
    EachCallOnce(ticksPerMs, steps);
    order := s.h.log.claimants;
    hide Possible, Meets, Exec, Distinct, Waiting, EventBytes, Arrives, Flags, CountFalse, AllPayloads;
    assert forall i :: 0 <= i < |order| ==> order[i] < |given| && s.h.claimed[i] == EventBytes(given[order[i]]);
    KeptInStep(s.h.claimed, order, given, keep);
    hide Given, Kept, Calls, Outstanding;
    var sent, arrived := s.h.consumed + Outstanding(s.h.slots), Kept(order, keep);
    forall i, header: seq<byte> | 0 <= i < |s.h.consumed| && |header| == EventWire.MESSAGE_HEADER
      ensures 0 <= arrived[i] < |given| && Arrives(header + s.h.consumed[i], given[arrived[i]])
    {
      assert sent[i] == s.h.consumed[i] && sent[i] == EventBytes(given[arrived[i]]);
      ArrivesParsed(header, given[arrived[i]]);
    }
  }

  /** The service parses the message and shows the event. */
  predicate Arrives(msg: seq<byte>, f: FileFacts) {
    var seen := EventWire.Parse(msg);
    seen.Ok? && ShowsFile(seen.event, f)
  }

  lemma CallsAreFiles(steps: seq<Step>, given: seq<FileFacts>)
    requires Given(steps, given)
    ensures FileRun(steps)
  {
    hide EventBytes, FitsBuffer;
    forall i | 0 <= i < |Calls(steps)|
      ensures FromFile(Calls(steps)[i].payload)
    {
      assert FitsBuffer(given[i]) && Calls(steps)[i].payload == EventBytes(given[i]);
    }
    CallsMakeFileRun(steps);
  }

  lemma ArrivesParsed(header: seq<byte>, f: FileFacts)
    requires |header| == EventWire.MESSAGE_HEADER
    ensures Arrives(header + EventBytes(f), f)
  {
    FileRoundTrip(header, f);
    hide ShowsFile, EventWire.Parse;
  }
}
