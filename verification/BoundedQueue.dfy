/**
 The service's bounded, closable queue: one mutex and two condition variables, any number of threads.
 A step is one stretch a thread spends inside the mutex, or one thread leaving a wait by itself.
 */
module BoundedQueue {
  import opened Wrappers

  type Tid = nat

  /** A thread inside a wait.  Not signalled: it sleeps.  Signalled: it has been notified, timed out or
      woken for no reason, and wants the mutex back.  `timed`: it came by `TryPush` or `TryPop`.
      `expired`: its time is up. */
  datatype Waiter = Waiter(signalled: bool, timed: bool, expired: bool)

  datatype Fate<T> = Popped(item: T) | Cleared(item: T)

  /** `pushing` holds the waiting pushers with their items.  `accepted` logs the items pushed, `left`
      the items that have left the queue. */
  datatype State<T> = State(
    queue: seq<T>, max: nat, closed: bool,
    pushers: map<Tid, Waiter>, pushing: map<Tid, T>, poppers: map<Tid, Waiter>,
    accepted: seq<T>, left: seq<Fate<T>>)

  function Init<T>(max: nat): State<T> {
    State([], max, false, map[], map[], map[], [], [])
  }

  // ---- condition variables --------------------------------------------------------------------------

  predicate Sleeps(ws: map<Tid, Waiter>, t: Tid) {
    t in ws && !ws[t].signalled
  }

  function Sleepers(ws: map<Tid, Waiter>): set<Tid> {
    set t | t in ws && !ws[t].signalled
  }

  function Signalled(ws: map<Tid, Waiter>): set<Tid> {
    set t | t in ws && ws[t].signalled
  }

  /** `notify_one` may wake any sleeper, and wakes none only if there is none. */
  predicate Notifiable(ws: map<Tid, Waiter>, who: Option<Tid>) {
    match who
    case Some(t) => Sleeps(ws, t)
    case None => Sleepers(ws) == {}
  }

  function NotifyOne(ws: map<Tid, Waiter>, who: Option<Tid>): map<Tid, Waiter> {
    match who
    case Some(t) => if t in ws then ws[t := ws[t].(signalled := true)] else ws
    case None => ws
  }

  function NotifyAll(ws: map<Tid, Waiter>): map<Tid, Waiter> {
    map t | t in ws :: ws[t].(signalled := true)
  }

  // ---- the stretches inside the mutex -------------------------------------------------------------------

  /** What a call returned, if it has returned. */
  datatype Outcome<T> = Waiting | PushReturned(ok: bool) | PopReturned(item: Option<T>)

  predicate Accepted<T>(out: Outcome<T>) {
    out.PushReturned? && out.ok
  }

  /** A pusher looks at its condition: on entry (`expired` false), or back from the wait.  It sleeps
      again unless there is room, the queue is closed or its time is up. */
  function TryToPush<T>(s: State<T>, t: Tid, item: T, timed: bool, expired: bool, who: Option<Tid>): (State<T>, Outcome<T>) {
    var gone := s.(pushers := s.pushers - {t}, pushing := s.pushing - {t});
    if s.closed then (gone, PushReturned(false))
    else if |s.queue| < s.max then
      (gone.(queue := s.queue + [item], accepted := s.accepted + [item], poppers := NotifyOne(s.poppers, who)),
       PushReturned(true))
    else if expired then (gone, PushReturned(false))
    else (s.(pushers := s.pushers[t := Waiter(false, timed, false)], pushing := s.pushing[t := item]), Waiting)
  }

  function TryToPop<T>(s: State<T>, t: Tid, timed: bool, expired: bool, who: Option<Tid>): (State<T>, Outcome<T>) {
    var gone := s.(poppers := s.poppers - {t});
    if s.queue != [] then
      (gone.(queue := s.queue[1..], left := s.left + [Popped(s.queue[0])], pushers := NotifyOne(s.pushers, who)),
       PopReturned(Some(s.queue[0])))
    else if s.closed || expired then (gone, PopReturned(None))
    else (s.(poppers := s.poppers[t := Waiter(false, timed, false)]), Waiting)
  }

  function AllCleared<T>(items: seq<T>): (fates: seq<Fate<T>>)
    ensures |fates| == |items|
  {
    seq(|items|, i requires 0 <= i < |items| => Cleared(items[i]))
  }

  function Closed<T>(s: State<T>): State<T> {
    s.(closed := true, pushers := NotifyAll(s.pushers), poppers := NotifyAll(s.poppers))
  }

  function Emptied<T>(s: State<T>): State<T> {
    s.(queue := [], left := s.left + AllCleared(s.queue), pushers := NotifyAll(s.pushers))
  }

  /** `who`: the thread that `notify_one` wakes, should the step call it. */
  datatype Step<T> =
    | EnterPush(t: Tid, item: T, timed: bool, who: Option<Tid>)
    | ResumePush(t: Tid, who: Option<Tid>)
    | StirPusher(t: Tid, timeout: bool)
    | EnterPop(t: Tid, timed: bool, who: Option<Tid>)
    | ResumePop(t: Tid, who: Option<Tid>)
    | StirPopper(t: Tid, timeout: bool)
    | Close
    | Clear

  predicate Enabled<T>(s: State<T>, step: Step<T>) {
    match step
    case EnterPush(t, _, _, who) => t !in s.pushers && t !in s.poppers && Notifiable(s.poppers, who)
    case ResumePush(t, who) =>
      t in s.pushers && t in s.pushing && s.pushers[t].signalled && Notifiable(s.poppers, who)
    case StirPusher(t, timeout) => t in s.pushers && (timeout ==> s.pushers[t].timed)
    case EnterPop(t, _, who) => t !in s.pushers && t !in s.poppers && Notifiable(s.pushers, who)
    case ResumePop(t, who) => t in s.poppers && s.poppers[t].signalled && Notifiable(s.pushers, who)
    case StirPopper(t, timeout) => t in s.poppers && (timeout ==> s.poppers[t].timed)
    case Close => true
    case Clear => true
  }

  /** A wait that ends by itself: spuriously, or because its time is up. */
  function Stirred(ws: map<Tid, Waiter>, t: Tid, timeout: bool): map<Tid, Waiter>
    requires t in ws
  {
    ws[t := ws[t].(signalled := true, expired := ws[t].expired || timeout)]
  }

  function Do<T>(s: State<T>, step: Step<T>): (State<T>, Outcome<T>)
    requires Enabled(s, step)
  {
    match step
    case EnterPush(t, item, timed, who) => TryToPush(s, t, item, timed, false, who)
    case ResumePush(t, who) => TryToPush(s, t, s.pushing[t], s.pushers[t].timed, s.pushers[t].expired, who)
    case StirPusher(t, timeout) => (s.(pushers := Stirred(s.pushers, t, timeout)), Waiting)
    case EnterPop(t, timed, who) => TryToPop(s, t, timed, false, who)
    case ResumePop(t, who) => TryToPop(s, t, s.poppers[t].timed, s.poppers[t].expired, who)
    case StirPopper(t, timeout) => (s.(poppers := Stirred(s.poppers, t, timeout)), Waiting)
    case Close => (Closed(s), Waiting)
    case Clear => (Emptied(s), Waiting)
  }

  // ---- what every step keeps ------------------------------------------------------------------------------

  function Items<T>(left: seq<Fate<T>>): seq<T> {
    if left == [] then [] else [left[0].item] + Items(left[1..])
  }

  lemma ItemsCons<T>(fate: Fate<T>, tail: seq<Fate<T>>)
    ensures Items([fate] + tail) == [fate.item] + Items(tail)
  {
    assert ([fate] + tail)[1..] == tail;
  }

  lemma {:induction false} ItemsAppend<T>(a: seq<Fate<T>>, b: seq<Fate<T>>)
    ensures Items(a + b) == Items(a) + Items(b)
  {
    if a == [] {
      assert a + b == b;
    } else {
      hide *;
      var first, tail := a[0], a[1..];
      assert a == [first] + tail;
      Reassociate([first], tail, b);
      ItemsAppend(tail, b);
      ItemsCons(first, tail);
      ItemsCons(first, tail + b);
      Reassociate([first.item], Items(tail), Items(b));
    }
  }

  lemma {:induction false} ItemsCleared<T>(items: seq<T>)
    ensures Items(AllCleared(items)) == items
  {
    if items != [] {
      ItemsCleared(items[1..]);
      assert AllCleared(items)[1..] == AllCleared(items[1..]);
    }
  }

  /** No lost wake-up: while some thread sleeps, there are no more chances to take than threads on
      their way to take them. */
  predicate NoneOverlooked(ws: map<Tid, Waiter>, chances: nat) {
    Sleepers(ws) != {} ==> chances <= |Signalled(ws)|
  }

  ghost predicate Inv<T>(s: State<T>) {
    && |s.queue| <= s.max
    && s.pushing.Keys == s.pushers.Keys
    && s.accepted == Items(s.left) + s.queue
    && (s.closed ==> Sleepers(s.pushers) == {} && Sleepers(s.poppers) == {})
    && NoneOverlooked(s.poppers, |s.queue|)
    && NoneOverlooked(s.pushers, s.max - |s.queue|)
    && OnlyTimedExpire(s.pushers) && OnlyTimedExpire(s.poppers)
  }

  predicate OnlyTimedExpire(ws: map<Tid, Waiter>) {
    forall t :: t in ws && ws[t].expired ==> ws[t].timed
  }

  lemma NotifiedOne(ws: map<Tid, Waiter>, who: Option<Tid>, chances: nat)
    requires NoneOverlooked(ws, chances) && Notifiable(ws, who)
    ensures NotifyOne(ws, who).Keys == ws.Keys
    ensures NoneOverlooked(NotifyOne(ws, who), chances + 1)
    ensures Sleepers(NotifyOne(ws, who)) <= Sleepers(ws)
  {
    match who
    case Some(t) =>
      assert t in Sleepers(ws);
      assert Signalled(NotifyOne(ws, who)) == Signalled(ws) + {t};
    case None =>
  }

  lemma NotifiedAll(ws: map<Tid, Waiter>)
    ensures NotifyAll(ws).Keys == ws.Keys && Sleepers(NotifyAll(ws)) == {}
  {
  }

  lemma StirredOne(ws: map<Tid, Waiter>, t: Tid, timeout: bool, chances: nat)
    requires NoneOverlooked(ws, chances) && t in ws
    ensures Stirred(ws, t, timeout).Keys == ws.Keys
    ensures NoneOverlooked(Stirred(ws, t, timeout), chances)
    ensures Sleepers(Stirred(ws, t, timeout)) <= Sleepers(ws)
  {
    var ws' := Stirred(ws, t, timeout);
    assert Signalled(ws') == Signalled(ws) + {t};
    assert Sleepers(ws') == Sleepers(ws) - {t};
  }

  /** A thread that was not asleep takes a chance and leaves. */
  lemma TookChance(ws: map<Tid, Waiter>, t: Tid, chances: nat)
    requires NoneOverlooked(ws, chances) && !Sleeps(ws, t) && chances > 0
    ensures NoneOverlooked(ws - {t}, chances - 1) && Sleepers(ws - {t}) == Sleepers(ws)
  {
    assert Signalled(ws - {t}) == Signalled(ws) - {t};
  }

  lemma Left(ws: map<Tid, Waiter>, t: Tid)
    ensures Sleepers(ws - {t}) <= Sleepers(ws)
  {
  }

  lemma PushKeeps<T>(s: State<T>, t: Tid, item: T, timed: bool, expired: bool, who: Option<Tid>)
    requires Inv(s) && !Sleeps(s.pushers, t) && Notifiable(s.poppers, who)
    ensures Inv(TryToPush(s, t, item, timed, expired, who).0)
  {
    Left(s.pushers, t);
    if s.closed {
      NoSleepers(s.pushers - {t}, s.max - |s.queue|);
    } else if |s.queue| < s.max {
      TookChance(s.pushers, t, s.max - |s.queue|);
      NotifiedOne(s.poppers, who, |s.queue|);
      assert s.accepted + [item] == Items(s.left) + (s.queue + [item]);
    }
  }

  lemma NoSleepers(ws: map<Tid, Waiter>, chances: nat)
    requires Sleepers(ws) == {}
    ensures NoneOverlooked(ws, chances)
  {
  }

  lemma LeavesInOrder<T>(left: seq<Fate<T>>, queue: seq<T>)
    requires queue != []
    ensures Items(left + [Popped(queue[0])]) + queue[1..] == Items(left) + queue
  {
    ItemsAppend(left, [Popped(queue[0])]);
    assert Items([Popped(queue[0])]) == [queue[0]];
    hide Items;
    Reassociate(Items(left), [queue[0]], queue[1..]);
    assert queue == [queue[0]] + queue[1..];
  }

  lemma PopKeeps<T>(s: State<T>, t: Tid, timed: bool, expired: bool, who: Option<Tid>)
    requires Inv(s) && !Sleeps(s.poppers, t) && Notifiable(s.pushers, who)
    ensures Inv(TryToPop(s, t, timed, expired, who).0)
  {
    Left(s.poppers, t);
    if s.queue != [] {
      TookChance(s.poppers, t, |s.queue|);
      NotifiedOne(s.pushers, who, s.max - |s.queue|);
      LeavesInOrder(s.left, s.queue);
      hide Items, Sleepers, Signalled;
    }
  }

  lemma StepKeeps<T>(s: State<T>, step: Step<T>)
    requires Inv(s) && Enabled(s, step)
    ensures Inv(Do(s, step).0)
  {
    match step
    case EnterPush(t, item, timed, who) => PushKeeps(s, t, item, timed, false, who);
    case ResumePush(t, who) => PushKeeps(s, t, s.pushing[t], s.pushers[t].timed, s.pushers[t].expired, who);
    case StirPusher(t, timeout) => StirredOne(s.pushers, t, timeout, s.max - |s.queue|);
    case EnterPop(t, timed, who) => PopKeeps(s, t, timed, false, who);
    case ResumePop(t, who) => PopKeeps(s, t, s.poppers[t].timed, s.poppers[t].expired, who);
    case StirPopper(t, timeout) => StirredOne(s.poppers, t, timeout, |s.queue|);
    case Close =>
      NotifiedAll(s.pushers);
      NotifiedAll(s.poppers);
    case Clear =>
      NotifiedAll(s.pushers);
      ItemsAppend(s.left, AllCleared(s.queue));
      ItemsCleared(s.queue);
  }

  // ---- runs ---------------------------------------------------------------------------------------------

  predicate Possible<T>(s: State<T>, steps: seq<Step<T>>)
    decreases |steps|
  {
    steps == [] || (Enabled(s, steps[0]) && Possible(Do(s, steps[0]).0, steps[1..]))
  }

  function Exec<T>(s: State<T>, steps: seq<Step<T>>): State<T>
    requires Possible(s, steps)
    decreases |steps|
  {
    if steps == [] then s else Exec(Do(s, steps[0]).0, steps[1..])
  }

  /** What enters the queue in one step: the item of a push that returns true. */
  function EnteringItems<T>(s: State<T>, step: Step<T>): seq<T>
    requires Enabled(s, step)
  {
    if !Accepted(Do(s, step).1) then []
    else
      match step
      case EnterPush(_, item, _, _) => [item]
      case ResumePush(t, _) => [s.pushing[t]]
  }

  function PushedItems<T>(s: State<T>, steps: seq<Step<T>>): seq<T>
    requires Possible(s, steps)
    decreases |steps|
  {
    if steps == [] then [] else EnteringItems(s, steps[0]) + PushedItems(Do(s, steps[0]).0, steps[1..])
  }

  /** What leaves the queue in one step: the item a pop returns, or all that `Clear` throws away. */
  function LeavingItems<T>(s: State<T>, step: Step<T>): seq<Fate<T>>
    requires Enabled(s, step)
  {
    match Do(s, step).1
    case PopReturned(Some(item)) => [Popped(item)]
    case _ => if step.Clear? then AllCleared(s.queue) else []
  }

  function TakenItems<T>(s: State<T>, steps: seq<Step<T>>): seq<Fate<T>>
    requires Possible(s, steps)
    decreases |steps|
  {
    if steps == [] then [] else LeavingItems(s, steps[0]) + TakenItems(Do(s, steps[0]).0, steps[1..])
  }

  lemma StepLogs<T>(s: State<T>, step: Step<T>)
    requires Enabled(s, step)
    ensures var s' := Do(s, step).0;
            && s'.max == s.max && (s.closed ==> s'.closed && EnteringItems(s, step) == [])
            && s'.accepted == s.accepted + EnteringItems(s, step)
            && s'.left == s.left + LeavingItems(s, step)
  {
  }

  /** The logs are what the calls returned. */
  lemma {:induction false} LogsAreReturns<T>(s: State<T>, steps: seq<Step<T>>)
    requires Possible(s, steps)
    ensures var e := Exec(s, steps);
            && e.accepted == s.accepted + PushedItems(s, steps)
            && e.left == s.left + TakenItems(s, steps)
            && e.max == s.max && (s.closed ==> e.closed && PushedItems(s, steps) == [])
    decreases |steps|
  {
    if steps == [] {
      assert s.left + [] == s.left;
    } else {
      hide Enabled, Do, EnteringItems, LeavingItems;
      var s', rest := Do(s, steps[0]).0, steps[1..];
      StepLogs(s, steps[0]);
      LogsAreReturns(s', rest);
      Reassociate(s.accepted, EnteringItems(s, steps[0]), PushedItems(s', rest));
      Reassociate(s.left, LeavingItems(s, steps[0]), TakenItems(s', rest));
    }
  }

  lemma {:induction false} RunKeeps<T>(s: State<T>, steps: seq<Step<T>>)
    requires Inv(s) && Possible(s, steps)
    ensures Inv(Exec(s, steps))
    decreases |steps|
  {
    if steps != [] {
      StepKeeps(s, steps[0]);
      RunKeeps(Do(s, steps[0]).0, steps[1..]);
    }
  }

  // ---- the queue's promises -------------------------------------------------------------------------------

  /** After every run from an empty queue: never more than `max` items are held, and the items that came
      out or were cleared, followed by those still inside, are the pushed ones in push order. */
  lemma DeliversInOrder<T>(max: nat, steps: seq<Step<T>>)
    requires Possible(Init(max), steps)
    ensures var e := Exec(Init(max), steps);
            && |e.queue| <= max
            && Items(TakenItems(Init(max), steps)) + e.queue == PushedItems(Init(max), steps)
  {
    InitInv<T>(max);
    RunKeeps(Init(max), steps);
    LogsAreReturns(Init(max), steps);
    var none: seq<T>, nothing: seq<Fate<T>> := [], [];
    assert none + PushedItems(Init(max), steps) == PushedItems(Init(max), steps);
    assert nothing + TakenItems(Init(max), steps) == TakenItems(Init(max), steps);
  }

  lemma InitInv<T>(max: nat)
    ensures Inv(Init<T>(max))
  {
  }

  /** After every run: a sleeping popper means every item already has a popper on its way to it, a
      sleeping pusher the same for every free place, and never do both sides sleep with nobody
      stirring; once closed nobody sleeps. */
  lemma NoLostWakeup<T>(max: nat, steps: seq<Step<T>>)
    requires Possible(Init(max), steps)
    ensures var e := Exec(Init(max), steps);
            && (Sleepers(e.poppers) != {} ==> |e.queue| <= |Signalled(e.poppers)|)
            && (Sleepers(e.pushers) != {} ==> max - |e.queue| <= |Signalled(e.pushers)|)
            && (Sleepers(e.poppers) != {} && Sleepers(e.pushers) != {} ==>
                  max <= |Signalled(e.poppers)| + |Signalled(e.pushers)|)
            && (e.closed ==> Sleepers(e.poppers) == {} && Sleepers(e.pushers) == {})
  {
    InitInv<T>(max);
    RunKeeps(Init(max), steps);
    LogsAreReturns(Init(max), steps);
  }

  /** A signalled popper that gets the mutex while items remain returns one: whenever a popper sleeps
      beside a waiting item, some thread can step and take it. */
  lemma SleeperHasHelper<T>(s: State<T>) returns (t: Tid, who: Option<Tid>)
    requires Inv(s) && Sleepers(s.poppers) != {} && s.queue != []
    ensures Enabled(s, ResumePop(t, who))
    ensures Do(s, ResumePop(t, who)).1 == PopReturned(Some(s.queue[0]))
  {
    assert |Signalled(s.poppers)| > 0;
    t :| t in Signalled(s.poppers);
    if Sleepers(s.pushers) == {} {
      who := None;
    } else {
      var u :| u in Sleepers(s.pushers);
      who := Some(u);
    }
  }

  /** The same for a pusher that sleeps beside a free place. */
  lemma SleepingPusherHasHelper<T>(s: State<T>) returns (t: Tid, who: Option<Tid>)
    requires Inv(s) && Sleepers(s.pushers) != {} && |s.queue| < s.max
    ensures Enabled(s, ResumePush(t, who))
    ensures Do(s, ResumePush(t, who)).1 == PushReturned(true)
    ensures Do(s, ResumePush(t, who)).0.queue == s.queue + [s.pushing[t]]
  {
    assert |Signalled(s.pushers)| > 0;
    t :| t in Signalled(s.pushers);
    if Sleepers(s.poppers) == {} {
      who := None;
    } else {
      var u :| u in Sleepers(s.poppers);
      who := Some(u);
    }
  }

  predicate TimedCall<T>(s: State<T>, step: Step<T>)
    requires Enabled(s, step)
  {
    match step
    case EnterPush(_, _, timed, _) => timed
    case ResumePush(t, _) => s.pushers[t].timed
    case EnterPop(_, timed, _) => timed
    case ResumePop(t, _) => s.poppers[t].timed
    case _ => false
  }

  /** `Push` and `Pop` fail only on a closed queue, `Pop` only once it is empty too; the timed calls
      fail otherwise only on a full or an empty queue. */
  lemma FailureMeans<T>(max: nat, steps: seq<Step<T>>, step: Step<T>)
    requires Possible(Init(max), steps) && Enabled(Exec(Init(max), steps), step)
    ensures var s := Exec(Init(max), steps);
            match Do(s, step).1
            case PushReturned(ok) => !ok ==> s.closed || (TimedCall(s, step) && |s.queue| == max)
            case PopReturned(item) => item.None? ==> s.queue == [] && (s.closed || TimedCall(s, step))
            case Waiting => true
  {
    InitInv<T>(max);
    RunKeeps(Init(max), steps);
    LogsAreReturns(Init(max), steps);
  }

  predicate CloseIn<T>(steps: seq<Step<T>>) {
    exists i :: 0 <= i < |steps| && steps[i].Close?
  }

  /** After any steps the queue is closed exactly if it was before or one of them closed it, */
  lemma {:induction false} ClosedFollows<T>(s: State<T>, steps: seq<Step<T>>)
    requires Possible(s, steps)
    ensures Exec(s, steps).closed <==> s.closed || CloseIn(steps)
    decreases |steps|
  {
    if steps != [] {
      ClosedByStep(s, steps[0]);
      ClosedFollows(Do(s, steps[0]).0, steps[1..]);
      CloseFirst(steps);
    }
  }

  lemma CloseFirst<T>(steps: seq<Step<T>>)
    requires steps != []
    ensures CloseIn(steps) <==> steps[0].Close? || CloseIn(steps[1..])
  {
    assert forall i :: 1 <= i < |steps| ==> steps[i] == steps[1..][i - 1];
    if steps[0].Close? {
      assert CloseIn(steps);
    } else if CloseIn(steps[1..]) {
      var i :| 0 <= i < |steps[1..]| && steps[1..][i].Close?;
      assert steps[i + 1].Close?;
    }
  }

  lemma ClosedByStep<T>(s: State<T>, step: Step<T>)
    requires Enabled(s, step)
    ensures Do(s, step).0.closed <==> s.closed || step.Close?
  {
  }

  /** and clearing leaves it empty, with every pusher awake and nothing else changed for the poppers. */
  lemma ClearEmpties<T>(s: State<T>)
    ensures var s' := Do(s, Step<T>.Clear).0;
            && s'.queue == [] && Sleepers(s'.pushers) == {} && s'.pushers.Keys == s.pushers.Keys
            && s'.poppers == s.poppers && s'.pushing == s.pushing && s'.closed == s.closed && s'.max == s.max
  {
    NotifiedAll(s.pushers);
  }

  // ---- waiting threads remember their calls --------------------------------------------------------------

  function PushBy<T>(step: Step<T>, t: Tid, before: Option<(T, bool)>): Option<(T, bool)> {
    match step
    case EnterPush(u, item, timed, _) => if u == t then Some((item, timed)) else before
    case _ => before
  }

  function PopBy<T>(step: Step<T>, t: Tid, before: Option<bool>): Option<bool> {
    match step
    case EnterPop(u, timed, _) => if u == t then Some(timed) else before
    case _ => before
  }

  /** The item and the kind of the latest push call of a thread. */
  function LatestPush<T>(steps: seq<Step<T>>, t: Tid, before: Option<(T, bool)>): Option<(T, bool)>
    decreases |steps|
  {
    if steps == [] then before else LatestPush(steps[1..], t, PushBy(steps[0], t, before))
  }

  function LatestPop<T>(steps: seq<Step<T>>, t: Tid, before: Option<bool>): Option<bool>
    decreases |steps|
  {
    if steps == [] then before else LatestPop(steps[1..], t, PopBy(steps[0], t, before))
  }

  /** What is known of a thread's latest calls is what the state keeps of them while they wait. */
  ghost predicate Remembers<T>(s: State<T>, t: Tid, push: Option<(T, bool)>, pop: Option<bool>) {
    && (t in s.pushers ==> t in s.pushing && push == Some((s.pushing[t], s.pushers[t].timed)))
    && (t in s.poppers ==> pop == Some(s.poppers[t].timed))
  }

  lemma PushRemembers<T>(s: State<T>, u: Tid, item: T, timed: bool, expired: bool, who: Option<Tid>, t: Tid,
                         push: Option<(T, bool)>, pop: Option<bool>)
    requires Remembers(s, t, push, pop)
    ensures Remembers(TryToPush(s, u, item, timed, expired, who).0, t, if u == t then Some((item, timed)) else push, pop)
  {
  }

  lemma PopRemembers<T>(s: State<T>, u: Tid, timed: bool, expired: bool, who: Option<Tid>, t: Tid,
                        push: Option<(T, bool)>, pop: Option<bool>)
    requires Remembers(s, t, push, pop)
    ensures Remembers(TryToPop(s, u, timed, expired, who).0, t, push, if u == t then Some(timed) else pop)
  {
  }

  lemma StepRemembers<T>(s: State<T>, step: Step<T>, t: Tid, push: Option<(T, bool)>, pop: Option<bool>)
    requires Enabled(s, step) && Remembers(s, t, push, pop)
    ensures Remembers(Do(s, step).0, t, PushBy(step, t, push), PopBy(step, t, pop))
  {
    match step
    case EnterPush(u, item, timed, who) =>
      hide TryToPush;
      PushRemembers(s, u, item, timed, false, who, t, push, pop);
    case ResumePush(u, who) =>
      PushRemembers(s, u, s.pushing[u], s.pushers[u].timed, s.pushers[u].expired, who, t, push, pop);
      hide TryToPush;
    case EnterPop(u, timed, who) =>
      hide TryToPop;
      PopRemembers(s, u, timed, false, who, t, push, pop);
    case ResumePop(u, who) =>
      PopRemembers(s, u, s.poppers[u].timed, s.poppers[u].expired, who, t, push, pop);
      hide TryToPop;
    case StirPusher(_, _) =>
    case StirPopper(_, _) =>
    case Close =>
    case Clear =>
  }

  lemma {:induction false} RunRemembers<T>(s: State<T>, steps: seq<Step<T>>, t: Tid, push: Option<(T, bool)>, pop: Option<bool>)
    requires Possible(s, steps) && Remembers(s, t, push, pop)
    ensures Remembers(Exec(s, steps), t, LatestPush(steps, t, push), LatestPop(steps, t, pop))
    decreases |steps|
  {
    if steps != [] {
      StepRemembers(s, steps[0], t, push, pop);
      hide Remembers, Enabled, Do, PushBy, PopBy;
      RunRemembers(Do(s, steps[0]).0, steps[1..], t, PushBy(steps[0], t, push), PopBy(steps[0], t, pop));
    }
  }

  /** After every run, a waiting pusher still holds the item of its own latest call, and every waiting
      thread came by the kind of call, timed or not, that it made. */
  lemma WaitersKeepTheirCalls<T>(max: nat, steps: seq<Step<T>>, t: Tid)
    requires Possible(Init(max), steps)
    ensures var e := Exec(Init(max), steps);
            && (t in e.pushers ==> t in e.pushing && LatestPush(steps, t, None) == Some((e.pushing[t], e.pushers[t].timed)))
            && (t in e.poppers ==> LatestPop(steps, t, None) == Some(e.poppers[t].timed))
  {
    RunRemembers(Init(max), steps, t, None, None);
  }

  /** A thread whose time is up, and stays so until it gets the mutex back. */
  predicate TimeUp<T>(s: State<T>, t: Tid) {
    || (t in s.pushers && t in s.pushing && s.pushers[t].signalled && s.pushers[t].expired)
    || (t in s.poppers && s.poppers[t].signalled && s.poppers[t].expired)
  }

  predicate Resumes<T>(steps: seq<Step<T>>, t: Tid) {
    exists i :: 0 <= i < |steps| && (steps[i].ResumePush? || steps[i].ResumePop?) && steps[i].t == t
  }

  lemma {:induction false} TimeStaysUp<T>(s: State<T>, steps: seq<Step<T>>, t: Tid)
    requires Possible(s, steps) && TimeUp(s, t) && !Resumes(steps, t)
    requires t !in s.pushers || t !in s.poppers
    ensures TimeUp(Exec(s, steps), t) && (t in Exec(s, steps).pushers <==> t in s.pushers)
    decreases |steps|
  {
    if steps != [] {
      assert !((steps[0].ResumePush? || steps[0].ResumePop?) && steps[0].t == t);
      OneStepUp(s, steps[0], t);
      assert !Resumes(steps[1..], t) by {
        assert forall i :: 0 <= i < |steps[1..]| ==> steps[1..][i] == steps[i + 1];
      }
      hide TimeUp, Resumes, Enabled, Do;
      TimeStaysUp(Do(s, steps[0]).0, steps[1..], t);
    }
  }

  lemma OneStepUp<T>(s: State<T>, step: Step<T>, t: Tid)
    requires Enabled(s, step) && TimeUp(s, t) && (t !in s.pushers || t !in s.poppers)
    requires !((step.ResumePush? || step.ResumePop?) && step.t == t)
    ensures var s' := Do(s, step).0;
            && TimeUp(s', t) && (t !in s'.pushers || t !in s'.poppers) && (t in s'.pushers <==> t in s.pushers)
  {
  }

  /** A timed push whose time is up while it waits returns, whatever happens until it gets the mutex. */
  lemma TimedPushReturns<T>(s: State<T>, t: Tid, steps: seq<Step<T>>, who: Option<Tid>)
    requires t in s.pushers && t in s.pushing && s.pushers[t].timed && t !in s.poppers
    requires var s' := Do(s, StirPusher(t, true)).0; Possible(s', steps) && Notifiable(Exec(s', steps).poppers, who)
    requires !Resumes(steps, t)
    ensures var e := Exec(Do(s, StirPusher(t, true)).0, steps);
            Enabled(e, ResumePush(t, who)) && Do(e, ResumePush(t, who)).1.PushReturned?
  {
    TimeStaysUp(Do(s, StirPusher(t, true)).0, steps, t);
    StaysApart(Do(s, StirPusher(t, true)).0, steps, t);
  }

  /** So does a timed pop. */
  lemma TimedPopReturns<T>(s: State<T>, t: Tid, steps: seq<Step<T>>, who: Option<Tid>)
    requires t in s.poppers && s.poppers[t].timed && t !in s.pushers
    requires var s' := Do(s, StirPopper(t, true)).0; Possible(s', steps) && Notifiable(Exec(s', steps).pushers, who)
    requires !Resumes(steps, t)
    ensures var e := Exec(Do(s, StirPopper(t, true)).0, steps);
            Enabled(e, ResumePop(t, who)) && Do(e, ResumePop(t, who)).1.PopReturned?
  {
    TimeStaysUp(Do(s, StirPopper(t, true)).0, steps, t);
  }

  /** No thread is inside two calls. */
  lemma {:induction false} StaysApart<T>(s: State<T>, steps: seq<Step<T>>, t: Tid)
    requires Possible(s, steps) && (t !in s.pushers || t !in s.poppers)
    ensures t !in Exec(s, steps).pushers || t !in Exec(s, steps).poppers
    decreases |steps|
  {
    if steps != [] {
      ApartStep(s, steps[0], t);
      hide Enabled, Do;
      StaysApart(Do(s, steps[0]).0, steps[1..], t);
    }
  }

  lemma ApartStep<T>(s: State<T>, step: Step<T>, t: Tid)
    requires Enabled(s, step) && (t !in s.pushers || t !in s.poppers)
    ensures t !in Do(s, step).0.pushers || t !in Do(s, step).0.poppers
  {
  }

  /** Once closed, nothing is accepted any more by any run, */
  lemma ClosedAcceptsNothing<T>(s: State<T>, steps: seq<Step<T>>)
    requires s.closed && Possible(s, steps)
    ensures Exec(s, steps).closed && Exec(s, steps).accepted == s.accepted
    ensures PushedItems(s, steps) == []
  {
    LogsAreReturns(s, steps);
  }

  function PopTimes<T>(t: Tid, n: nat): (steps: seq<Step<T>>)
    ensures |steps| == n
  {
    if n == 0 then [] else [EnterPop(t, false, None)] + PopTimes(t, n - 1)
  }

  /** but what was held is still delivered: a thread that keeps popping gets every item, in order,
      without ever waiting, and after that is told there is none. */
  lemma {:induction false} ClosedStillDrains<T>(s: State<T>, t: Tid)
    requires Inv(s) && s.closed && t !in s.pushers && t !in s.poppers
    ensures var steps := PopTimes<T>(t, |s.queue|);
            && Possible(s, steps) && Exec(s, steps).queue == []
            && Items(TakenItems(s, steps)) == s.queue
            && Enabled(Exec(s, steps), EnterPop(t, false, None))
            && Do(Exec(s, steps), EnterPop(t, false, None)).1 == PopReturned(None)
    decreases |s.queue|
  {
    if s.queue != [] {
      var pop: Step<T> := EnterPop(t, false, None);
      ClosedPop(s, t);
      StepKeeps(s, pop);
      hide Inv, Enabled, Do, LeavingItems;
      var s', steps := Do(s, pop).0, PopTimes<T>(t, |s.queue|);
      ClosedStillDrains(s', t);
      assert steps[0] == pop && steps[1..] == PopTimes<T>(t, |s'.queue|);
      hide PopTimes;
      FirstStep(s, steps);
      ItemsCons(Popped(s.queue[0]), TakenItems(s', steps[1..]));
      hide *;
      assert s.queue == [s.queue[0]] + s.queue[1..];
    }
  }

  lemma FirstStep<T>(s: State<T>, steps: seq<Step<T>>)
    requires steps != [] && Enabled(s, steps[0]) && Possible(Do(s, steps[0]).0, steps[1..])
    ensures Possible(s, steps)
    ensures var s' := Do(s, steps[0]).0;
            && Exec(s, steps) == Exec(s', steps[1..])
            && TakenItems(s, steps) == LeavingItems(s, steps[0]) + TakenItems(s', steps[1..])
  {
    hide Enabled, Do, LeavingItems;
  }

  /** One pop from a closed queue that is not empty. */
  lemma ClosedPop<T>(s: State<T>, t: Tid)
    requires Inv(s) && s.closed && t !in s.pushers && t !in s.poppers && s.queue != []
    ensures var pop: Step<T> := EnterPop(t, false, None);
            && Enabled(s, pop) && LeavingItems(s, pop) == [Popped(s.queue[0])]
            && Do(s, pop).0.queue == s.queue[1..] && Do(s, pop).0.closed
            && t !in Do(s, pop).0.pushers && t !in Do(s, pop).0.poppers
  {
  }

  // ---- the object -----------------------------------------------------------------------------------------

  /** The queue with its waiting threads.  Each method is one stretch inside the mutex; a call that
      must wait returns `Waiting` and comes back through the same method once signalled. */
  class ThreadSafeQueue<T> {
    const max: nat
    var queue: seq<T>
    var closed: bool
    var pushers: map<Tid, Waiter>
    var pushing: map<Tid, T>
    var poppers: map<Tid, Waiter>
    ghost var accepted: seq<T>
    ghost var left: seq<Fate<T>>

    ghost function Model(): State<T>
      reads this
    {
      State(queue, max, closed, pushers, pushing, poppers, accepted, left)
    }

    ghost predicate Valid()
      reads this
    {
      Inv(Model())
    }

    constructor (max: nat)
      ensures Valid() && Model() == Init(max)
    {
      this.max := max;
      queue, closed, accepted, left := [], false, [], [];
      pushers, pushing, poppers := map[], map[], map[];
    }

    method Push(t: Tid, item: T, timed: bool, expired: bool, who: Option<Tid>) returns (out: Outcome<T>)
      requires Valid() && !Sleeps(pushers, t) && Notifiable(poppers, who)
      modifies this
      ensures Valid() && (Model(), out) == TryToPush(old(Model()), t, item, timed, expired, who)
    {
      PushKeeps(Model(), t, item, timed, expired, who);
      hide Inv;
      if !(|queue| < max || closed) && !expired {
        pushers, pushing := pushers[t := Waiter(false, timed, false)], pushing[t := item];
        return Waiting;
      }
      pushers, pushing := pushers - {t}, pushing - {t};
      if closed || |queue| >= max {
        return PushReturned(false);
      }
      queue, accepted := queue + [item], accepted + [item];
      poppers := NotifyOne(poppers, who);
      return PushReturned(true);
    }

    method Pop(t: Tid, timed: bool, expired: bool, who: Option<Tid>) returns (out: Outcome<T>)
      requires Valid() && !Sleeps(poppers, t) && Notifiable(pushers, who)
      modifies this
      ensures Valid() && (Model(), out) == TryToPop(old(Model()), t, timed, expired, who)
    {
      PopKeeps(Model(), t, timed, expired, who);
      hide Inv;
      if |queue| == 0 && !closed && !expired {
        poppers := poppers[t := Waiter(false, timed, false)];
        return Waiting;
      }
      poppers := poppers - {t};
      if |queue| == 0 {
        return PopReturned(None);
      }
      var item := queue[0];
      queue, left := queue[1..], left + [Popped(item)];
      pushers := NotifyOne(pushers, who);
      return PopReturned(Some(item));
    }

    method Close()
      requires Valid()
      modifies this
      ensures Valid() && Model() == Closed(old(Model()))
    {
      StepKeeps(Model(), Step<T>.Close);
      closed := true;
      poppers := NotifyAll(poppers);
      pushers := NotifyAll(pushers);
    }

    method Clear()
      requires Valid()
      modifies this
      ensures Valid() && Model() == Emptied(old(Model()))
    {
      StepKeeps(Model(), Step<T>.Clear);
      queue, left := [], left + AllCleared(queue);
      pushers := NotifyAll(pushers);
    }
  }
}
