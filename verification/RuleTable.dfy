/**
 The process rules: 61 chains keyed by a case-insensitive hash of the path, and a count of the
 rules that allow.  Together the chains behave as one list in insertion order.
 */
module RuleTable {
  import opened Wrappers
  import opened Bytes

  datatype Action = Audit | Block | Allow

  /** Paths are sequences of 16-bit units. */
  type Path = seq<u16>

  /** The system's upper-case table. */
  type Casing = u16 -> u16

  datatype Rule = Rule(path: Path, action: Action)

  const NUM_BUCKETS: nat := 61

  // ---- paths ----------------------------------------------------------------------------------------

  /** `MatchPath`: equal up to case. */
  predicate SamePath(upcase: Casing, a: Path, b: Path) {
    |a| == |b| && forall i :: 0 <= i < |a| ==> upcase(a[i]) == upcase(b[i])
  }

  function Upper(upcase: Casing, path: Path): (u: Path)
    ensures |u| == |path|
  {
    seq(|path|, i requires 0 <= i < |path| => upcase(path[i]))
  }

  /** Two paths match exactly when their upper-cased forms are the same. */
  lemma MatchIffUpperEqual(upcase: Casing, a: Path, b: Path)
    ensures SamePath(upcase, a, b) <==> Upper(upcase, a) == Upper(upcase, b)
  {
    var u, v := Upper(upcase, a), Upper(upcase, b);
    if u == v {
      assert forall i :: 0 <= i < |a| ==> u[i] == upcase(a[i]) && v[i] == upcase(b[i]);
    }
  }

  /** The X65599 hash of the upper-cased path, in 32 bits. */
  function HashPath(upcase: Casing, path: Path): u32 {
    if path == [] then 0
    else U32(HashPath(upcase, path[..|path| - 1]) * 65599 + upcase(path[|path| - 1]))
  }

  function BucketOf(upcase: Casing, path: Path): (b: nat)
    ensures b < NUM_BUCKETS
  {
    HashPath(upcase, path) % NUM_BUCKETS
  }

  /** Paths that match land in the same chain. */
  lemma {:induction false} HashRespectsCase(upcase: Casing, a: Path, b: Path)
    requires SamePath(upcase, a, b)
    ensures HashPath(upcase, a) == HashPath(upcase, b)
  {
    if a != [] {
      HashRespectsCase(upcase, a[..|a| - 1], b[..|b| - 1]);
      assert upcase(a[|a| - 1]) == upcase(b[|b| - 1]);
    }
  }

  lemma SameBucket(upcase: Casing, a: Path, b: Path)
    requires SamePath(upcase, a, b)
    ensures BucketOf(upcase, a) == BucketOf(upcase, b)
  {
    HashRespectsCase(upcase, a, b);
  }

  // ---- the list the table stands for ------------------------------------------------------------------

  /** Where the earliest rule for a path is, or the length of the list. */
  function FirstMatch(upcase: Casing, rules: seq<Rule>, path: Path): (k: nat)
    ensures k <= |rules| && (k < |rules| ==> SamePath(upcase, rules[k].path, path))
    ensures forall j :: 0 <= j < k ==> !SamePath(upcase, rules[j].path, path)
  {
    if rules == [] || SamePath(upcase, rules[0].path, path) then 0
    else 1 + FirstMatch(upcase, rules[1..], path)
  }

  function Without(rules: seq<Rule>, k: nat): seq<Rule>
    requires k < |rules|
  {
    rules[..k] + rules[k + 1..]
  }

  function CountAllow(rules: seq<Rule>): (n: nat)
    ensures n <= |rules|
  {
    if rules == [] then 0 else (if rules[0].action.Allow? then 1 else 0) + CountAllow(rules[1..])
  }

  lemma {:induction false} CountAllowSplit(a: seq<Rule>, b: seq<Rule>)
    ensures CountAllow(a + b) == CountAllow(a) + CountAllow(b)
  {
    if a == [] {
      assert a + b == b;
    } else {
      CountAllowSplit(a[1..], b);
      assert (a + b)[1..] == a[1..] + b;
    }
  }

  lemma {:induction false} CountAllowWithout(rules: seq<Rule>, k: nat)
    requires k < |rules|
    ensures CountAllow(rules) == CountAllow(Without(rules, k)) + (if rules[k].action.Allow? then 1 else 0)
  {
    if k == 0 {
      assert Without(rules, k) == rules[1..];
    } else {
      CountAllowWithout(rules[1..], k - 1);
      assert Without(rules, k) == [rules[0]] + Without(rules[1..], k - 1);
      assert Without(rules, k)[1..] == Without(rules[1..], k - 1);
    }
  }

  /** The rules of one chain. */
  function InBucket(upcase: Casing, rules: seq<Rule>, b: nat): seq<Rule> {
    if rules == [] then []
    else (if BucketOf(upcase, rules[0].path) == b then [rules[0]] else []) + InBucket(upcase, rules[1..], b)
  }

  lemma InBucketUnfold(upcase: Casing, rules: seq<Rule>, b: nat)
    requires rules != []
    ensures var tail := InBucket(upcase, rules[1..], b);
            InBucket(upcase, rules, b) == if BucketOf(upcase, rules[0].path) == b then [rules[0]] + tail else tail
  {
  }

  lemma InBucketCons(upcase: Casing, rule: Rule, tail: seq<Rule>, b: nat)
    ensures InBucket(upcase, [rule] + tail, b) ==
            (if BucketOf(upcase, rule.path) == b then [rule] else []) + InBucket(upcase, tail, b)
  {
    assert ([rule] + tail)[1..] == tail;
  }

  lemma {:induction false} InBucketSplit(upcase: Casing, rules: seq<Rule>, more: seq<Rule>, b: nat)
    ensures InBucket(upcase, rules + more, b) == InBucket(upcase, rules, b) + InBucket(upcase, more, b)
  {
    if rules == [] {
      assert rules + more == more;
    } else {
      hide *;
      var rule, tail := rules[0], rules[1..];
      assert rules == [rule] + tail;
      Reassociate([rule], tail, more);
      InBucketSplit(upcase, tail, more, b);
      InBucketCons(upcase, rule, tail, b);
      InBucketCons(upcase, rule, tail + more, b);
      Reassociate(if BucketOf(upcase, rule.path) == b then [rule] else [],
                  InBucket(upcase, tail, b), InBucket(upcase, more, b));
    }
  }

  lemma Around(rules: seq<Rule>, k: nat)
    requires k < |rules|
    ensures rules == rules[..k] + ([rules[k]] + rules[k + 1..])
  {
  }

  lemma WithoutMiddle(front: seq<Rule>, rule: Rule, back: seq<Rule>)
    ensures Without(front + ([rule] + back), |front|) == front + back
  {
  }

  /** A chain, cut around the rule at `k`. */
  lemma InBucketAround(upcase: Casing, rules: seq<Rule>, k: nat, b: nat)
    requires k < |rules|
    ensures var front, back := InBucket(upcase, rules[..k], b), InBucket(upcase, rules[k + 1..], b);
            && InBucket(upcase, Without(rules, k), b) == front + back
            && InBucket(upcase, rules, b) ==
               (if BucketOf(upcase, rules[k].path) == b then front + ([rules[k]] + back) else front + back)
  {
    hide BucketOf;
    var front, one, back := rules[..k], [rules[k]], rules[k + 1..];
    assert InBucket(upcase, one, b) == if BucketOf(upcase, rules[k].path) == b then one else [];
    Around(rules, k);
    InBucketSplit(upcase, front, one + back, b);
    InBucketSplit(upcase, one, back, b);
    InBucketSplit(upcase, front, back, b);
    hide InBucket;
    assert [] + InBucket(upcase, back, b) == InBucket(upcase, back, b);
  }

  lemma {:induction false} NoMatchInChain(upcase: Casing, rules: seq<Rule>, path: Path, b: nat)
    requires forall i :: 0 <= i < |rules| ==> !SamePath(upcase, rules[i].path, path)
    ensures var chain := InBucket(upcase, rules, b);
            forall i :: 0 <= i < |chain| ==> !SamePath(upcase, chain[i].path, path)
  {
    hide BucketOf, SamePath;
    if rules != [] {
      NoMatchInChain(upcase, rules[1..], path, b);
      assert !SamePath(upcase, rules[0].path, path);
      InBucketUnfold(upcase, rules, b);
      hide InBucket;
    }
  }

  /** Searching a path's own chain finds the earliest rule of the whole list. */
  lemma ChainFindsEarliest(upcase: Casing, rules: seq<Rule>, path: Path)
    ensures var chain := InBucket(upcase, rules, BucketOf(upcase, path));
            var k, m := FirstMatch(upcase, rules, path), FirstMatch(upcase, chain, path);
            && (k < |rules| <==> m < |chain|)
            && (k < |rules| ==>
                  && rules[k] == chain[m]
                  && m == |InBucket(upcase, rules[..k], BucketOf(upcase, path))|)
  {
    hide BucketOf, SamePath, InBucket, FirstMatch;
    var b, k := BucketOf(upcase, path), FirstMatch(upcase, rules, path);
    NoMatchInChain(upcase, rules[..k], path, b);
    if k < |rules| {
      SameBucket(upcase, rules[k].path, path);
      InBucketAround(upcase, rules, k, b);
      var front := InBucket(upcase, rules[..k], b);
      EarliestAt(upcase, front, rules[k], InBucket(upcase, rules[k + 1..], b), path);
    } else {
      assert rules[..k] == rules;
    }
  }

  lemma EarliestAt(upcase: Casing, front: seq<Rule>, rule: Rule, back: seq<Rule>, path: Path)
    requires SamePath(upcase, rule.path, path)
    requires forall i :: 0 <= i < |front| ==> !SamePath(upcase, front[i].path, path)
    ensures FirstMatch(upcase, front + ([rule] + back), path) == |front|
  {
    hide SamePath, FirstMatch;
    var all := front + ([rule] + back);
    assert all[|front|] == rule;
    assert forall i :: 0 <= i < |front| ==> all[i] == front[i];
  }

  /** Taking the earliest match out of the list takes it out of its own chain and no other. */
  lemma ChainDropsEarliest(upcase: Casing, rules: seq<Rule>, path: Path, b: nat)
    requires FirstMatch(upcase, rules, path) < |rules|
    ensures var k, chain := FirstMatch(upcase, rules, path), InBucket(upcase, rules, b);
            var m := FirstMatch(upcase, chain, path);
            && (b != BucketOf(upcase, path) ==> InBucket(upcase, Without(rules, k), b) == chain)
            && (b == BucketOf(upcase, path) ==>
                  m < |chain| && InBucket(upcase, Without(rules, k), b) == Without(chain, m))
  {
    hide BucketOf, SamePath, InBucket;
    var k := FirstMatch(upcase, rules, path);
    SameBucket(upcase, rules[k].path, path);
    InBucketAround(upcase, rules, k, b);
    if b == BucketOf(upcase, path) {
      ChainFindsEarliest(upcase, rules, path);
      hide FirstMatch;
      WithoutMiddle(InBucket(upcase, rules[..k], b), rules[k], InBucket(upcase, rules[k + 1..], b));
    }
  }

  // ---- the table as a value, and the whitelist counter --------------------------------------------------

  /** The insertion-ordered list and the 32-bit counter. */
  datatype Table = Table(rules: seq<Rule>, whitelist: u32)

  /** `seen`: the action read back from the entry after it has been freed. */
  datatype Op = Insert(path: Path, action: Action, memory: bool) | Remove(path: Path, seen: Action)

  function Inserted(t: Table, path: Path, action: Action): Table {
    Table(t.rules + [Rule(path, action)], if action.Allow? then U32(t.whitelist + 1) else t.whitelist)
  }

  function Removed(upcase: Casing, t: Table, path: Path, seen: Action): Table {
    var k := FirstMatch(upcase, t.rules, path);
    if k == |t.rules| then t
    else Table(Without(t.rules, k), if seen.Allow? && t.whitelist > 0 then t.whitelist - 1 else t.whitelist)
  }

  function Done(upcase: Casing, t: Table, op: Op): Table {
    match op
    case Insert(path, action, memory) => if memory then Inserted(t, path, action) else t
    case Remove(path, seen) => Removed(upcase, t, path, seen)
  }

  /** The counter counts the rules that allow. */
  predicate Exact(t: Table) {
    t.whitelist == CountAllow(t.rules)
  }

  /** A removal that finds a rule reads an action that is `Allow` exactly when the rule's own is. */
  predicate SeesOwnAction(upcase: Casing, t: Table, op: Op) {
    op.Remove? ==>
      var k := FirstMatch(upcase, t.rules, op.path);
      k < |t.rules| ==> (op.seen.Allow? <==> t.rules[k].action.Allow?)
  }

  /** The counter has room for one more. */
  predicate CounterRoom(t: Table, op: Op) {
    op.Insert? && op.action.Allow? && op.memory ==> t.whitelist + 1 < TWO32
  }

  /** One operation keeps an exact counter exact if and only if an insertion does not wrap it and a
      removal reads the action right; the one misreading that does no harm is of an `Allow` while
      the counter, being exact, is already zero. */
  lemma CounterExactIff(upcase: Casing, t: Table, op: Op)
    requires Exact(t)
    ensures Exact(Done(upcase, t, op)) <==>
            && CounterRoom(t, op)
            && (SeesOwnAction(upcase, t, op) || (op.Remove? && op.seen.Allow? && t.whitelist == 0))
  {
    match op
    case Insert(path, action, memory) =>
      CountAllowSplit(t.rules, [Rule(path, action)]);
      assert CountAllow([Rule(path, action)]) == if action.Allow? then 1 else 0;
    case Remove(path, seen) =>
      var k := FirstMatch(upcase, t.rules, path);
      if k < |t.rules| {
        CountAllowWithout(t.rules, k);
      }
  }

  function DoneAll(upcase: Casing, t: Table, ops: seq<Op>): Table
    decreases |ops|
  {
    if ops == [] then t else DoneAll(upcase, Done(upcase, t, ops[0]), ops[1..])
  }

  predicate AllSeen(upcase: Casing, t: Table, ops: seq<Op>)
    decreases |ops|
  {
    ops == [] ||
    (SeesOwnAction(upcase, t, ops[0]) && CounterRoom(t, ops[0]) && AllSeen(upcase, Done(upcase, t, ops[0]), ops[1..]))
  }

  /** Over every history whose removals read the right action, the counter is exact: a whitelist is
      in force exactly when some rule allows. */
  lemma {:induction false} CounterExactOverHistory(upcase: Casing, t: Table, ops: seq<Op>)
    requires Exact(t) && AllSeen(upcase, t, ops)
    ensures var t' := DoneAll(upcase, t, ops);
            Exact(t') && (t'.whitelist > 0 <==> exists i :: 0 <= i < |t'.rules| && t'.rules[i].action.Allow?)
    decreases |ops|
  {
    if ops == [] {
      SomeAllow(t.rules);
    } else {
      CounterExactIff(upcase, t, ops[0]);
      CounterExactOverHistory(upcase, Done(upcase, t, ops[0]), ops[1..]);
    }
  }

  lemma {:induction false} SomeAllow(rules: seq<Rule>)
    ensures CountAllow(rules) > 0 <==> exists i :: 0 <= i < |rules| && rules[i].action.Allow?
  {
    if rules != [] {
      SomeAllow(rules[1..]);
      if rules[0].action.Allow? {
        assert 0 <= 0 < |rules| && rules[0].action.Allow?;
      } else if CountAllow(rules[1..]) > 0 {
        var i :| 0 <= i < |rules[1..]| && rules[1..][i].action.Allow?;
        assert rules[i + 1].action.Allow?;
      }
    }
  }

  // ---- what a lookup finds after any history ----------------------------------------------------------

  /** The rules inserted for a path, in any spelling, in order. */
  function Inserts(upcase: Casing, ops: seq<Op>, path: Path): seq<Rule> {
    if ops == [] then []
    else
      var before, op := Inserts(upcase, ops[..|ops| - 1], path), ops[|ops| - 1];
      if op.Insert? && op.memory && Upper(upcase, op.path) == Upper(upcase, path) then before + [Rule(op.path, op.action)]
      else before
  }

  /** How many of them have been removed: each removal takes one while there is one. */
  function Removals(upcase: Casing, ops: seq<Op>, path: Path): (n: nat)
    ensures n <= |Inserts(upcase, ops, path)|
  {
    if ops == [] then 0
    else
      var front, op := ops[..|ops| - 1], ops[|ops| - 1];
      var before := Removals(upcase, front, path);
      if op.Remove? && Upper(upcase, op.path) == Upper(upcase, path) && before < |Inserts(upcase, front, path)| then before + 1
      else before
  }

  /** The rules of a list that are for a path. */
  function OfPath(upcase: Casing, rules: seq<Rule>, path: Path): seq<Rule> {
    if rules == [] then []
    else (if Upper(upcase, rules[0].path) == Upper(upcase, path) then [rules[0]] else []) + OfPath(upcase, rules[1..], path)
  }

  lemma {:induction false} OfPathAppend(upcase: Casing, rules: seq<Rule>, rule: Rule, path: Path)
    ensures OfPath(upcase, rules + [rule], path) ==
            OfPath(upcase, rules, path) + (if Upper(upcase, rule.path) == Upper(upcase, path) then [rule] else [])
  {
    hide Upper;
    if rules == [] {
      assert rules + [rule] == [rule];
    } else {
      OfPathAppend(upcase, rules[1..], rule, path);
      assert (rules + [rule])[1..] == rules[1..] + [rule];
    }
  }

  lemma {:induction false} FirstIsFirstOfPath(upcase: Casing, rules: seq<Rule>, path: Path)
    ensures var k, mine := FirstMatch(upcase, rules, path), OfPath(upcase, rules, path);
            (k < |rules| <==> mine != []) && (k < |rules| ==> rules[k] == mine[0])
  {
    if rules != [] {
      MatchIffUpperEqual(upcase, rules[0].path, path);
      FirstIsFirstOfPath(upcase, rules[1..], path);
      hide Upper, SamePath;
    }
  }

  /** Removing the first rule for one path leaves those for any other alone. */
  lemma {:induction false} OfPathWithout(upcase: Casing, rules: seq<Rule>, gone: Path, path: Path)
    requires FirstMatch(upcase, rules, gone) < |rules|
    ensures var rest := OfPath(upcase, Without(rules, FirstMatch(upcase, rules, gone)), path);
            if Upper(upcase, gone) == Upper(upcase, path) then
              OfPath(upcase, rules, path) != [] && rest == OfPath(upcase, rules, path)[1..]
            else rest == OfPath(upcase, rules, path)
  {
    var k := FirstMatch(upcase, rules, gone);
    MatchIffUpperEqual(upcase, rules[0].path, gone);
    if SamePath(upcase, rules[0].path, gone) {
      assert Without(rules, k) == rules[1..];
    } else {
      assert Without(rules, k) == [rules[0]] + Without(rules[1..], k - 1);
      assert Without(rules, k)[1..] == Without(rules[1..], k - 1);
      OfPathWithout(upcase, rules[1..], gone, path);
    }
  }

  lemma {:induction false} DoneLast(upcase: Casing, t: Table, ops: seq<Op>)
    requires ops != []
    ensures DoneAll(upcase, t, ops) == Done(upcase, DoneAll(upcase, t, ops[..|ops| - 1]), ops[|ops| - 1])
    decreases |ops|
  {
    hide Done;
    if |ops| > 1 {
      DoneLast(upcase, Done(upcase, t, ops[0]), ops[1..]);
      assert ops[1..][..|ops| - 2] == ops[..|ops| - 1][1..];
    }
  }

  /** After any history, the rules for a path are those inserted for it, in order, without the first so
      many that have been removed; so a lookup in any spelling gives the path and the action of the
      earliest insertion not yet removed, and nothing when there is none. */
  lemma {:induction false} LookupAfterHistory(upcase: Casing, ops: seq<Op>, path: Path)
    ensures var t, mine, gone := DoneAll(upcase, Table([], 0), ops), Inserts(upcase, ops, path), Removals(upcase, ops, path);
            var k := FirstMatch(upcase, t.rules, path);
            && OfPath(upcase, t.rules, path) == mine[gone..]
            && (k < |t.rules| <==> gone < |mine|) && (k < |t.rules| ==> t.rules[k] == mine[gone])
  {
    var t := DoneAll(upcase, Table([], 0), ops);
    if ops != [] {
      var front, op := ops[..|ops| - 1], ops[|ops| - 1];
      var before := DoneAll(upcase, Table([], 0), front);
      LookupAfterHistory(upcase, front, path);
      DoneLast(upcase, Table([], 0), ops);
      HistoryStep(upcase, before, op, path);
      hide DoneAll, Done, Upper, FirstMatch, OfPath;
      assert Inserts(upcase, ops, path) == Inserts(upcase, front, path)
        + (if op.Insert? && op.memory && Upper(upcase, op.path) == Upper(upcase, path) then [Rule(op.path, op.action)] else []);
    }
    FirstIsFirstOfPath(upcase, t.rules, path);
  }

  /** One operation's effect on the rules for a path. */
  lemma HistoryStep(upcase: Casing, t: Table, op: Op, path: Path)
    ensures var mine, mine' := OfPath(upcase, t.rules, path), OfPath(upcase, Done(upcase, t, op).rules, path);
            var same := Upper(upcase, op.path) == Upper(upcase, path);
            mine' == if op.Insert? && op.memory && same then mine + [Rule(op.path, op.action)]
                     else if op.Remove? && same && mine != [] then mine[1..]
                     else mine
  {
    match op
    case Insert(q, action, memory) =>
      OfPathAppend(upcase, t.rules, Rule(q, action), path);
      assert OfPath(upcase, t.rules, path) + [] == OfPath(upcase, t.rules, path);
    case Remove(q, seen) =>
      FirstIsFirstOfPath(upcase, t.rules, q);
      SameOfPath(upcase, t.rules, q, path);
      if FirstMatch(upcase, t.rules, q) < |t.rules| {
        OfPathWithout(upcase, t.rules, q, path);
      }
      hide Upper, OfPath, FirstMatch;
  }

  lemma {:induction false} SameOfPath(upcase: Casing, rules: seq<Rule>, a: Path, b: Path)
    ensures Upper(upcase, a) == Upper(upcase, b) ==> OfPath(upcase, rules, a) == OfPath(upcase, rules, b)
  {
    hide Upper;
    if rules != [] {
      SameOfPath(upcase, rules[1..], a, b);
    }
  }

  /** A freed entry read back as anything but `Allow` leaves a whitelist in force with no rule. */
  lemma FreedEntryMisread(upcase: Casing, path: Path)
    ensures var t := DoneAll(upcase, Table([], 0), [Insert(path, Allow, true), Remove(path, Audit)]);
            t.rules == [] && t.whitelist == 1 && !Exact(t)
  {
    var rule := Rule(path, Allow);
    var ops := [Insert(path, Allow, true), Remove(path, Audit)];
    var t1 := Table([rule], 1);
    assert Done(upcase, Table([], 0), ops[0]) == t1;
    assert FirstMatch(upcase, [rule], path) == 0;
    assert Done(upcase, t1, ops[1]) == Table([], 1);
    assert DoneAll(upcase, Table([], 1), ops[1..][1..]) == Table([], 1);
    assert DoneAll(upcase, t1, ops[1..]) == Table([], 1);
  }

  /** A rule inserted for a path that has none is the one a lookup of any spelling finds; one for a
      path that already has a rule is shadowed.  Removing undoes the first insertion. */
  lemma InsertThenRemove(upcase: Casing, t: Table, path: Path, spelling: Path, action: Action)
    requires SamePath(upcase, path, spelling)
    ensures var t' := Inserted(t, path, action);
            && FirstMatch(upcase, t'.rules, spelling) == FirstMatch(upcase, t.rules, spelling) < |t'.rules|
            && (FirstMatch(upcase, t.rules, spelling) == |t.rules| ==>
                  Removed(upcase, t', spelling, action).rules == t.rules)
            && (FirstMatch(upcase, t.rules, spelling) == |t.rules| && CounterRoom(t, Insert(path, action, true)) ==>
                  Removed(upcase, t', spelling, action) == t)
  {
    hide SamePath, FirstMatch;
    FirstMatchAppend(upcase, t.rules, Rule(path, action), spelling);
    WithoutMiddle(t.rules, Rule(path, action), []);
    assert t.rules + ([Rule(path, action)] + []) == t.rules + [Rule(path, action)] && t.rules + [] == t.rules;
  }

  /** A later rule for a path does not change which rule is found first. */
  lemma FirstMatchAppend(upcase: Casing, rules: seq<Rule>, rule: Rule, path: Path)
    requires SamePath(upcase, rule.path, path)
    ensures FirstMatch(upcase, rules + [rule], path) == FirstMatch(upcase, rules, path)
  {
    hide SamePath, FirstMatch;
    var all := rules + [rule];
    assert all[|rules|] == rule;
    assert forall j :: 0 <= j < |rules| ==> all[j] == rules[j];
  }

  // ---- the chains -----------------------------------------------------------------------------------------

  class Globals {
    const buckets: array<seq<Rule>>
    const upcase: Casing
    var whitelist: u32
    ghost var order: seq<Rule>

    ghost predicate Valid()
      reads this, buckets
    {
      && buckets.Length == NUM_BUCKETS
      && (forall b :: 0 <= b < NUM_BUCKETS ==> buckets[b] == InBucket(upcase, order, b))
    }

    ghost function Model(): Table
      reads this
    {
      Table(order, whitelist)
    }

    constructor (upcase: Casing)
      ensures Valid() && fresh(buckets) && this.upcase == upcase && Model() == Table([], 0)
    {
      this.upcase := upcase;
      buckets := new seq<Rule>[NUM_BUCKETS](_ => []);
      whitelist := 0;
      order := [];
    }

    /** `memory`: whether the entry could be allocated. */
    method InsertRule(path: Path, action: Action, memory: bool) returns (ok: bool)
      requires Valid()
      modifies this, buckets
      ensures Valid() && ok == memory
      ensures Model() == Done(upcase, old(Model()), Insert(path, action, memory))
    {
      if !memory {
        return false;
      }
      var rule, index := Rule(path, action), BucketOf(upcase, path);
      if action == Allow {
        whitelist := U32(whitelist + 1);
      }
      forall b
        ensures InBucket(upcase, order + [rule], b) == InBucket(upcase, order, b) + (if b == index then [rule] else [])
      {
        InBucketSplit(upcase, order, [rule], b);
      }
      buckets[index] := buckets[index] + [rule];
      order := order + [rule];
      return true;
    }

    /** The place of the earliest match in the path's chain. */
    method Search(path: Path) returns (place: nat)
      requires Valid()
      ensures place == FirstMatch(upcase, buckets[BucketOf(upcase, path)], path)
    {
      var chain := buckets[BucketOf(upcase, path)];
      for i := 0 to |chain|
        invariant forall j :: 0 <= j < i ==> !SamePath(upcase, chain[j].path, path)
      {
        if SamePath(upcase, chain[i].path, path) {
          return i;
        }
      }
      return |chain|;
    }

    /** Finds the earliest inserted rule whose path matches, if there is one. */
    method LookupRule(path: Path) returns (rule: Option<Rule>)
      requires Valid()
      ensures rule.None? <==> forall i :: 0 <= i < |order| ==> !SamePath(upcase, order[i].path, path)
      ensures rule.Some? ==> exists i :: && 0 <= i < |order| && rule.value == order[i] && SamePath(upcase, order[i].path, path)
                                         && forall j :: 0 <= j < i ==> !SamePath(upcase, order[j].path, path)
    {
      var place := Search(path);
      ChainFindsEarliest(upcase, order, path);
      var chain := buckets[BucketOf(upcase, path)];
      rule := if place < |chain| then Some(chain[place]) else None;
    }

    /** `seen`: what the freed entry's action reads as. */
    method RemoveRule(path: Path, seen: Action) returns (ok: bool)
      requires Valid()
      modifies this, buckets
      ensures Valid() && ok == (exists i :: 0 <= i < |old(order)| && SamePath(upcase, old(order)[i].path, path))
      ensures Model() == Done(upcase, old(Model()), Remove(path, seen))
    {
      hide SamePath, InBucket, BucketOf;
      var index := BucketOf(upcase, path);
      var place := Search(path);
      ChainFindsEarliest(upcase, order, path);
      var chain := buckets[index];
      if place == |chain| {
        return false;
      }
      forall b | 0 <= b < NUM_BUCKETS
        ensures var rest := InBucket(upcase, Without(order, FirstMatch(upcase, order, path)), b);
                rest == if b == index then Without(chain, place) else buckets[b]
      {
        ChainDropsEarliest(upcase, order, path, b);
      }
      buckets[index] := Without(chain, place);
      order := Without(order, FirstMatch(upcase, order, path));
      if seen == Allow && whitelist > 0 {
        whitelist := whitelist - 1;
      }
      return true;
    }
  }
}
