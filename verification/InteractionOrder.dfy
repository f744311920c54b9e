/** The records of the command journal. */
module Interactions {
  import opened Wrappers
  import opened WorkspaceDelta

  datatype JournalState = Active | ProjectionPending | RollbackPending | Confirmed | Rejected | Conflict

  /** A journal row; `createdAt` is a clock text in a format that sorts by time. */
  datatype Interaction = Interaction(
    commandId: string,
    createdAt: string,
    predecessors: set<string>,
    changes: seq<EntityChange>,
    state: JournalState)

  predicate Terminal(s: JournalState) {
    s == Confirmed || s == Rejected || s == Conflict
  }

  predicate Unsettled(s: JournalState) {
    !Terminal(s)
  }

  function Ids(records: seq<Interaction>): set<string> {
    set r | r in records :: r.commandId
  }

  predicate UniqueIds(records: seq<Interaction>) {
    forall i, j | 0 <= i < j < |records| :: records[i].commandId != records[j].commandId
  }
}

/**
 The order in which dependent commands are sent, rebuilt and unwound: a topological order of the
 journal that falls back on creation time and then on the identifier, and the transitive closure
 that a rejection cascades through.
 */
module InteractionOrder {
  import opened Sequences
  import opened Wrappers
  import opened WorkspaceDelta
  import opened Interactions

  // ---------------------------------------------------------------------------------------
  // Clock and identifier order
  // ---------------------------------------------------------------------------------------

  predicate TextBefore(a: string, b: string) {
    if b == "" then false
    else if a == "" then true
    else a[0] < b[0] || (a[0] == b[0] && TextBefore(a[1..], b[1..]))
  }

  lemma TextOrder(a: string, b: string)
    ensures a == b || TextBefore(a, b) || TextBefore(b, a)
    ensures !(TextBefore(a, b) && TextBefore(b, a))
    ensures a == b ==> !TextBefore(a, b)
  {
    if a != "" && b != "" {
      TextOrder(a[1..], b[1..]);
      assert a == [a[0]] + a[1..] && b == [b[0]] + b[1..];
    }
  }

  lemma TextTransitive(a: string, b: string, c: string)
    requires TextBefore(a, b) && TextBefore(b, c)
    ensures TextBefore(a, c)
  {
    if a != "" && a[0] == b[0] == c[0] {
      TextTransitive(a[1..], b[1..], c[1..]);
    }
  }

  predicate Earlier(a: Interaction, b: Interaction) {
    TextBefore(a.createdAt, b.createdAt)
    || (a.createdAt == b.createdAt && TextBefore(a.commandId, b.commandId))
  }

  lemma EarlierOrder(a: Interaction, b: Interaction)
    ensures a.commandId == b.commandId || Earlier(a, b) || Earlier(b, a)
    ensures !(Earlier(a, b) && Earlier(b, a))
    ensures !Earlier(a, a)
  {
    TextOrder(a.createdAt, b.createdAt);
    TextOrder(a.commandId, b.commandId);
    TextOrder(a.createdAt, a.createdAt);
    TextOrder(a.commandId, a.commandId);
  }

  lemma EarlierTransitive(a: Interaction, b: Interaction, c: Interaction)
    requires Earlier(a, b) && Earlier(b, c)
    ensures Earlier(a, c)
  {
    if TextBefore(a.createdAt, b.createdAt) && TextBefore(b.createdAt, c.createdAt) {
      TextTransitive(a.createdAt, b.createdAt, c.createdAt);
    } else if a.createdAt == b.createdAt == c.createdAt {
      TextTransitive(a.commandId, b.commandId, c.commandId);
    }
  }

  function Insert(x: Interaction, rs: seq<Interaction>): seq<Interaction> {
    if rs == [] || Earlier(x, rs[0]) then [x] + rs else [rs[0]] + Insert(x, rs[1..])
  }

  function Sorted(rs: seq<Interaction>): seq<Interaction> {
    if rs == [] then [] else Insert(rs[0], Sorted(rs[1..]))
  }

  ghost predicate Increasing(rs: seq<Interaction>) {
    forall i, j | 0 <= i < j < |rs| :: Earlier(rs[i], rs[j])
  }

  /** The record comes before every record of the list. */
  ghost predicate Leads(x: Interaction, rs: seq<Interaction>) {
    forall y | y in rs :: Earlier(x, y)
  }

  lemma LeadingIncreases(x: Interaction, rs: seq<Interaction>)
    requires Increasing(rs) && Leads(x, rs)
    ensures Increasing([x] + rs)
  {
    var all := [x] + rs;
    forall i, j | 0 <= i < j < |all| ensures Earlier(all[i], all[j]) {
      assert all[j] == rs[j - 1] && rs[j - 1] in rs;
    }
  }

  lemma TailIncreases(rs: seq<Interaction>)
    requires Increasing(rs) && rs != []
    ensures Increasing(rs[1..]) && Leads(rs[0], rs[1..])
  {
    forall y | y in rs[1..] ensures Earlier(rs[0], y) {
      var i :| 0 <= i < |rs[1..]| && rs[1..][i] == y;
      assert rs[i + 1] == y;
    }
  }

  lemma {:induction false} InsertBag(x: Interaction, rs: seq<Interaction>)
    ensures multiset(Insert(x, rs)) == multiset(rs) + multiset{x}
    decreases |rs|
  {
    if rs != [] && !Earlier(x, rs[0]) {
      HeadTail(rs);
      InsertBag(x, rs[1..]);
      HeadTail([rs[0]] + Insert(x, rs[1..]));
    }
  }

  lemma InsertMembers(x: Interaction, rs: seq<Interaction>, y: Interaction)
    ensures y in Insert(x, rs) <==> y == x || y in rs
  {
    InsertBag(x, rs);
    assert y in multiset(Insert(x, rs)) <==> y in multiset(rs) + multiset{x};
  }

  lemma LeadsEarlier(x: Interaction, rs: seq<Interaction>)
    requires Increasing(rs) && rs != [] && Earlier(x, rs[0])
    ensures Leads(x, rs)
  {
    forall y | y in rs ensures Earlier(x, y) {
      LeastFirst(rs, y);
      if y != rs[0] {
        EarlierTransitive(x, rs[0], y);
      }
    }
  }

  lemma {:induction false} InsertSorts(x: Interaction, rs: seq<Interaction>)
    requires Increasing(rs) && forall y | y in rs :: y.commandId != x.commandId
    ensures Increasing(Insert(x, rs))
    decreases |rs|
  {
    if rs != [] {
      EarlierOrder(x, rs[0]);
      if Earlier(x, rs[0]) {
        LeadsEarlier(x, rs);
        LeadingIncreases(x, rs);
      } else {
        TailIncreases(rs);
        InsertSorts(x, rs[1..]);
        forall y | y in Insert(x, rs[1..]) ensures Earlier(rs[0], y) {
          InsertMembers(x, rs[1..], y);
        }
        LeadingIncreases(rs[0], Insert(x, rs[1..]));
      }
    }
  }

  lemma {:induction false} SortedSorts(rs: seq<Interaction>)
    requires UniqueIds(rs)
    ensures Increasing(Sorted(rs)) && multiset(Sorted(rs)) == multiset(rs)
    decreases |rs|
  {
    if rs != [] {
      HeadTail(rs);
      SortedSorts(rs[1..]);
      SameBag(Sorted(rs[1..]), rs[1..]);
      forall y | y in rs[1..] ensures y.commandId != rs[0].commandId {
        var i :| 0 <= i < |rs[1..]| && rs[1..][i] == y;
        assert rs[i + 1] == y;
      }
      InsertSorts(rs[0], Sorted(rs[1..]));
      InsertBag(rs[0], Sorted(rs[1..]));
    }
  }

  lemma LeastFirst(rs: seq<Interaction>, x: Interaction)
    requires Increasing(rs) && x in rs
    ensures x == rs[0] || Earlier(rs[0], x)
  {
    var i :| 0 <= i < |rs| && rs[i] == x;
  }

  lemma {:induction false} IncreasingIsUnique(a: seq<Interaction>, b: seq<Interaction>)
    requires Increasing(a) && Increasing(b) && multiset(a) == multiset(b)
    ensures a == b
    decreases |a|
  {
    SameBag(a, b);
    if a != [] {
      LeastFirst(a, b[0]);
      LeastFirst(b, a[0]);
      EarlierOrder(a[0], b[0]);
      SameTail(a, b);
      TailIncreases(a);
      TailIncreases(b);
      IncreasingIsUnique(a[1..], b[1..]);
      HeadTail(a);
      HeadTail(b);
    }
  }

  // ---------------------------------------------------------------------------------------
  // Topological order
  // ---------------------------------------------------------------------------------------

  /** Some record of the list must come first. */
  predicate Blocked(item: Interaction, remaining: seq<Interaction>) {
    exists other | other in remaining :: other.commandId in item.predecessors
  }

  /** The first record, from index i, that waits for no record of the list. */
  function FirstReady(remaining: seq<Interaction>, i: nat): (r: Option<nat>)
    requires i <= |remaining|
    ensures r.Some? ==> i <= r.value < |remaining| && !Blocked(remaining[r.value], remaining)
                        && forall k | i <= k < r.value :: Blocked(remaining[k], remaining)
    ensures r.None? ==> forall k | i <= k < |remaining| :: Blocked(remaining[k], remaining)
    decreases |remaining| - i
  {
    if i == |remaining| then None
    else if !Blocked(remaining[i], remaining) then Some(i)
    else FirstReady(remaining, i + 1)
  }

  function Without(rs: seq<Interaction>, i: nat): seq<Interaction>
    requires i < |rs|
  {
    rs[..i] + rs[i + 1..]
  }

  lemma WithoutContents(rs: seq<Interaction>, i: nat)
    requires i < |rs|
    ensures multiset(rs) == multiset(Without(rs, i)) + multiset{rs[i]}
    ensures Increasing(rs) ==> Increasing(Without(rs, i))
  {
    assert rs == rs[..i] + [rs[i]] + rs[i + 1..];
  }

  /** Repeatedly take the first record that waits for none of the others; none left means a cycle. */
  function Drain(remaining: seq<Interaction>): Option<seq<Interaction>>
    decreases |remaining|
  {
    if remaining == [] then Some([])
    else match FirstReady(remaining, 0)
         case None => None
         case Some(i) =>
           match Drain(Without(remaining, i))
           case None => None
           case Some(rest) => Some([remaining[i]] + rest)
  }

  function Ordered(records: seq<Interaction>): Option<seq<Interaction>> {
    Drain(Sorted(records))
  }

  function Following(head: seq<Interaction>, rest: Option<seq<Interaction>>): Option<seq<Interaction>> {
    match rest case None => None case Some(tail) => Some(head + tail)
  }

  lemma DrainStep(ordered: seq<Interaction>, remaining: seq<Interaction>, i: nat)
    requires FirstReady(remaining, 0) == Some(i)
    ensures Following(ordered, Drain(remaining)) == Following(ordered + [remaining[i]], Drain(Without(remaining, i)))
  {
    var rest := Drain(Without(remaining, i));
    if rest.Some? {
      assert ordered + ([remaining[i]] + rest.value) == ordered + [remaining[i]] + rest.value;
    }
  }

  method FindReady(remaining: seq<Interaction>) returns (index: nat)
    ensures match FirstReady(remaining, 0) case Some(i) => index == i case None => index == |remaining|
  {
    index := 0;
    while index < |remaining| && Blocked(remaining[index], remaining)
      invariant index <= |remaining|
      invariant FirstReady(remaining, 0) == FirstReady(remaining, index)
    {
      index := index + 1;
    }
  }

  /** The loop that splices ready records out of the sorted list; None is the cycle error. */
  method OrderInteractions(records: seq<Interaction>) returns (r: Option<seq<Interaction>>)
    ensures r == Ordered(records)
  {
    var ordered: seq<Interaction> := [];
    var remaining := Sorted(records);
    if Drain(remaining).Some? {
      assert [] + Drain(remaining).value == Drain(remaining).value;
    }
    while remaining != []
      invariant Ordered(records) == Following(ordered, Drain(remaining))
      decreases |remaining|
    {
      var index := FindReady(remaining);
      if index == |remaining| {
        return None;
      }
      DrainStep(ordered, remaining, index);
      ordered := ordered + [remaining[index]];
      remaining := Without(remaining, index);
    }
    assert ordered + [] == ordered;
    return Some(ordered);
  }

  /** Each record comes after all of its predecessors in the list. */
  predicate Topological(o: seq<Interaction>) {
    forall i, j | 0 <= i <= j < |o| :: o[j].commandId !in o[i].predecessors
  }

  lemma TopologicalHead(x: Interaction, rest: seq<Interaction>)
    requires Topological(rest) && x.commandId !in x.predecessors && forall y | y in rest ::
               y.commandId !in x.predecessors
    ensures Topological([x] + rest)
  {
    var o := [x] + rest;
    forall a, b | 0 <= a <= b < |o| ensures o[b].commandId !in o[a].predecessors {
      if a == 0 {
        assert b > 0 ==> o[b] == rest[b - 1] && rest[b - 1] in rest;
      } else {
        assert o[a] == rest[a - 1] && o[b] == rest[b - 1];
      }
    }
  }

  lemma {:induction false} DrainSound(rs: seq<Interaction>)
    requires Drain(rs).Some?
    ensures multiset(Drain(rs).value) == multiset(rs)
    ensures Topological(Drain(rs).value)
    decreases |rs|
  {
    if rs != [] {
      var i := FirstReady(rs, 0).value;
      var rest := Drain(Without(rs, i)).value;
      DrainSound(Without(rs, i));
      WithoutContents(rs, i);
      BagOfConcat([rs[i]], rest, rs[i]);
      SameBag(rest, Without(rs, i));
      forall y | y in Without(rs, i) ensures y in rs {}
      assert !Blocked(rs[i], rs) && rs[i] in rs;
      TopologicalHead(rs[i], rest);
    }
  }

  /** A set of records each waiting for another of the set. */
  ghost predicate Stuck(s: set<Interaction>) {
    s != {} && forall x {:trigger Waits(x, s)} | x in s :: Waits(x, s)
  }

  ghost predicate Waits(x: Interaction, s: set<Interaction>) {
    exists y :: y in s && y.commandId in x.predecessors
  }

  ghost predicate Within(s: set<Interaction>, rs: seq<Interaction>) {
    forall x | x in s :: x in rs
  }

  ghost predicate HasCycle(rs: seq<Interaction>) {
    exists s: set<Interaction> :: Stuck(s) && Within(s, rs)
  }

  lemma NoneReadyIsStuck(rs: seq<Interaction>)
    requires rs != [] && forall k | 0 <= k < |rs| :: Blocked(rs[k], rs)
    ensures HasCycle(rs)
  {
    var s := set x | x in rs;
    assert rs[0] in s;
    forall x | x in s ensures Waits(x, s) {
      StuckMember(rs, x, s);
    }
    assert Stuck(s) && Within(s, rs);
  }

  lemma StuckMember(rs: seq<Interaction>, x: Interaction, s: set<Interaction>)
    requires x in rs && (forall y | y in rs :: y in s) && forall k | 0 <= k < |rs| :: Blocked(rs[k], rs)
    ensures Waits(x, s)
  {
    var k :| 0 <= k < |rs| && rs[k] == x;
    var y :| y in rs && y.commandId in rs[k].predecessors;
  }

  lemma ReadyIsOutsideCycles(rs: seq<Interaction>, i: nat, s: set<Interaction>)
    requires i < |rs| && !Blocked(rs[i], rs) && Stuck(s)
    ensures Within(s, rs) <==> Within(s, Without(rs, i))
  {
    if Within(s, rs) {
      forall x | x in s ensures Blocked(x, rs) {
        assert Waits(x, s);
      }
      forall x | x in s ensures x in Without(rs, i) {
        var k :| 0 <= k < |rs| && rs[k] == x;
        assert if k < i then rs[..i][k] == x else rs[i + 1..][k - i - 1] == x;
      }
    }
  }

  lemma {:induction false} DrainFailsOnCycle(rs: seq<Interaction>)
    ensures Drain(rs).None? <==> HasCycle(rs)
    decreases |rs|
  {
    if rs == [] {
      forall s: set<Interaction> | Stuck(s) ensures !Within(s, rs) {
        var x :| x in s;
      }
    } else {
      match FirstReady(rs, 0)
      case None => NoneReadyIsStuck(rs);
      case Some(i) =>
        forall s | Stuck(s) ensures Within(s, rs) <==> Within(s, Without(rs, i)) {
          ReadyIsOutsideCycles(rs, i, s);
        }
        DrainFailsOnCycle(Without(rs, i));
    }
  }

  /** An earlier record is overtaken only while one of its own predecessors is still waiting. */
  ghost predicate LeastOrder(o: seq<Interaction>) {
    forall i, k | 0 <= i < k < |o| && Earlier(o[k], o[i]) :: Blocked(o[k], o[i..])
  }

  lemma OvertakenIsBlocked(rs: seq<Interaction>, at: nat, x: Interaction)
    requires Increasing(rs) && FirstReady(rs, 0) == Some(at)
    requires x in rs && Earlier(x, rs[at])
    ensures Blocked(x, rs)
  {
    var p :| 0 <= p < |rs| && rs[p] == x;
    EarlierOrder(x, rs[at]);
  }

  lemma BlockedByContents(x: Interaction, a: seq<Interaction>, b: seq<Interaction>)
    requires Blocked(x, a) && multiset(a) == multiset(b)
    ensures Blocked(x, b)
  {
    var y :| y in a && y.commandId in x.predecessors;
    assert y in multiset(b);
  }

  lemma LeastFirstStep(rs: seq<Interaction>, at: nat, o: seq<Interaction>, x: Interaction)
    requires Increasing(rs) && FirstReady(rs, 0) == Some(at) && multiset(o) == multiset(rs)
    requires x in o && Earlier(x, rs[at])
    ensures Blocked(x, o)
  {
    SameBag(o, rs);
    OvertakenIsBlocked(rs, at, x);
    BlockedByContents(x, rs, o);
  }

  lemma LeastLaterStep(x: Interaction, rest: seq<Interaction>, i: nat, k: nat)
    requires LeastOrder(rest) && 0 < i < k < |rest| + 1 && Earlier(([x] + rest)[k], ([x] + rest)[i])
    ensures Blocked(([x] + rest)[k], ([x] + rest)[i..])
  {
    assert ([x] + rest)[k] == rest[k - 1] && ([x] + rest)[i] == rest[i - 1];
    assert ([x] + rest)[i..] == rest[i - 1..];
    assert Blocked(rest[k - 1], rest[i - 1..]);
  }

  /** Putting first the record that was ready first keeps the order least. */
  lemma LeastHead(rs: seq<Interaction>, at: nat, rest: seq<Interaction>)
    requires Increasing(rs) && FirstReady(rs, 0) == Some(at) && LeastOrder(rest)
    requires multiset([rs[at]] + rest) == multiset(rs)
    ensures LeastOrder([rs[at]] + rest)
  {
    var o := [rs[at]] + rest;
    forall i, k | 0 <= i < k < |o| && Earlier(o[k], o[i]) ensures Blocked(o[k], o[i..]) {
      if i == 0 {
        LeastFirstStep(rs, at, o, o[k]);
        assert o[0..] == o;
      } else {
        LeastLaterStep(rs[at], rest, i, k);
      }
    }
  }

  lemma {:induction false} DrainLeast(rs: seq<Interaction>)
    requires Increasing(rs) && Drain(rs).Some?
    ensures LeastOrder(Drain(rs).value)
    decreases |rs|
  {
    if rs != [] {
      var at := FirstReady(rs, 0).value;
      var rest := Drain(Without(rs, at)).value;
      WithoutContents(rs, at);
      DrainLeast(Without(rs, at));
      DrainSound(rs);
      LeastHead(rs, at, rest);
    }
  }

  /** What ordering promises: every record once, no record before a predecessor, the earliest
      ready record always next, and failure exactly on a dependency cycle. */
  lemma OrderSpecification(records: seq<Interaction>)
    requires UniqueIds(records)
    ensures Ordered(records).None? <==> HasCycle(records)
    ensures Ordered(records).Some? ==>
              var o := Ordered(records).value;
              multiset(o) == multiset(records) && Topological(o) && LeastOrder(o)
  {
    var s := Sorted(records);
    SortedSorts(records);
    DrainFailsOnCycle(s);
    assert forall x :: x in s <==> x in records by {
      forall x ensures x in s <==> x in records {
        assert x in multiset(s) <==> x in multiset(records);
      }
    }
    if Ordered(records).Some? {
      DrainSound(s);
      DrainLeast(s);
    }
  }

  /** The order does not depend on how the database happened to list the records. */
  lemma OrderIgnoresListing(a: seq<Interaction>, b: seq<Interaction>)
    requires UniqueIds(a) && UniqueIds(b) && multiset(a) == multiset(b)
    ensures Ordered(a) == Ordered(b)
  {
    SortedSorts(a);
    SortedSorts(b);
    IncreasingIsUnique(Sorted(a), Sorted(b));
  }

  /** With clocks that respect dependency, the order is plain creation order. */
  lemma {:induction false} MonotoneClockOrder(rs: seq<Interaction>)
    requires Increasing(rs)
    requires forall x, y | x in rs && y in rs && y.commandId in x.predecessors :: Earlier(y, x)
    ensures Drain(rs) == Some(rs)
    decreases |rs|
  {
    if rs != [] {
      TailIncreases(rs);
      HeadTail(rs);
      forall y | y in rs ensures y.commandId !in rs[0].predecessors {
        EarlierOrder(rs[0], y);
        assert rs[0] in rs && (y == rs[0] || y in rs[1..]);
      }
      assert FirstReady(rs, 0) == Some(0);
      assert Without(rs, 0) == rs[1..];
      MonotoneClockOrder(rs[1..]);
    }
  }

  // ---------------------------------------------------------------------------------------
  // Transitive dependents
  // ---------------------------------------------------------------------------------------

  /** A chain of n unsettled records leads from the root to the identifier. */
  ghost predicate ReachedIn(records: seq<Interaction>, root: string, id: string, n: nat)
    decreases n
  {
    if n == 0 then id == root
    else exists x, p :: x in records && Unsettled(x.state) && x.commandId == id
                        && p in x.predecessors && ReachedIn(records, root, p, n - 1)
  }

  ghost predicate DependsOn(records: seq<Interaction>, root: string, id: string) {
    exists n: nat :: ReachedIn(records, root, id, n)
  }

  /** Exactly the unsettled records, other than the root, that some chain leads to. */
  ghost predicate IsCascade(records: seq<Interaction>, root: string, ds: seq<Interaction>) {
    forall x :: x in ds <==> x in records && Unsettled(x.state) && x.commandId != root
                             && DependsOn(records, root, x.commandId)
  }

  lemma {:induction false} ClosedContainsReached(records: seq<Interaction>, root: string, ids: set<string>,
                                                 id: string, n: nat)
    requires root in ids
    requires forall x | x in records && Unsettled(x.state) && x.predecessors * ids != {} :: x.commandId in ids
    requires ReachedIn(records, root, id, n)
    ensures id in ids
    decreases n
  {
    if n > 0 {
      var x, p :| x in records && Unsettled(x.state) && x.commandId == id
                  && p in x.predecessors && ReachedIn(records, root, p, n - 1);
      ClosedContainsReached(records, root, ids, p, n - 1);
      assert p in x.predecessors * ids;
    }
  }

  lemma ReachedStep(records: seq<Interaction>, root: string, x: Interaction, p: string)
    requires x in records && Unsettled(x.state) && p in x.predecessors && DependsOn(records, root, p)
    ensures DependsOn(records, root, x.commandId)
  {
    var n: nat :| ReachedIn(records, root, p, n);
    assert ReachedIn(records, root, x.commandId, n + 1);
  }

  /** No record outside the set waits for a member of it. */
  ghost predicate Closed(records: seq<Interaction>, ids: set<string>) {
    forall x | x in records && Unsettled(x.state) && x.predecessors * ids != {} :: x.commandId in ids
  }

  /** What the passes have found so far. */
  ghost predicate Collected(records: seq<Interaction>, root: string, found: seq<Interaction>, ids: set<string>) {
    && ids == {root} + Ids(found) && UniqueIds(found)
    && (forall x | x in found :: x in records && Unsettled(x.state) && x.commandId != root)
    && (forall id | id in ids :: DependsOn(records, root, id))
  }

  lemma CollectOne(records: seq<Interaction>, root: string, found: seq<Interaction>, ids: set<string>,
                   item: Interaction)
    requires Collected(records, root, found, ids)
    requires item in records && Unsettled(item.state) && item.commandId !in ids && item.predecessors * ids != {}
    ensures Collected(records, root, found + [item], ids + {item.commandId})
  {
    var p :| p in item.predecessors * ids;
    ReachedStep(records, root, item, p);
    assert Ids(found + [item]) == Ids(found) + {item.commandId} by {
      assert item in found + [item];
      forall x | x in found ensures x in found + [item] {}
    }
    forall i | 0 <= i < |found| ensures found[i].commandId != item.commandId {
      assert found[i] in found;
    }
  }

  lemma CollectedIsCascade(records: seq<Interaction>, root: string, found: seq<Interaction>, ids: set<string>)
    requires UniqueIds(records) && Collected(records, root, found, ids) && Closed(records, ids)
    ensures IsCascade(records, root, found)
  {
    forall x ensures x in found <==> x in records && Unsettled(x.state) && x.commandId != root
                                     && DependsOn(records, root, x.commandId)
    {
      if x in records && Unsettled(x.state) && x.commandId != root && DependsOn(records, root, x.commandId) {
        var n: nat :| ReachedIn(records, root, x.commandId, n);
        ClosedContainsReached(records, root, ids, x.commandId, n);
        var y :| y in found && y.commandId == x.commandId;
        var i :| 0 <= i < |records| && records[i] == x;
        var j :| 0 <= j < |records| && records[j] == y;
      }
      if x in found {
        assert x.commandId in ids;
      }
    }
  }

  /** One pass over the list. */
  method CollectPass(records: seq<Interaction>, root: string, found: seq<Interaction>, ids: set<string>)
    returns (found': seq<Interaction>, ids': set<string>)
    requires Collected(records, root, found, ids)
    ensures Collected(records, root, found', ids') && ids <= ids'
    ensures ids == ids' ==> Closed(records, ids) && found' == found
  {
    found', ids' := found, ids;
    for n := 0 to |records|
      invariant Collected(records, root, found', ids') && ids <= ids'
      invariant ids == ids' ==> found' == found
      invariant ids == ids' ==>
                  forall k | 0 <= k < n && Unsettled(records[k].state) && records[k].predecessors * ids != {} ::
                    records[k].commandId in ids
    {
      var item := records[n];
      if Unsettled(item.state) && item.commandId !in ids' && item.predecessors * ids' != {} {
        CollectOne(records, root, found', ids', item);
        found' := found' + [item];
        ids' := ids' + {item.commandId};
        assert item.commandId !in ids;
      }
    }
  }

  /** Passes over the list until a pass adds nothing; then the found records are ordered. */
  method DependentInteractions(records: seq<Interaction>, root: string)
    returns (found: seq<Interaction>, r: Option<seq<Interaction>>)
    requires UniqueIds(records)
    ensures IsCascade(records, root, found) && UniqueIds(found)
    ensures r == Ordered(found)
  {
    var ids := {root};
    found := [];
    var changed := true;
    assert ReachedIn(records, root, root, 0);
    while changed
      invariant Collected(records, root, found, ids)
      invariant !changed ==> Closed(records, ids)
      decreases Ids(records) - ids, changed
    {
      var found', ids' := CollectPass(records, root, found, ids);
      changed := ids' != ids;
      if changed {
        assert Ids(records) - ids' < Ids(records) - ids by {
          var id :| id in ids' && id !in ids;
          assert id in Ids(found');
          assert id in Ids(records);
        }
      }
      found, ids := found', ids';
    }
    CollectedIsCascade(records, root, found, ids);
    r := OrderInteractions(found);
  }
}
