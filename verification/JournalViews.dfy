/**
 The journal seen from one entity: which records touch it, in which order, and why every order
 that respects dependency agrees with the order of creation there.
 */
module JournalViews {
  import opened Sequences
  import opened Wrappers
  import opened WorkspaceDelta
  import opened Interactions
  import opened InteractionOrder
  import opened RowChain
  import opened CacheRow

  predicate Touches(r: Interaction, e: EntityKey) {
    ChangeAt(r.changes, e).Some?
  }

  function ChangeOf(r: Interaction, e: EntityKey): EntityChange {
    match ChangeAt(r.changes, e) case Some(c) => c case None => EntityChange(e, None, None)
  }

  /** The records that touch the entity. */
  function On(rs: seq<Interaction>, e: EntityKey): seq<Interaction> {
    if rs == [] then []
    else On(rs[..|rs| - 1], e) + if Touches(rs[|rs| - 1], e) then [rs[|rs| - 1]] else []
  }

  /** The records with one of these identifiers. */
  function Pick(rs: seq<Interaction>, ids: set<string>): seq<Interaction> {
    if rs == [] then []
    else Pick(rs[..|rs| - 1], ids) + if rs[|rs| - 1].commandId in ids then [rs[|rs| - 1]] else []
  }

  /** The records with none of these identifiers. */
  function Drop(rs: seq<Interaction>, ids: set<string>): seq<Interaction> {
    if rs == [] then []
    else Drop(rs[..|rs| - 1], ids) + if rs[|rs| - 1].commandId !in ids then [rs[|rs| - 1]] else []
  }

  function ChangesOf(rs: seq<Interaction>, e: EntityKey): seq<EntityChange> {
    if rs == [] then [] else ChangesOf(rs[..|rs| - 1], e) + [ChangeOf(rs[|rs| - 1], e)]
  }

  /** Each record names every earlier record of the list as a predecessor. */
  ghost predicate Chained(rs: seq<Interaction>) {
    forall i, j | 0 <= i < j < |rs| :: rs[i].commandId in rs[j].predecessors
  }

  lemma OnMembers(rs: seq<Interaction>, e: EntityKey)
    ensures forall x :: x in On(rs, e) <==> x in rs && Touches(x, e)
    ensures forall x :: multiset(On(rs, e))[x] == if Touches(x, e) then multiset(rs)[x] else 0
  {
    if rs != [] {
      OnMembers(rs[..|rs| - 1], e);
      assert rs == rs[..|rs| - 1] + [rs[|rs| - 1]];
    }
  }

  lemma OnLast(rs: seq<Interaction>, r: Interaction, e: EntityKey)
    ensures On(rs + [r], e) == if Touches(r, e) then On(rs, e) + [r] else On(rs, e)
  {
    assert (rs + [r])[..|rs|] == rs;
  }

  lemma TopologicalLast(rs: seq<Interaction>, r: Interaction)
    ensures Topological(rs + [r]) <==>
            Topological(rs) && r.commandId !in r.predecessors && forall x | x in rs :: r.commandId !in x.predecessors
  {
    var all := rs + [r];
    if Topological(all) {
      assert all[|rs|].commandId !in all[|rs|].predecessors;
      forall i, j | 0 <= i <= j < |rs| ensures rs[j].commandId !in rs[i].predecessors {
        assert all[j].commandId !in all[i].predecessors;
      }
      forall x | x in rs ensures r.commandId !in x.predecessors {
        var i :| 0 <= i < |rs| && rs[i] == x;
        assert all[|rs|].commandId !in all[i].predecessors;
      }
    }
  }

  lemma OnTopological(rs: seq<Interaction>, e: EntityKey)
    requires Topological(rs)
    ensures Topological(On(rs, e))
  {
    if rs != [] {
      var init, last := rs[..|rs| - 1], rs[|rs| - 1];
      assert rs == init + [last];
      TopologicalLast(init, last);
      OnTopological(init, e);
      OnMembers(init, e);
      OnLast(init, last, e);
      TopologicalLast(On(init, e), last);
    }
  }

  lemma FirstOfBoth(a: seq<Interaction>, b: seq<Interaction>)
    requires Chained(a) && Topological(b) && a != [] && b != [] && (forall x :: x in a <==> x in b)
    ensures a[0] == b[0]
  {
    assert a[0] in b && b[0] in a;
    var j :| 0 <= j < |b| && b[j] == a[0];
    assert b[j].commandId !in b[0].predecessors;
    forall i | 0 < i < |a| ensures a[i] != b[0] {
      assert a[0].commandId in a[i].predecessors;
    }
  }

  lemma Tails(a: seq<Interaction>, b: seq<Interaction>)
    requires a != [] && b != []
    ensures Chained(a) ==> Chained(a[1..])
    ensures Topological(b) ==> Topological(b[1..])
  {
    if Topological(b) {
      forall i, j | 0 <= i <= j < |b[1..]| ensures b[1..][j].commandId !in b[1..][i].predecessors {
        assert b[j + 1].commandId !in b[i + 1].predecessors;
      }
    }
    if Chained(a) {
      forall i, j | 0 <= i < j < |a[1..]| ensures a[1..][i].commandId in a[1..][j].predecessors {
        assert a[i + 1].commandId in a[j + 1].predecessors;
      }
    }
  }

  /** Records that all depend on one another have only one order that respects dependency. */
  lemma {:induction false} ChainedOrder(a: seq<Interaction>, b: seq<Interaction>)
    requires Chained(a) && Topological(b) && multiset(a) == multiset(b)
    ensures a == b
    decreases |a|
  {
    SameBag(a, b);
    if a != [] {
      FirstOfBoth(a, b);
      SameTail(a, b);
      Tails(a, b);
      ChainedOrder(a[1..], b[1..]);
      HeadTail(a);
      HeadTail(b);
    }
  }

  /** On one entity whose records are chained, a dependency order of the journal is its own order. */
  lemma OrderOn(rs: seq<Interaction>, o: seq<Interaction>, e: EntityKey)
    requires Topological(o) && multiset(o) == multiset(rs) && Chained(On(rs, e))
    ensures On(o, e) == On(rs, e)
  {
    OnTopological(o, e);
    OnMembers(o, e);
    OnMembers(rs, e);
    assert multiset(On(o, e)) == multiset(On(rs, e));
    ChainedOrder(On(rs, e), On(o, e));
  }

  lemma OrderedOn(rs: seq<Interaction>, e: EntityKey)
    requires UniqueIds(rs) && Ordered(rs).Some? && Chained(On(rs, e))
    ensures On(Ordered(rs).value, e) == On(rs, e)
  {
    OrderSpecification(rs);
    OrderOn(rs, Ordered(rs).value, e);
  }

  // ---------------------------------------------------------------------------------------
  // Picking and dropping
  // ---------------------------------------------------------------------------------------

  lemma UniqueLast(rs: seq<Interaction>, r: Interaction)
    ensures UniqueIds(rs + [r]) <==> UniqueIds(rs) && forall x | x in rs :: x.commandId != r.commandId
  {
    var all := rs + [r];
    if UniqueIds(all) {
      forall i, j | 0 <= i < j < |rs| ensures rs[i].commandId != rs[j].commandId {
        assert all[i] == rs[i] && all[j] == rs[j];
      }
      forall x | x in rs ensures x.commandId != r.commandId {
        var i :| 0 <= i < |rs| && rs[i] == x;
        assert all[i] == x && all[|rs|] == r;
      }
    }
  }

  lemma PickMembers(rs: seq<Interaction>, ids: set<string>)
    ensures forall x :: x in Pick(rs, ids) <==> x in rs && x.commandId in ids
    ensures UniqueIds(rs) ==> UniqueIds(Pick(rs, ids))
  {
    if rs != [] {
      var init, last := rs[..|rs| - 1], rs[|rs| - 1];
      assert rs == init + [last];
      PickMembers(init, ids);
      UniqueLast(init, last);
      UniqueLast(Pick(init, ids), last);
    }
  }

  lemma DropLast(rs: seq<Interaction>, r: Interaction, ids: set<string>)
    ensures Drop(rs + [r], ids) == if r.commandId in ids then Drop(rs, ids) else Drop(rs, ids) + [r]
  {
    assert (rs + [r])[..|rs|] == rs;
  }

  lemma DropMembers(rs: seq<Interaction>, ids: set<string>)
    ensures forall x :: x in Drop(rs, ids) <==> x in rs && x.commandId !in ids
    ensures UniqueIds(rs) ==> UniqueIds(Drop(rs, ids))
    ensures Topological(rs) ==> Topological(Drop(rs, ids))
  {
    if rs != [] {
      var init, last := rs[..|rs| - 1], rs[|rs| - 1];
      assert rs == init + [last];
      DropMembers(init, ids);
      DropLast(init, last, ids);
      UniqueLast(init, last);
      UniqueLast(Drop(init, ids), last);
      TopologicalLast(init, last);
      TopologicalLast(Drop(init, ids), last);
    }
  }

  lemma OnDrop(rs: seq<Interaction>, ids: set<string>, e: EntityKey)
    ensures On(Drop(rs, ids), e) == Drop(On(rs, e), ids)
  {
    if rs != [] {
      var init, last := rs[..|rs| - 1], rs[|rs| - 1];
      assert rs == init + [last];
      OnDrop(init, ids, e);
      OnLast(init, last, e);
      DropLast(init, last, ids);
      OnLast(Drop(init, ids), last, e);
      DropLast(On(init, e), last, ids);
    }
  }

  lemma PickLast(rs: seq<Interaction>, r: Interaction, ids: set<string>)
    ensures Pick(rs + [r], ids) == if r.commandId in ids then Pick(rs, ids) + [r] else Pick(rs, ids)
  {
    assert (rs + [r])[..|rs|] == rs;
  }

  lemma DropNone(rs: seq<Interaction>, ids: set<string>)
    requires forall x | x in rs :: x.commandId !in ids
    ensures Drop(rs, ids) == rs
  {
    if rs != [] {
      assert rs == rs[..|rs| - 1] + [rs[|rs| - 1]];
      DropNone(rs[..|rs| - 1], ids);
    }
  }

  lemma DropSuffix(kept: seq<Interaction>, gone: seq<Interaction>, ids: set<string>)
    requires forall x | x in kept :: x.commandId !in ids
    requires forall x | x in gone :: x.commandId in ids
    ensures Drop(kept + gone, ids) == kept
  {
    if gone == [] {
      assert kept + gone == kept;
      DropNone(kept, ids);
    } else {
      assert (kept + gone)[..|kept + gone| - 1] == kept + gone[..|gone| - 1];
      DropSuffix(kept, gone[..|gone| - 1], ids);
    }
  }

  lemma DropFirst(r: Interaction, rest: seq<Interaction>)
    requires forall x | x in rest :: x.commandId != r.commandId
    ensures Drop([r] + rest, {r.commandId}) == rest
  {
    if rest == [] {
      assert [r] + rest == [r] && [r][..0] == [];
    } else {
      assert ([r] + rest)[..|rest|] == [r] + rest[..|rest| - 1];
      DropFirst(r, rest[..|rest| - 1]);
      assert rest == rest[..|rest| - 1] + [rest[|rest| - 1]];
    }
  }

  lemma UniqueByIds(a: seq<Interaction>, b: seq<Interaction>)
    requires UniqueIds(a) && multiset(a) == multiset(b)
    ensures UniqueIds(b)
  {
    forall i, j | 0 <= i < j < |b| ensures b[i].commandId != b[j].commandId {
      assert b[i] in multiset(a) && b[j] in multiset(a);
      var k :| 0 <= k < |a| && a[k] == b[i];
      var l :| 0 <= l < |a| && a[l] == b[j];
      if b[i] == b[j] {
        OnceInUnique(a, k);
        TwiceInList(b, i, j);
      }
    }
  }

  lemma OnceInUnique(a: seq<Interaction>, k: nat)
    requires UniqueIds(a) && k < |a|
    ensures multiset(a)[a[k]] == 1
  {
    assert a == a[..k] + [a[k]] + a[k + 1..];
    forall i | 0 <= i < |a| && i != k ensures a[i] != a[k] {}
    assert a[k] !in a[..k] && a[k] !in a[k + 1..];
  }

  lemma TwiceInList(b: seq<Interaction>, i: nat, j: nat)
    requires i < j < |b| && b[i] == b[j]
    ensures multiset(b)[b[i]] >= 2
  {
    assert b == b[..i] + [b[i]] + b[i + 1..j] + [b[j]] + b[j + 1..];
  }

  lemma SameIdSameRecord(rs: seq<Interaction>, x: Interaction, y: Interaction)
    requires UniqueIds(rs) && x in rs && y in rs && x.commandId == y.commandId
    ensures x == y
  {
    var i :| 0 <= i < |rs| && rs[i] == x;
    var j :| 0 <= j < |rs| && rs[j] == y;
  }

  lemma UniqueSameMembers(a: seq<Interaction>, b: seq<Interaction>)
    requires UniqueIds(a) && UniqueIds(b) && forall x :: x in a <==> x in b
    ensures multiset(a) == multiset(b)
  {
    forall x ensures multiset(a)[x] == multiset(b)[x] {
      if x in a {
        var i :| 0 <= i < |a| && a[i] == x;
        var j :| 0 <= j < |b| && b[j] == x;
        OnceInUnique(a, i);
        OnceInUnique(b, j);
      }
    }
  }

  lemma OnUnique(rs: seq<Interaction>, e: EntityKey)
    requires UniqueIds(rs)
    ensures UniqueIds(On(rs, e))
  {
    if rs != [] {
      var init, last := rs[..|rs| - 1], rs[|rs| - 1];
      assert rs == init + [last];
      UniqueLast(init, last);
      OnUnique(init, e);
      OnMembers(init, e);
      OnLast(init, last, e);
      UniqueLast(On(init, e), last);
    }
  }

  lemma ChainTail(ps: seq<Interaction>)
    requires Chained(ps) && UniqueIds(ps) && ps != []
    ensures Drop(ps, {ps[0].commandId}) == ps[1..] && Chained(ps[1..]) && UniqueIds(ps[1..])
    ensures forall p | p in ps[1..] :: ps[0].commandId in p.predecessors && p.commandId != ps[0].commandId
  {
    HeadTail(ps);
    ChainedSplit([ps[0]], ps[1..]);
    forall p | p in ps[1..] ensures p.commandId != ps[0].commandId {
      var k :| 0 <= k < |ps[1..]| && ps[1..][k] == p;
      assert ps[k + 1] == p;
    }
    DropFirst(ps[0], ps[1..]);
  }

  /** A record of a chain that waits for none of the chain is its first. */
  lemma ChainHead(ps: seq<Interaction>, r: Interaction)
    requires Chained(ps) && r in ps && forall p | p in ps :: p.commandId !in r.predecessors
    ensures ps[0] == r
  {
    var i :| 0 <= i < |ps| && ps[i] == r;
    assert ps[0] in ps;
  }

  /** A record that waits for nothing on a chained entity it touches is the oldest there, and every
      other record there names it as a predecessor. */
  lemma OldestOn(pending: seq<Interaction>, r: Interaction, e: EntityKey)
    requires UniqueIds(pending) && Chained(On(pending, e))
    requires r in pending && Touches(r, e) && forall p | p in On(pending, e) :: p.commandId !in r.predecessors
    ensures var ps := On(pending, e);
            var later := On(Drop(pending, {r.commandId}), e);
            && ps == [r] + later && later == Drop(ps, {r.commandId})
            && Chained(later) && UniqueIds(later)
            && forall p | p in later :: r.commandId in p.predecessors && p.commandId != r.commandId
  {
    OnMembers(pending, e);
    OnUnique(pending, e);
    OldestIn(On(pending, e), r);
    OnDrop(pending, {r.commandId}, e);
  }

  lemma OldestIn(ps: seq<Interaction>, r: Interaction)
    requires UniqueIds(ps) && Chained(ps) && r in ps && forall p | p in ps :: p.commandId !in r.predecessors
    ensures var later := Drop(ps, {r.commandId});
            && ps == [r] + later && Chained(later) && UniqueIds(later)
            && forall p | p in later :: r.commandId in p.predecessors && p.commandId != r.commandId
  {
    ChainHead(ps, r);
    ChainTail(ps);
    HeadTail(ps);
  }

  lemma DropUntouched(pending: seq<Interaction>, r: Interaction, e: EntityKey)
    requires UniqueIds(pending) && r in pending && !Touches(r, e)
    ensures On(Drop(pending, {r.commandId}), e) == On(pending, e)
  {
    var ps := On(pending, e);
    OnMembers(pending, e);
    OnDrop(pending, {r.commandId}, e);
    forall p | p in ps ensures p.commandId != r.commandId {
      if p.commandId == r.commandId {
        SameIdSameRecord(pending, p, r);
      }
    }
    DropNone(ps, {r.commandId});
  }

  lemma NoneOn(rs: seq<Interaction>, e: EntityKey)
    requires forall x | x in rs :: !Touches(x, e)
    ensures On(rs, e) == []
  {
    OnMembers(rs, e);
    assert forall i | 0 <= i < |On(rs, e)| :: On(rs, e)[i] in On(rs, e);
  }

  // ---------------------------------------------------------------------------------------
  // Cascades
  // ---------------------------------------------------------------------------------------

  /** No records of the journal wait for each other. */
  ghost predicate Acyclic(rs: seq<Interaction>) {
    !HasCycle(rs)
  }

  function Ties(x: Interaction): (string, set<string>) {
    (x.commandId, x.predecessors)
  }

  /** Some record of the list has the same identity and the same predecessors. */
  predicate LinkedIn(x: Interaction, b: seq<Interaction>) {
    exists y :: y in b && Ties(y) == Ties(x)
  }

  /** The records of the list with the links of one of the set. */
  function Alike(s: set<Interaction>, b: seq<Interaction>): set<Interaction> {
    var ties := set x | x in s :: Ties(x);
    set y | y in b && Ties(y) in ties
  }

  lemma AlikeOf(s: set<Interaction>, b: seq<Interaction>, x: Interaction) returns (y: Interaction)
    requires x in s && LinkedIn(x, b)
    ensures y in Alike(s, b) && Ties(y) == Ties(x)
  {
    y :| y in b && Ties(y) == Ties(x);
  }

  lemma WaitsAlike(s: set<Interaction>, b: seq<Interaction>, y: Interaction)
    requires Stuck(s) && (forall x | x in s :: LinkedIn(x, b)) && y in Alike(s, b)
    ensures Waits(y, Alike(s, b))
  {
    var x :| x in s && Ties(x) == Ties(y);
    assert Waits(x, s);
    var x': Interaction :| x' in s && x'.commandId in x.predecessors;
    var y' := AlikeOf(s, b, x');
  }

  lemma StuckAlike(s: set<Interaction>, b: seq<Interaction>)
    requires Stuck(s) && forall x | x in s :: LinkedIn(x, b)
    ensures HasCycle(b)
  {
    var x :| x in s;
    var y := AlikeOf(s, b, x);
    var t := Alike(s, b);
    forall y | y in t ensures Waits(y, t) {
      WaitsAlike(s, b, y);
    }
    assert Stuck(t) && Within(t, b);
  }

  /** Fewer records, or the same ones in other states, wait for each other no more than they did. */
  lemma AcyclicAlike(a: seq<Interaction>, b: seq<Interaction>)
    requires Acyclic(b) && forall x | x in a :: LinkedIn(x, b)
    ensures Acyclic(a)
  {
    forall s: set<Interaction> | Stuck(s) ensures !Within(s, a) {
      if Within(s, a) {
        StuckAlike(s, b);
      }
    }
  }

  lemma TopologicalAcyclic(rs: seq<Interaction>)
    requires Topological(rs)
    ensures Acyclic(rs)
  {
    forall s: set<Interaction> | s != {} && Within(s, rs) ensures !Stuck(s) {
      var i := FirstOf(rs, s);
      forall y | y in s ensures y.commandId !in rs[i].predecessors {
        var j :| 0 <= j < |rs| && rs[j] == y;
        assert rs[j].commandId !in rs[i].predecessors;
      }
      assert !Waits(rs[i], s);
    }
  }

  lemma FirstOf(rs: seq<Interaction>, s: set<Interaction>) returns (i: nat)
    requires s != {} && Within(s, rs)
    ensures i < |rs| && rs[i] in s && forall j | 0 <= j < i :: rs[j] !in s
  {
    i := 0;
    var x :| x in s;
    var k :| 0 <= k < |rs| && rs[k] == x;
    while rs[i] !in s
      invariant i <= k && forall j | 0 <= j < i :: rs[j] !in s
      decreases k - i
    {
      i := i + 1;
    }
  }

  lemma {:induction false} ReachedAlike(a: seq<Interaction>, b: seq<Interaction>, root: string, id: string, n: nat)
    requires (forall x :: x in a <==> x in b) && ReachedIn(a, root, id, n)
    ensures ReachedIn(b, root, id, n)
    decreases n
  {
    if n > 0 {
      var x, p :| x in a && Unsettled(x.state) && x.commandId == id && p in x.predecessors
          && ReachedIn(a, root, p, n - 1);
      ReachedAlike(a, b, root, p, n - 1);
    }
  }

  /** In a journal listed in dependency order, whatever a root reaches is listed after it. */
  lemma {:induction false} ReachedLater(pending: seq<Interaction>, root: nat, id: string, n: nat) returns (at: nat)
    requires root < |pending| && Topological(pending)
    requires ReachedIn(pending, pending[root].commandId, id, n)
    ensures root <= at < |pending| && pending[at].commandId == id
    decreases n
  {
    if n == 0 {
      at := root;
    } else {
      var x, p :| x in pending && Unsettled(x.state) && x.commandId == id
                  && p in x.predecessors && ReachedIn(pending, pending[root].commandId, p, n - 1);
      var below := ReachedLater(pending, root, p, n - 1);
      at :| 0 <= at < |pending| && pending[at] == x;
      forall k | 0 <= k <= below ensures pending[k] != x {
        assert pending[below].commandId !in pending[k].predecessors;
      }
    }
  }

  /** A root waits for nothing that depends on it, nor for itself. */
  lemma RootFirst(pending: seq<Interaction>, root: Interaction, order: seq<Interaction>)
    requires UniqueIds(pending) && Acyclic(pending) && root in pending && IsCascade(pending, root.commandId, order)
    ensures root.commandId !in root.predecessors && forall x | x in order :: x.commandId !in root.predecessors
  {
    OrderSpecification(pending);
    var listed := Ordered(pending).value;
    forall x ensures x in listed <==> x in pending {
      assert x in multiset(listed) <==> x in multiset(pending);
    }
    var r :| 0 <= r < |listed| && listed[r] == root;
    assert listed[r].commandId !in listed[r].predecessors;
    forall x | x in order ensures x.commandId !in root.predecessors {
      var n: nat :| ReachedIn(pending, root.commandId, x.commandId, n);
      ReachedAlike(pending, listed, root.commandId, x.commandId, n);
      var at := ReachedLater(listed, r, x.commandId, n);
      assert listed[at].commandId !in listed[r].predecessors;
    }
  }

  lemma CascadeTopological(pending: seq<Interaction>, root: Interaction, order: seq<Interaction>)
    requires UniqueIds(pending) && Acyclic(pending) && root in pending
    requires IsCascade(pending, root.commandId, order) && UniqueIds(order) && Topological(order)
    ensures Topological([root] + order) && UniqueIds([root] + order)
    ensures forall x | x in [root] + order :: x in pending
  {
    var steps := [root] + order;
    RootFirst(pending, root, order);
    forall i, j | 0 <= i <= j < |steps| ensures steps[j].commandId !in steps[i].predecessors {
      if i == 0 {
        assert j > 0 ==> steps[j] in order;
      } else {
        assert order[j - 1].commandId !in order[i - 1].predecessors;
      }
    }
    forall i, j | 0 <= i < j < |steps| ensures steps[i].commandId != steps[j].commandId {
      if i == 0 {
        assert steps[j] in order;
      }
    }
  }

  /** The length of the part of a list before the first record of the set. */
  function Before(ps: seq<Interaction>, ids: set<string>): (n: nat)
    ensures n <= |ps| && (forall i | 0 <= i < n :: ps[i].commandId !in ids) && (n < |ps| ==> ps[n].commandId in ids)
  {
    if ps == [] || ps[0].commandId in ids then 0 else 1 + Before(ps[1..], ids)
  }

  lemma CascadeUpward(pending: seq<Interaction>, root: Interaction, order: seq<Interaction>, x: Interaction,
                      y: Interaction)
    requires UniqueIds(pending) && root in pending && IsCascade(pending, root.commandId, order)
    requires x in pending && y in pending && Unsettled(y.state)
    requires x.commandId in y.predecessors && x.commandId in Ids([root] + order)
    ensures y.commandId in Ids([root] + order)
  {
    var steps := [root] + order;
    var z :| z in steps && z.commandId == x.commandId;
    if z == root {
      assert ReachedIn(pending, root.commandId, root.commandId, 0);
    } else {
      assert z in order;
    }
    ReachedStep(pending, root.commandId, y, x.commandId);
    if y.commandId == root.commandId {
      assert root in steps;
    } else {
      assert y in order;
      assert y in steps;
    }
  }

  lemma ChainedSplit(kept: seq<Interaction>, gone: seq<Interaction>)
    requires Chained(kept + gone) && UniqueIds(kept + gone)
    ensures Chained(kept) && Chained(gone) && UniqueIds(kept) && UniqueIds(gone)
    ensures forall x, y | x in kept && y in gone :: x.commandId in y.predecessors
  {
    var ps := kept + gone;
    forall i, j | 0 <= i < j < |kept|
      ensures kept[i].commandId in kept[j].predecessors && kept[i].commandId != kept[j].commandId
    {
      assert ps[i] == kept[i] && ps[j] == kept[j];
    }
    forall i, j | 0 <= i < j < |gone|
      ensures gone[i].commandId in gone[j].predecessors && gone[i].commandId != gone[j].commandId
    {
      assert ps[|kept| + i] == gone[i] && ps[|kept| + j] == gone[j];
    }
    forall x, y | x in kept && y in gone ensures x.commandId in y.predecessors {
      var i :| 0 <= i < |kept| && kept[i] == x;
      var j :| 0 <= j < |gone| && gone[j] == y;
      assert ps[i] == x && ps[|kept| + j] == y;
    }
  }

  lemma SplitBefore(ps: seq<Interaction>, ids: set<string>) returns (kept: seq<Interaction>, gone: seq<Interaction>)
    ensures ps == kept + gone
    ensures forall x | x in kept :: x.commandId !in ids
    ensures gone != [] ==> gone[0].commandId in ids
  {
    var n := Before(ps, ids);
    kept, gone := ps[..n], ps[n..];
  }

  /** On a chained entity a rejection withdraws the newest records, in the order they were made. */
  lemma CascadeSuffix(pending: seq<Interaction>, root: Interaction, order: seq<Interaction>, e: EntityKey)
    requires UniqueIds(pending) && Acyclic(pending) && root in pending
    requires forall p | p in pending :: Unsettled(p.state)
    requires IsCascade(pending, root.commandId, order) && UniqueIds(order) && Topological(order)
    requires Chained(On(pending, e))
    ensures On(pending, e) == On(Drop(pending, Ids([root] + order)), e) + On([root] + order, e)
  {
    var ids := Ids([root] + order);
    var kept, gone := SplitBefore(On(pending, e), ids);
    OnMembers(pending, e);
    OnUnique(pending, e);
    ChainedSplit(kept, gone);
    forall x | x in gone ensures x.commandId in ids {
      GoneUpward(pending, root, order, gone, x);
    }
    DropSuffix(kept, gone, ids);
    OnDrop(pending, ids, e);
    CascadeTopological(pending, root, order);
    GoneInOrder(pending, [root] + order, e, kept, gone);
  }

  lemma GoneUpward(pending: seq<Interaction>, root: Interaction, order: seq<Interaction>, gone: seq<Interaction>,
                   x: Interaction)
    requires UniqueIds(pending) && root in pending && IsCascade(pending, root.commandId, order)
    requires forall p | p in pending :: Unsettled(p.state)
    requires Chained(gone) && x in gone && forall p | p in gone :: p in pending
    requires gone[0].commandId in Ids([root] + order)
    ensures x.commandId in Ids([root] + order)
  {
    var j :| 0 <= j < |gone| && gone[j] == x;
    if j > 0 {
      assert gone[0].commandId in gone[j].predecessors && gone[0] in gone;
      CascadeUpward(pending, root, order, gone[0], x);
    }
  }

  lemma GoneInOrder(pending: seq<Interaction>, steps: seq<Interaction>, e: EntityKey, kept: seq<Interaction>,
                    gone: seq<Interaction>)
    requires UniqueIds(pending) && UniqueIds(steps) && Topological(steps) && forall x | x in steps :: x in pending
    requires On(pending, e) == kept + gone && Chained(gone) && UniqueIds(gone)
    requires forall x | x in kept :: x.commandId !in Ids(steps)
    requires forall x | x in gone :: x.commandId in Ids(steps)
    ensures On(steps, e) == gone
  {
    OnMembers(pending, e);
    OnMembers(steps, e);
    OnUnique(steps, e);
    OnTopological(steps, e);
    forall x ensures x in On(steps, e) <==> x in gone {
      if x in gone {
        assert x in On(pending, e);
        var y :| y in steps && y.commandId == x.commandId;
        SameIdSameRecord(pending, x, y);
      }
      if x in On(steps, e) {
        assert x in On(pending, e) && x.commandId in Ids(steps);
      }
    }
    UniqueSameMembers(gone, On(steps, e));
    ChainedOrder(gone, On(steps, e));
  }
}
