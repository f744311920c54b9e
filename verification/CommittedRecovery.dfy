/**
 What a recovery gives back when some ancestors of the pending commands are confirmed already: the
 condition is about the commands and their receipts alone.
 */
module CommittedRecovery {
  import opened Wrappers
  import opened WorkspaceDelta
  import opened Interactions
  import opened InteractionOrder
  import opened RowChain
  import opened CacheRow
  import opened CommittedRow
  import opened JournalViews
  import opened OptimisticCache
  import opened RecoveryPlan
  import opened InstantClient
  import opened ClearedCache

  // ---------------------------------------------------------------------------------------
  // Lists that depend on each other one by one
  // ---------------------------------------------------------------------------------------

  /** Each record is a predecessor of the next. */
  ghost predicate StepByStep(rs: seq<Interaction>) {
    forall i | 0 <= i < |rs| - 1 :: rs[i].commandId in rs[i + 1].predecessors
  }

  lemma {:induction false} NotEarlier(a: seq<Interaction>, b: seq<Interaction>, i: nat, p: nat)
    requires StepByStep(a) && Topological(b) && i < |a| && p < |b| && b[p] == a[i] && forall x | x in a :: x in b
    ensures p >= i
    decreases i
  {
    if i > 0 {
      assert a[i - 1] in b;
      var q :| 0 <= q < |b| && b[q] == a[i - 1];
      NotEarlier(a, b, i - 1, q);
      assert b[q].commandId in b[p].predecessors;
    }
  }

  lemma {:induction false} NotLater(a: seq<Interaction>, b: seq<Interaction>, i: nat, p: nat)
    requires StepByStep(a) && Topological(b) && i < |a| == |b| && p < |b| && b[p] == a[i] && forall x | x in a :: x in b
    ensures p <= i
    decreases |a| - i
  {
    if i < |a| - 1 {
      assert a[i + 1] in b;
      var q :| 0 <= q < |b| && b[q] == a[i + 1];
      NotLater(a, b, i + 1, q);
      assert b[p].commandId in b[q].predecessors;
    }
  }

  /** Such records have only one dependency order. */
  lemma OneOrder(a: seq<Interaction>, b: seq<Interaction>)
    requires StepByStep(a) && Topological(b) && UniqueIds(a) && UniqueIds(b) && forall x :: x in a <==> x in b
    ensures a == b
  {
    UniqueSameMembers(a, b);
    assert |multiset(a)| == |multiset(b)|;
    forall i | 0 <= i < |a| ensures a[i] == b[i] {
      assert a[i] in b;
      var p :| 0 <= p < |b| && b[p] == a[i];
      NotEarlier(a, b, i, p);
      NotLater(a, b, i, p);
    }
  }

  // ---------------------------------------------------------------------------------------
  // The condition
  // ---------------------------------------------------------------------------------------

  /** The receipts of the confirmed predecessors of the oldest pending command on the entity, in order. */
  function ReceiptsOn(s: Cache, e: EntityKey): seq<EntityChange> {
    if On(s.pending, e) == [] then [] else AcceptedOn(s.log, On(s.pending, e)[0], e)
  }

  function ChainOn(s: Cache, e: EntityKey): seq<EntityChange> {
    ChangesOf(On(s.pending, e), e)
  }

  /** Every confirmed command on the entity that one of the pending ones there stands on is a predecessor of the
      oldest of them. */
  ghost predicate OneAncestry(s: Cache, e: EntityKey) {
    forall p, q | p in On(s.pending, e) && q in s.log && Touches(q, e) && StandsOn(s.pending, p, q.commandId) ::
      q.commandId in On(s.pending, e)[0].predecessors
  }

  /** Since those receipts nothing else has written what they decide, they say nothing about fields that they
      leave alone, and nobody changes the identity. */
  ghost predicate Grounded(s: Cache, e: EntityKey) {
    var receipts, base, cs := ReceiptsOn(s, e), Lookup(s.base, e), ChainOn(s, e);
    && OneAncestry(s, e)
    && (exists below :: Stands(below, receipts, base, cs))
    && (forall c, f | c in receipts && f != "id" && Decides(c, f) :: c.Sets(f))
    && forall i | 0 <= i < |cs| && cs[i].Names("id") :: Cell(cs[i].before, "id") == Cell(Fold(base, cs[..i]), "id")
  }

  /** No pending change of the entity sets a field to a value that a receipt or an earlier change left there and
      a later one took away again. */
  ghost predicate EntityUnrepeated(s: Cache, e: EntityKey) {
    UnrepeatedUpTo(ReceiptsOn(s, e), ChainOn(s, e), |ChainOn(s, e)|)
  }

  // ---------------------------------------------------------------------------------------
  // The pending changes were made on the rows below them
  // ---------------------------------------------------------------------------------------

  lemma {:induction false} LinkOfAt(log: seq<Interaction>, ps: seq<Interaction>, e: EntityKey, i: nat)
    requires i < |ps|
    ensures |LinksOf(log, ps, e)| == |ps| && LinksOf(log, ps, e)[i] == LinkOf(log, ps[i], e)
    ensures Changes(LinksOf(log, ps, e)[..i]) == ChangesOf(ps[..i], e)
    decreases |ps|
  {
    var init := ps[..|ps| - 1];
    if i < |init| {
      LinkOfAt(log, init, e, i);
      assert LinksOf(log, ps, e)[..i] == LinksOf(log, init, e)[..i] && init[..i] == ps[..i];
    } else {
      if init != [] {
        LinkOfAt(log, init, e, 0);
      }
      assert LinksOf(log, ps, e)[..i] == LinksOf(log, init, e);
      LinksChanges(log, init, e);
    }
  }

  lemma {:induction false} ChangeMember(ps: seq<Interaction>, e: EntityKey, c: EntityChange)
    ensures c in ChangesOf(ps, e) <==> exists p | p in ps :: ChangeOf(p, e) == c
    decreases |ps|
  {
    if ps != [] {
      assert ps == ps[..|ps| - 1] + [ps[|ps| - 1]];
      ChangeMember(ps[..|ps| - 1], e, c);
    }
  }

  /** What a pending command's confirmed predecessors decide, those of the oldest one decide. */
  lemma SharedReceipts(s: Cache, e: EntityKey, i: nat, c: EntityChange)
    requires EntitySound(s, e) && i < |On(s.pending, e)| && c in AcceptedOn(s.log, On(s.pending, e)[i], e)
    ensures c in ReceiptsOn(s, e)
  {
    var ps := On(s.pending, e);
    ChangeMember(On(Pick(s.log, ps[i].predecessors), e), e, c);
    var q :| q in On(Pick(s.log, ps[i].predecessors), e) && ChangeOf(q, e) == c;
    OnMembers(Pick(s.log, ps[i].predecessors), e);
    PickMembers(s.log, ps[i].predecessors);
    if i > 0 {
      assert Shares(s.log, ps[i], ps[0], e);
    }
    OnMembers(Pick(s.log, ps[0].predecessors), e);
    PickMembers(s.log, ps[0].predecessors);
    ChangeMember(On(Pick(s.log, ps[0].predecessors), e), e, c);
  }

  lemma DecidedByShared(s: Cache, e: EntityKey, i: nat, f: Field)
    requires EntitySound(s, e) && i < |On(s.pending, e)| && DecidedBy(AcceptedOn(s.log, On(s.pending, e)[i], e), f)
    requires f != "id" && forall c | c in ReceiptsOn(s, e) && Decides(c, f) :: c.Sets(f)
    ensures DecidedBy(ReceiptsOn(s, e), f) && SetBy(ReceiptsOn(s, e), f)
  {
    var accepted := AcceptedOn(s.log, On(s.pending, e)[i], e);
    var k :| 0 <= k < |accepted| && Decides(accepted[k], f);
    SharedReceipts(s, e, i, accepted[k]);
    var m :| 0 <= m < |ReceiptsOn(s, e)| && ReceiptsOn(s, e)[m] == accepted[k];
  }

  /** The ith link of the entity sits on the row below it. */
  lemma LinkBelowIt(s: Cache, e: EntityKey, i: nat)
    requires EntitySound(s, e) && i < |ChainOn(s, e)|
    ensures i < |On(s.pending, e)|
    ensures var row, c := Fold(Lookup(s.base, e), ChainOn(s, e)[..i]), ChainOn(s, e)[i];
            && c.before.Some? == row.Some?
            && forall f | c.Names(f) && Cell(c.before, f) != Cell(row, f) ::
                 DecidedBy(AcceptedOn(s.log, On(s.pending, e)[i], e), f)
  {
    var ps := On(s.pending, e);
    var links := LinksOf(s.log, ps, e);
    ChangesAt(ps, e, |ps|);
    ChangesAt(ps, e, i);
    LinkOfAt(s.log, ps, e, i);
    LinkAt(Lookup(s.base, e), links, i);
  }

  lemma ChangeMadeOn(s: Cache, e: EntityKey, i: nat)
    requires EntitySound(s, e) && Grounded(s, e) && i < |ChainOn(s, e)|
    ensures MadeOn(Fold(Lookup(s.base, e), ChainOn(s, e)[..i]), ChainOn(s, e)[i], ReceiptsOn(s, e))
  {
    LinkBelowIt(s, e, i);
    var row, c := Fold(Lookup(s.base, e), ChainOn(s, e)[..i]), ChainOn(s, e)[i];
    forall f | c.Names(f) && Cell(c.before, f) != Cell(row, f)
      ensures f != "id" && DecidedBy(ReceiptsOn(s, e), f) && SetBy(ReceiptsOn(s, e), f)
    {
      DecidedByShared(s, e, i, f);
    }
  }

  // ---------------------------------------------------------------------------------------
  // The sources on one entity
  // ---------------------------------------------------------------------------------------

  /** The confirmed ancestors on the entity and then the records kept there so far. */
  function AncestryOn(s: Cache, kept: seq<Interaction>, e: EntityKey): seq<Interaction>
    requires On(s.pending, e) != []
  {
    On(Pick(s.log, On(s.pending, e)[0].predecessors), e) + On(kept, e)
  }

  /** The order that a recovery works through, and what it has kept. */
  ghost predicate Working(s: Cache, order: seq<Interaction>, kept: seq<Interaction>) {
    && Wellformed(s) && Ordered(s.pending) == Some(order) && Retain(order, s.pending, s.log, []) == Some(kept)
  }

  /** The nth record is the ith of the entity. */
  lemma PlaceOn(s: Cache, order: seq<Interaction>, kept: seq<Interaction>, n: nat, e: EntityKey)
    requires Working(s, order, kept) && EntitySound(s, e) && n < |order| && Touches(order[n], e)
    ensures On(order, e) == On(s.pending, e)
    ensures var ps, i := On(s.pending, e), |On(order[..n], e)|;
            && i < |ps| && ps[i] == order[n] && On(order[..n], e) == ps[..i] && TiedOn(kept[..n], order[..n], e)
            && ps[0] in s.pending && (i > 0 ==> ps[0].commandId in order[n].predecessors)
  {
    OrderedMembers(s);
    OrderedOn(s.pending, e);
    OnPrefix(order, n, e);
    OnMembers(s.pending, e);
    KeptOn(order, s.pending, s.log, [], kept, n, e);
  }

  lemma FirstReceipts(s: Cache, e: EntityKey, x: Interaction)
    requires On(s.pending, e) != []
    ensures x in On(Pick(s.log, On(s.pending, e)[0].predecessors), e)
            <==> x in s.log && Touches(x, e) && x.commandId in On(s.pending, e)[0].predecessors
  {
    var ids := On(s.pending, e)[0].predecessors;
    OnMembers(Pick(s.log, ids), e);
    PickMembers(s.log, ids);
  }

  lemma AncestryMember(s: Cache, order: seq<Interaction>, kept: seq<Interaction>, n: nat, e: EntityKey, x: Interaction)
    requires Working(s, order, kept) && EntitySound(s, e) && OneAncestry(s, e) && n < |order| && Touches(order[n], e)
    ensures On(s.pending, e) != []
    ensures x in AncestryOn(s, kept[..n], e)
            <==> Touches(x, e) && (x in s.log || x in kept[..n]) && StandsOn(s.pending, order[n], x.commandId)
  {
    PlaceOn(s, order, kept, n, e);
    var ps, i := On(s.pending, e), |On(order[..n], e)|;
    FirstReceipts(s, e, x);
    EarlierOn(s, order, kept, n, e);
    OnMembers(kept[..n], e);
    assert order[n] in ps;
    if x in On(kept[..n], e) {
      assert LeadsUp(s.pending, order[n], x.commandId, 0);
    }
    if x in s.log && x.commandId in ps[0].predecessors {
      if i == 0 {
        assert LeadsUp(s.pending, order[n], x.commandId, 0);
      } else {
        assert LeadsUp(s.pending, order[n], ps[0].commandId, 0);
        assert LeadsUp(s.pending, order[n], x.commandId, 1);
      }
    }
  }

  lemma AncestryStepByStep(s: Cache, order: seq<Interaction>, kept: seq<Interaction>, n: nat, e: EntityKey)
    requires Working(s, order, kept) && EntitySound(s, e) && n < |order| && Touches(order[n], e)
    ensures On(s.pending, e) != [] && StepByStep(AncestryOn(s, kept[..n], e))
  {
    PlaceOn(s, order, kept, n, e);
    EarlierOn(s, order, kept, n, e);
    var ps := On(s.pending, e);
    var first, later := On(Pick(s.log, ps[0].predecessors), e), On(kept[..n], e);
    assert Chained(first) by {
      assert ps[0] in ps;
    }
    var all := first + later;
    forall k | 0 <= k < |all| - 1 ensures all[k].commandId in all[k + 1].predecessors {
      if k + 1 == |first| {
        assert first[k] in first;
        FirstReceipts(s, e, first[k]);
        assert Ties(later[0]) == Ties(On(order[..n], e)[0]);
      }
    }
  }

  lemma AncestryUnique(s: Cache, order: seq<Interaction>, kept: seq<Interaction>, n: nat, e: EntityKey)
    requires Working(s, order, kept) && n <= |order| && On(s.pending, e) != []
    ensures UniqueIds(AncestryOn(s, kept[..n], e))
  {
    var first, later := On(Pick(s.log, On(s.pending, e)[0].predecessors), e), On(kept[..n], e);
    KeptPrefix(s, order, kept, n);
    OnUnique(kept[..n], e);
    PickMembers(s.log, On(s.pending, e)[0].predecessors);
    OnUnique(Pick(s.log, On(s.pending, e)[0].predecessors), e);
    OnMembers(kept[..n], e);
    OrderedMembers(s);
    KeptIds(order, s.pending, s.log, []);
    assert Ids(first) <= Ids(s.log) by {
      forall id | id in Ids(first) ensures id in Ids(s.log) {
        var x :| x in first && x.commandId == id;
        FirstReceipts(s, e, x);
      }
    }
    assert Ids(later) <= Ids(order) by {
      forall id | id in Ids(later) ensures id in Ids(kept) {
        var x :| x in later && x.commandId == id;
        assert x in kept;
      }
    }
    KeptFromPending(order, s.pending);
    ConcatUnique(first, later);
  }

  lemma {:induction false} ChangesJoin(a: seq<Interaction>, b: seq<Interaction>, e: EntityKey)
    ensures ChangesOf(a + b, e) == ChangesOf(a, e) + ChangesOf(b, e)
    decreases |b|
  {
    if b == [] {
      assert a + b == a;
    } else {
      var init, last := b[..|b| - 1], b[|b| - 1];
      assert a + b == (a + init) + [last] && b == init + [last];
      ChangesJoin(a, init, e);
      ChangesAppended(a + init, last, e);
      ChangesAppended(init, last, e);
    }
  }

  lemma SourcesOrder(s: Cache, order: seq<Interaction>, kept: seq<Interaction>, n: nat)
    requires Working(s, order, kept) && n < |order| && !Creates(order[n])
    ensures var sources := SourcesAt(order, s.pending, s.log, [], kept, n);
            Ordered(sources).Some? && SourcesOf(Ordered(sources).value, order[n], s.pending, s.log, [], kept[..n])
  {
    OrderedMembers(s);
    RetainAlike(order, s.pending, s.log, [], n);
    assert s.log + [] == s.log;
    forall id | id in Ids(order[..n]) ensures id !in Ids(s.log) {
      var x :| x in order[..n] && x.commandId == id;
      assert x in order && id in Ids(s.pending);
    }
    SourcesUnique(order[..n], s.pending, s.log, [], kept[..n], Ancestors(s.pending, order[n].predecessors));
    OrderedSources(order[n], s.pending, s.log, [], kept[..n]);
  }

  /** On one entity the sources in order are the confirmed ancestors and then the kept records there. */
  lemma OrderedAncestry(s: Cache, order: seq<Interaction>, kept: seq<Interaction>, n: nat, e: EntityKey,
                        o: seq<Interaction>)
    requires Working(s, order, kept) && EntitySound(s, e) && OneAncestry(s, e) && n < |order| && Touches(order[n], e)
    requires SourcesOf(o, order[n], s.pending, s.log, [], kept[..n])
    ensures On(s.pending, e) != [] && On(o, e) == AncestryOn(s, kept[..n], e)
  {
    PlaceOn(s, order, kept, n, e);
    var ancestry := AncestryOn(s, kept[..n], e);
    OnMembers(o, e);
    forall x ensures x in ancestry <==> x in On(o, e) {
      AncestryMember(s, order, kept, n, e, x);
    }
    AncestryStepByStep(s, order, kept, n, e);
    AncestryUnique(s, order, kept, n, e);
    OnTopological(o, e);
    OnUnique(o, e);
    OneOrder(ancestry, On(o, e));
  }

  /** So their changes are the receipts of the confirmed ancestors and then the earlier changes, as they were
      rebased. */
  lemma CommittedSourcesOn(s: Cache, order: seq<Interaction>, kept: seq<Interaction>, n: nat, e: EntityKey)
    requires Working(s, order, kept) && EntitySound(s, e) && OneAncestry(s, e) && n < |order| && Touches(order[n], e)
    requires !Creates(order[n])
    ensures SourcesOn(order[n], SourcesAt(order, s.pending, s.log, [], kept, n), e)
            == ReceiptsOn(s, e) + ChangesOf(On(kept[..n], e), e)
  {
    SourcesOrder(s, order, kept, n);
    var o := Ordered(SourcesAt(order, s.pending, s.log, [], kept, n)).value;
    OrderedAncestry(s, order, kept, n, e, o);
    ChangesJoin(On(Pick(s.log, On(s.pending, e)[0].predecessors), e), On(kept[..n], e), e);
  }

  /** The kept change of the entity is the original one over the receipts and the kept ones before it. */
  ghost predicate CommittedLink(receipts: seq<EntityChange>, order: seq<Interaction>, kept: seq<Interaction>, n: nat,
                                e: EntityKey)
    requires n < |order| && n < |kept|
  {
    && (Touches(kept[n], e) <==> Touches(order[n], e))
    && (Touches(order[n], e) ==>
          ChangeOf(kept[n], e) == Rebase(ChangeOf(order[n], e), receipts + ChangesOf(On(kept[..n], e), e)))
  }

  lemma CommittedChange(s: Cache, order: seq<Interaction>, kept: seq<Interaction>, n: nat, e: EntityKey)
    requires Working(s, order, kept) && EntitySound(s, e) && OneAncestry(s, e) && n < |order|
    ensures CommittedLink(ReceiptsOn(s, e), order, kept, n, e)
  {
    OrderedMembers(s);
    KeptTouches(order, s.pending, s.log, [], kept, n, e);
    if Touches(order[n], e) {
      if Creates(order[n]) {
        ChangeAtMember(order[n].changes, e);
        RebaseCreation(ChangeOf(order[n], e), ReceiptsOn(s, e) + ChangesOf(On(kept[..n], e), e));
        RebaseCreation(ChangeOf(order[n], e), []);
      } else {
        CommittedSourcesOn(s, order, kept, n, e);
      }
    }
  }

  lemma CommittedNext(receipts: seq<EntityChange>, order: seq<Interaction>, kept: seq<Interaction>, p: Interaction,
                      k: Interaction, e: EntityKey)
    requires ChangesOf(On(kept, e), e) == RebaseFrom(receipts, ChangesOf(On(order, e), e))
    requires Touches(k, e) <==> Touches(p, e)
    requires Touches(p, e) ==> ChangeOf(k, e) == Rebase(ChangeOf(p, e), receipts + ChangesOf(On(kept, e), e))
    ensures ChangesOf(On(kept + [k], e), e) == RebaseFrom(receipts, ChangesOf(On(order + [p], e), e))
  {
    OnLast(order, p, e);
    OnLast(kept, k, e);
    if Touches(p, e) {
      ChangesAppended(On(order, e), p, e);
      ChangesAppended(On(kept, e), k, e);
      var cs := ChangesOf(On(order, e), e);
      assert (cs + [ChangeOf(p, e)])[..|cs|] == cs;
    }
  }

  /** The kept changes of the entity are its chain, rebased over the receipts and over itself. */
  lemma {:induction false} CommittedChain(receipts: seq<EntityChange>, order: seq<Interaction>,
                                          kept: seq<Interaction>, n: nat, e: EntityKey)
    requires n <= |order| == |kept| && forall i | 0 <= i < |order| :: CommittedLink(receipts, order, kept, i, e)
    ensures ChangesOf(On(kept[..n], e), e) == RebaseFrom(receipts, ChangesOf(On(order[..n], e), e))
    decreases n
  {
    if n > 0 {
      CommittedChain(receipts, order, kept, n - 1, e);
      assert CommittedLink(receipts, order, kept, n - 1, e);
      assert order[..n] == order[..n - 1] + [order[n - 1]] && kept[..n] == kept[..n - 1] + [kept[n - 1]];
      CommittedNext(receipts, order[..n - 1], kept[..n - 1], order[n - 1], kept[n - 1], e);
    }
  }

  lemma CommittedChainOf(s: Cache, order: seq<Interaction>, kept: seq<Interaction>, n: nat, e: EntityKey)
    requires Working(s, order, kept) && EntitySound(s, e) && OneAncestry(s, e) && n <= |order|
    ensures ChangesOf(On(kept[..n], e), e) == RebaseFrom(ReceiptsOn(s, e), ChangesOf(On(order[..n], e), e))
  {
    forall i | 0 <= i < |order| ensures CommittedLink(ReceiptsOn(s, e), order, kept, i, e) {
      CommittedChange(s, order, kept, i, e);
    }
    CommittedChain(ReceiptsOn(s, e), order, kept, n, e);
  }

  /** The nth command does what it did on the entity exactly when the change there, the ith of the chain, does
      over the receipts and the rebased chain below it. */
  lemma CommittedKeepsOn(s: Cache, order: seq<Interaction>, kept: seq<Interaction>, n: nat, e: EntityKey)
    requires Working(s, order, kept) && EntitySound(s, e) && OneAncestry(s, e) && n < |order| && Touches(order[n], e)
    ensures var cs, i := ChainOn(s, e), |On(order[..n], e)|;
            && i < |cs| && ChangeOf(order[n], e) == cs[i] && ChangesOf(On(order[..n], e), e) == cs[..i]
            && (Rebases(Fold(Lookup(s.base, e), cs[..i]), cs[i],
                        SourcesOn(order[n], SourcesAt(order, s.pending, s.log, [], kept, n), e))
                <==> Rebases(Fold(Lookup(s.base, e), cs[..i]), cs[i],
                             ReceiptsOn(s, e) + RebaseFrom(ReceiptsOn(s, e), cs)[..i]))
  {
    PlaceOn(s, order, kept, n, e);
    var ps, i, receipts := On(s.pending, e), |On(order[..n], e)|, ReceiptsOn(s, e);
    var cs := ChainOn(s, e);
    ChangesAt(ps, e, i);
    CommittedChainOf(s, order, kept, n, e);
    RebaseFromAt(receipts, cs, i);
    if Creates(order[n]) {
      ChangeAtMember(order[n].changes, e);
      var row, over := Fold(Lookup(s.base, e), cs[..i]), receipts + RebaseFrom(receipts, cs)[..i];
      RebaseCreation(cs[i], []);
      RebaseCreation(cs[i], over);
      RebasesExactly(row, cs[i], []);
      RebasesExactly(row, cs[i], over);
    } else {
      CommittedSourcesOn(s, order, kept, n, e);
    }
  }

  /** On one entity every command does what it did. */
  ghost predicate KeepsEntity(s: Cache, order: seq<Interaction>, kept: seq<Interaction>, e: EntityKey)
    requires |order| == |kept|
  {
    forall n | 0 <= n < |order| && Touches(order[n], e) ::
      Rebases(Fold(Lookup(s.base, e), ChangesOf(On(order[..n], e), e)), ChangeOf(order[n], e),
              SourcesOn(order[n], SourcesAt(order, s.pending, s.log, [], kept, n), e))
  }

  lemma RebasesKeepsEntity(s: Cache, order: seq<Interaction>, kept: seq<Interaction>, e: EntityKey)
    requires Working(s, order, kept) && EntitySound(s, e) && OneAncestry(s, e)
    requires RebasesUpTo(Lookup(s.base, e), ReceiptsOn(s, e), ChainOn(s, e), |ChainOn(s, e)|)
    ensures KeepsEntity(s, order, kept, e)
  {
    forall n | 0 <= n < |order| && Touches(order[n], e)
      ensures Rebases(Fold(Lookup(s.base, e), ChangesOf(On(order[..n], e), e)), ChangeOf(order[n], e),
                      SourcesOn(order[n], SourcesAt(order, s.pending, s.log, [], kept, n), e))
    {
      CommittedKeepsOn(s, order, kept, n, e);
    }
  }

  lemma KeepsEntityRebases(s: Cache, order: seq<Interaction>, kept: seq<Interaction>, e: EntityKey)
    requires Working(s, order, kept) && EntitySound(s, e) && OneAncestry(s, e) && KeepsEntity(s, order, kept, e)
    ensures RebasesUpTo(Lookup(s.base, e), ReceiptsOn(s, e), ChainOn(s, e), |ChainOn(s, e)|)
  {
    var receipts, cs := ReceiptsOn(s, e), ChainOn(s, e);
    OrderedOn(s.pending, e);
    ChangesAt(On(s.pending, e), e, |On(s.pending, e)|);
    forall i | 0 <= i < |cs|
      ensures Rebases(Fold(Lookup(s.base, e), cs[..i]), cs[i], receipts + RebaseFrom(receipts, cs)[..i])
    {
      var n := PlaceOf(order, e, i);
      CommittedKeepsOn(s, order, kept, n, e);
    }
  }

  lemma EntityKept(s: Cache, order: seq<Interaction>, kept: seq<Interaction>, e: EntityKey)
    requires Working(s, order, kept) && EntitySound(s, e) && Grounded(s, e)
    ensures KeepsEntity(s, order, kept, e) <==> EntityUnrepeated(s, e)
  {
    var receipts, base, cs := ReceiptsOn(s, e), Lookup(s.base, e), ChainOn(s, e);
    if KeepsEntity(s, order, kept, e) {
      KeepsEntityRebases(s, order, kept, e);
    }
    if RebasesUpTo(base, receipts, cs, |cs|) {
      RebasesKeepsEntity(s, order, kept, e);
    }
    forall i | 0 <= i < |cs| ensures MadeOn(Fold(base, cs[..i]), cs[i], receipts) {
      ChangeMadeOn(s, e, i);
    }
    var below :| Stands(below, receipts, base, cs);
    CommittedUpTo(below, receipts, base, cs, |cs|);
  }

  // ---------------------------------------------------------------------------------------
  // The plan and its replay
  // ---------------------------------------------------------------------------------------

  /** No command is being withdrawn, and the journal has no cycle. */
  ghost predicate Settled(s: Cache) {
    Acyclic(s.log + s.pending) && forall p | p in s.pending :: p.state != RollbackPending
  }

  lemma CommittedPlan(s: Cache)
    requires Inv(s) && Settled(s)
    ensures Recoverable(s.pending, s.log, map[]) && PlanOf(s.pending, s.log, map[], {}).Some?
    ensures Ordered(s.pending).Some?
    ensures Working(s, Ordered(s.pending).value, PlanOf(s.pending, s.log, map[], {}).value.kept)
  {
    KeepsAll(s);
    PlanExists(s.pending, s.log, map[], {});
  }

  /** The recovery of a cleared cache without new receipts rebases every command over the receipts of its
      confirmed ancestors and keeps it. The replay over the revision that was read is accepted and goes command
      by command as the commands were made, and so gives the cache back, exactly when on every entity no pending
      change sets a field to a value that a receipt or an earlier change left there and a later one took away
      again; wherever nobody else has written what the receipts decide. */
  lemma CommittedRecovery(s: Cache)
    requires Inv(s) && s.level && s.disturbed == {} && Settled(s)
    requires forall e :: Grounded(s, e)
    ensures PlanOf(s.pending, s.log, map[], {}).Some? && Ordered(s.pending).Some?
    ensures var order, kept := Ordered(s.pending).value, PlanOf(s.pending, s.log, map[], {}).value.kept;
            && |order| == |kept|
            && ((forall n | 0 <= n <= |order| :: ReplaysAsMade(s.base, order, kept, n))
                <==> forall e :: EntityUnrepeated(s, e))
            && ((forall e :: EntityUnrepeated(s, e)) ==> Replayed(s.history[s.version], kept) == Some(s.rows))
  {
    CommittedPlan(s);
    OrderedMembers(s);
    var order, kept := Ordered(s.pending).value, PlanOf(s.pending, s.log, map[], {}).value.kept;
    RecoveryExact(s.base, order, s.pending, s.log, []);
    CommittedKeeps(s, order, kept);
    if forall e :: EntityUnrepeated(s, e) {
      assert ReplaysAsMade(s.base, order, kept, |order|);
      forall e ensures On(order, e) == On(s.pending, e) {
        assert EntitySound(s, e);
        OrderedOn(s.pending, e);
      }
      ShownIsCache(s, order, kept);
    }
  }

  lemma CommittedKeeps(s: Cache, order: seq<Interaction>, kept: seq<Interaction>)
    requires Inv(s) && s.disturbed == {} && Working(s, order, kept) && forall e :: Grounded(s, e)
    ensures (forall n | 0 <= n < |order| :: Keeps(s.base, order, n, SourcesAt(order, s.pending, s.log, [], kept, n)))
            <==> forall e :: EntityUnrepeated(s, e)
  {
    forall e ensures KeepsEntity(s, order, kept, e) <==> EntityUnrepeated(s, e) {
      EntityKept(s, order, kept, e);
    }
    if forall n | 0 <= n < |order| :: Keeps(s.base, order, n, SourcesAt(order, s.pending, s.log, [], kept, n)) {
      forall e ensures EntityUnrepeated(s, e) {
        assert KeepsEntity(s, order, kept, e);
      }
    }
    if forall e :: EntityUnrepeated(s, e) {
      forall n | 0 <= n < |order| ensures Keeps(s.base, order, n, SourcesAt(order, s.pending, s.log, [], kept, n)) {
        forall e | Touches(order[n], e)
          ensures Rebases(Fold(Lookup(s.base, e), ChangesOf(On(order[..n], e), e)), ChangeOf(order[n], e),
                          SourcesOn(order[n], SourcesAt(order, s.pending, s.log, [], kept, n), e))
        {
          assert KeepsEntity(s, order, kept, e);
        }
      }
    }
  }
}
