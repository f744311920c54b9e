/**
 What a recovery gives back. The journal's retained commands, rebased as a recovery rebases them, are
 replayed over the snapshot that was read, and command by command the rows are those of a client that
 was never cleared, exactly when each rebased change fits and still does what it did. With nothing
 committed the sources are the retained commands themselves, and even then a change can be lost.
 */
module ClearedCache {
  import opened Wrappers
  import opened WorkspaceDelta
  import opened Interactions
  import opened InteractionOrder
  import opened RowChain
  import opened CacheRow
  import opened JournalViews
  import opened OptimisticCache
  import opened RecoveryPlan
  import opened InstantClient

  // ---------------------------------------------------------------------------------------
  // One entity of a list of records
  // ---------------------------------------------------------------------------------------

  lemma {:induction false} OnConcat(a: seq<Interaction>, b: seq<Interaction>, e: EntityKey)
    ensures On(a + b, e) == On(a, e) + On(b, e)
    decreases |b|
  {
    if b == [] {
      assert a + b == a;
    } else {
      var init, last := b[..|b| - 1], b[|b| - 1];
      assert b == init + [last] && a + b == (a + init) + [last];
      OnConcat(a, init, e);
      OnLast(a + init, last, e);
      OnLast(init, last, e);
    }
  }

  /** The records of the entity before the nth are the first ones there, and the nth is the next. */
  lemma OnPrefix(pending: seq<Interaction>, n: nat, e: EntityKey)
    requires n < |pending|
    ensures var ps, k := On(pending, e), |On(pending[..n], e)|;
            k <= |ps| && ps[..k] == On(pending[..n], e) && (Touches(pending[n], e) ==> k < |ps| && ps[k] == pending[n])
  {
    var before, rest := pending[..n], pending[n + 1..];
    assert pending == (before + [pending[n]]) + rest;
    OnConcat(before + [pending[n]], rest, e);
    OnLast(before, pending[n], e);
  }

  /** The ith record of the entity and its place in the list. */
  lemma {:induction false} PlaceOf(order: seq<Interaction>, e: EntityKey, i: nat) returns (n: nat)
    requires i < |On(order, e)|
    ensures n < |order| && Touches(order[n], e) && On(order[..n], e) == On(order, e)[..i] && On(order, e)[i] == order[n]
    decreases |order|
  {
    var init, last := order[..|order| - 1], order[|order| - 1];
    if i < |On(init, e)| {
      n := PlaceOf(init, e, i);
      assert init[..n] == order[..n];
      assert On(order, e)[..i] == On(init, e)[..i];
    } else {
      n := |order| - 1;
      assert On(order, e)[..i] == On(init, e);
    }
  }

  lemma {:induction false} ChangesAt(ps: seq<Interaction>, e: EntityKey, i: nat)
    requires i <= |ps|
    ensures |ChangesOf(ps, e)| == |ps| && ChangesOf(ps, e)[..i] == ChangesOf(ps[..i], e)
    ensures i < |ps| ==> ChangesOf(ps, e)[i] == ChangeOf(ps[i], e)
    decreases |ps|
  {
    if ps != [] {
      var init := ps[..|ps| - 1];
      if i < |ps| {
        ChangesAt(init, e, i);
        assert init[..i] == ps[..i];
      } else {
        ChangesAt(init, e, |init|);
        assert ps[..i] == ps && ChangesOf(ps, e)[..i] == ChangesOf(ps, e);
      }
    }
  }

  lemma FoldNext(row: Option<Row>, order: seq<Interaction>, n: nat, e: EntityKey)
    requires n < |order|
    ensures var below := Fold(row, ChangesOf(On(order[..n], e), e));
            Fold(row, ChangesOf(On(order[..n + 1], e), e)) ==
            if Touches(order[n], e) then Force(below, ChangeOf(order[n], e)) else below
  {
    assert order[..n + 1] == order[..n] + [order[n]];
    OnLast(order[..n], order[n], e);
    if Touches(order[n], e) {
      var ps := On(order[..n], e);
      ChangesAppended(ps, order[n], e);
      var cs := ChangesOf(ps, e);
      assert (cs + [ChangeOf(order[n], e)])[..|cs|] == cs;
    }
  }

  // ---------------------------------------------------------------------------------------
  // A replay of rebased commands
  // ---------------------------------------------------------------------------------------

  /** The workspace shows the base under the first n of the original commands. */
  ghost predicate Shows(base: Workspace, order: seq<Interaction>, n: nat, w: Workspace)
    requires n <= |order|
  {
    forall e :: Lookup(w, e) == Fold(Lookup(base, e), ChangesOf(On(order[..n], e), e))
  }

  /** So far every rebased command was accepted, and did what the original would have done. */
  ghost predicate ReplaysAsMade(base: Workspace, order: seq<Interaction>, kept: seq<Interaction>, n: nat)
    requires n <= |order| == |kept|
  {
    Replayed(base, kept[..n]).Some? && Shows(base, order, n, Replayed(base, kept[..n]).value)
  }

  /** The changes of the entity that the record is rebased over, in order. */
  function SourcesOn(p: Interaction, sources: seq<Interaction>, e: EntityKey): seq<EntityChange> {
    if Creates(p) || Ordered(sources).None? then [] else ChangesOf(On(Ordered(sources).value, e), e)
  }

  /** Each change of the record fits the row under the earlier commands and does what it did. */
  ghost predicate Keeps(base: Workspace, order: seq<Interaction>, n: nat, sources: seq<Interaction>)
    requires n < |order|
  {
    forall e | Touches(order[n], e) ::
      Rebases(Fold(Lookup(base, e), ChangesOf(On(order[..n], e), e)), ChangeOf(order[n], e),
              SourcesOn(order[n], sources, e))
  }

  lemma RebaseCreation(c: EntityChange, over: seq<EntityChange>)
    requires c.before.None?
    ensures Rebase(c, over) == c
  {
    if over != [] {
      RebaseCreation(c, over[..|over| - 1]);
    }
  }

  lemma RebasedAt(p: Interaction, sources: seq<Interaction>, e: EntityKey)
    requires UniqueKeys(p.changes) && RebasedRecord(p, sources).Some?
    ensures var r := RebasedRecord(p, sources).value;
            && UniqueKeys(r.changes)
            && ChangeAt(r.changes, e) == match ChangeAt(p.changes, e)
                                         case Some(c) => Some(Rebase(c, SourcesOn(p, sources, e)))
                                         case None => None
  {
    ChangeAtMember(p.changes, e);
    if Creates(p) {
      if Touches(p, e) {
        RebaseCreation(ChangeOf(p, e), []);
      }
    } else {
      RebasedChangeAt(p.changes, Ordered(sources).value, e);
    }
  }

  lemma RebasedChangeAt(cs: seq<EntityChange>, order: seq<Interaction>, e: EntityKey)
    requires UniqueKeys(cs)
    ensures var rs := RebasedChanges(cs, order);
            && UniqueKeys(rs)
            && ChangeAt(rs, e) ==
                 match ChangeAt(cs, e)
                 case Some(c) => Some(Rebase(c, ChangesOf(On(order, e), e)))
                 case None => None
  {
    var rs := RebasedChanges(cs, order);
    forall i | 0 <= i < |cs| ensures rs[i].key == cs[i].key {
      RebaseKeepsIntent(cs[i], ChangesOf(On(order, cs[i].key), cs[i].key), "");
    }
    ChangeAtMember(cs, e);
    ChangeAtMember(rs, e);
    if ChangeAt(cs, e).Some? {
      var i :| 0 <= i < |cs| && cs[i] == ChangeAt(cs, e).value;
      ChangeAtUnique(rs, rs[i]);
    }
  }

  lemma RebasedEntity(w: Workspace, base: Workspace, order: seq<Interaction>, n: nat, sources: seq<Interaction>,
                      e: EntityKey)
    requires n < |order| && UniqueKeys(order[n].changes) && RebasedRecord(order[n], sources).Some?
             && Shows(base, order, n, w)
    ensures var c := ChangeAt(RebasedRecord(order[n], sources).value.changes, e);
            var next := Fold(Lookup(base, e), ChangesOf(On(order[..n + 1], e), e));
            if Touches(order[n], e)
            then c.Some? && (PatchRow(Lookup(w, e), c.value, true) == Patched(next)
                             <==> Rebases(Lookup(w, e), ChangeOf(order[n], e), SourcesOn(order[n], sources, e)))
            else c.None? && Lookup(w, e) == next
  {
    RebasedAt(order[n], sources, e);
    FoldNext(Lookup(base, e), order, n, e);
    if Touches(order[n], e) {
      RebasesExactly(Lookup(w, e), ChangeOf(order[n], e), SourcesOn(order[n], sources, e));
    }
  }

  /** One rebased command is accepted and does what the original would have done exactly when each of its
      changes does. */
  lemma ReplayStep(w: Workspace, base: Workspace, order: seq<Interaction>, n: nat, sources: seq<Interaction>)
    requires n < |order| && UniqueKeys(order[n].changes) && RebasedRecord(order[n], sources).Some?
             && Shows(base, order, n, w)
    ensures var cs := RebasedRecord(order[n], sources).value.changes;
            ApplyChanges(w, cs).Some? && Shows(base, order, n + 1, ApplyChanges(w, cs).value)
            <==> Keeps(base, order, n, sources)
  {
    var cs := RebasedRecord(order[n], sources).value.changes;
    RebasedAt(order[n], sources, EntityKey("", ""));
    ApplyByKey(w, cs);
    if Keeps(base, order, n, sources) {
      StepKept(w, base, order, n, sources);
    }
    if ApplyChanges(w, cs).Some? && Shows(base, order, n + 1, ApplyChanges(w, cs).value) {
      forall e | Touches(order[n], e)
        ensures Rebases(Fold(Lookup(base, e), ChangesOf(On(order[..n], e), e)), ChangeOf(order[n], e),
                        SourcesOn(order[n], sources, e))
      {
        RebasedEntity(w, base, order, n, sources, e);
        AppliedAt(w, cs, e);
      }
    }
  }

  lemma StepKept(w: Workspace, base: Workspace, order: seq<Interaction>, n: nat, sources: seq<Interaction>)
    requires n < |order| && UniqueKeys(order[n].changes) && RebasedRecord(order[n], sources).Some?
             && Shows(base, order, n, w)
    requires Keeps(base, order, n, sources)
    ensures var cs := RebasedRecord(order[n], sources).value.changes;
            ApplyChanges(w, cs).Some? && Shows(base, order, n + 1, ApplyChanges(w, cs).value)
  {
    var cs := RebasedRecord(order[n], sources).value.changes;
    RebasedAt(order[n], sources, EntityKey("", ""));
    ApplyByKey(w, cs);
    forall c | c in cs ensures PatchRow(Lookup(w, c.key), c, true).Patched? {
      ChangeAtUnique(cs, c);
      RebasedEntity(w, base, order, n, sources, c.key);
    }
    var w' := ApplyChanges(w, cs).value;
    forall e ensures Lookup(w', e) == Fold(Lookup(base, e), ChangesOf(On(order[..n + 1], e), e)) {
      RebasedEntity(w, base, order, n, sources, e);
      AppliedAt(w, cs, e);
    }
  }

  /** What the nth of the kept records was rebased over. */
  function SourcesAt(order: seq<Interaction>, pending: seq<Interaction>, log: seq<Interaction>,
                     confirmed: seq<Interaction>, kept: seq<Interaction>, n: nat): seq<Interaction>
    requires n < |order| && n <= |kept|
  {
    Sources(order[n], pending, log, confirmed, kept[..n])
  }

  /** The replay of what a recovery keeps is accepted and goes command by command as the commands were made,
      over the snapshot of whatever revision, exactly when each rebased change fits the row below it and
      does what it did. */
  lemma RecoveryExact(base: Workspace, order: seq<Interaction>, pending: seq<Interaction>, log: seq<Interaction>,
                      confirmed: seq<Interaction>)
    requires Retain(order, pending, log, confirmed).Some? && forall p | p in order :: UniqueKeys(p.changes)
    ensures var kept := Retain(order, pending, log, confirmed).value;
            (forall n | 0 <= n <= |order| :: ReplaysAsMade(base, order, kept, n))
            <==> forall n | 0 <= n < |order| ::
                Keeps(base, order, n, SourcesAt(order, pending, log, confirmed, kept, n))
  {
    var kept := Retain(order, pending, log, confirmed).value;
    if forall n | 0 <= n <= |order| :: ReplaysAsMade(base, order, kept, n) {
      forall n | 0 <= n < |order| ensures Keeps(base, order, n, SourcesAt(order, pending, log, confirmed, kept, n)) {
        assert ReplaysAsMade(base, order, kept, n) && ReplaysAsMade(base, order, kept, n + 1);
        ReplayNext(base, order, pending, log, confirmed, n);
      }
    }
    if forall n | 0 <= n < |order| :: Keeps(base, order, n, SourcesAt(order, pending, log, confirmed, kept, n)) {
      forall n | 0 <= n <= |order| ensures ReplaysAsMade(base, order, kept, n) {
        ReplayUpTo(base, order, pending, log, confirmed, n);
      }
    }
  }

  lemma ReplayNext(base: Workspace, order: seq<Interaction>, pending: seq<Interaction>, log: seq<Interaction>,
                   confirmed: seq<Interaction>, n: nat)
    requires Retain(order, pending, log, confirmed).Some? && (forall p | p in order :: UniqueKeys(p.changes))
             && n < |order|
    requires ReplaysAsMade(base, order, Retain(order, pending, log, confirmed).value, n)
    ensures var kept := Retain(order, pending, log, confirmed).value;
            ReplaysAsMade(base, order, kept, n + 1)
            <==> Keeps(base, order, n, SourcesAt(order, pending, log, confirmed, kept, n))
  {
    var kept := Retain(order, pending, log, confirmed).value;
    RetainAlike(order, pending, log, confirmed, n);
    assert order[n] in order;
    var w := Replayed(base, kept[..n]).value;
    ReplayStep(w, base, order, n, SourcesAt(order, pending, log, confirmed, kept, n));
    ReplayedNext(base, kept, n, w);
    assert kept[..n + 1][..n] == kept[..n];
  }

  lemma {:induction false} ReplayUpTo(base: Workspace, order: seq<Interaction>, pending: seq<Interaction>,
                                      log: seq<Interaction>, confirmed: seq<Interaction>, n: nat)
    requires Retain(order, pending, log, confirmed).Some? && (forall p | p in order :: UniqueKeys(p.changes))
             && n <= |order|
    requires var kept := Retain(order, pending, log, confirmed).value;
             forall i | 0 <= i < |order| :: Keeps(base, order, i, SourcesAt(order, pending, log, confirmed, kept, i))
    ensures ReplaysAsMade(base, order, Retain(order, pending, log, confirmed).value, n)
    decreases n
  {
    if n > 0 {
      ReplayUpTo(base, order, pending, log, confirmed, n - 1);
      ReplayNext(base, order, pending, log, confirmed, n - 1);
    }
  }

  /** A recovery gives the whole cache of a client that was never cleared, has read the same revision and has
      the same commands pending, when each change, rebased over the sources that the recovery takes, fits
      and does what it did. */
  lemma RecoveryGivesUnclearedCache(s: Cache, receipts: map<string, Reply>, unvouched: set<string>, u: Cache)
    requires Wellformed(s) && Recoverable(s.pending, s.log, receipts)
             && PlanOf(s.pending, s.log, receipts, unvouched).Some?
    requires Inv(u) && u.level && u.disturbed == {}
    requires var order := Keeping(s.pending, receipts, unvouched).value;
             && (forall e :: On(order, e) == On(u.pending, e))
             && forall n | 0 <= n < |order| ::
                  Keeps(u.base, order, n, SourcesAt(order, s.pending, s.log, Confirming(s.pending, receipts),
                                                    PlanOf(s.pending, s.log, receipts, unvouched).value.kept, n))
    ensures Replayed(u.history[u.version], PlanOf(s.pending, s.log, receipts, unvouched).value.kept) == Some(u.rows)
  {
    var order := Keeping(s.pending, receipts, unvouched).value;
    var confirmed, kept := Confirming(s.pending, receipts), PlanOf(s.pending, s.log, receipts, unvouched).value.kept;
    KeepingMembers(s.pending, s.log, receipts, unvouched);
    ReplayUpTo(u.base, order, s.pending, s.log, confirmed, |order|);
    ShownIsCache(u, order, kept);
  }

  lemma ShownIsCache(u: Cache, order: seq<Interaction>, kept: seq<Interaction>)
    requires Inv(u) && u.level && u.disturbed == {} && |order| == |kept| && ReplaysAsMade(u.base, order, kept, |order|)
    requires forall e :: On(order, e) == On(u.pending, e)
    ensures u.base == u.history[u.version] && Replayed(u.base, kept) == Some(u.rows)
  {
    assert kept[..|order|] == kept && order[..|order|] == order;
    var w := Replayed(u.base, kept).value;
    UnclearedRow(u, EntityKey("", ""));
    forall e ensures Lookup(w, e) == Lookup(u.rows, e) {
      UnclearedRow(u, e);
      assert Lookup(w, e) == Fold(Lookup(u.base, e), ChangesOf(On(order[..|order|], e), e));
    }
    WorkspacesEqual(w, u.rows);
  }

  // ---------------------------------------------------------------------------------------
  // Nothing committed
  // ---------------------------------------------------------------------------------------

  /** No receipt has reached a pending command yet, and none is being withdrawn. */
  ghost predicate Unreached(s: Cache) {
    Ids(s.log) !! Named(s.pending) && forall p | p in s.pending :: p.state != RollbackPending
  }

  lemma {:induction false} AncestorsAreNamed(records: seq<Interaction>, ids: set<string>)
    ensures Ancestors(records, ids) <= ids + Named(records)
  {
    AncestorsAreLeast(records, ids, ids + Named(records));
  }

  lemma {:induction false} PickNone(rs: seq<Interaction>, ids: set<string>)
    requires forall x | x in rs :: x.commandId !in ids
    ensures Pick(rs, ids) == []
    decreases |rs|
  {
    if rs != [] {
      assert rs == rs[..|rs| - 1] + [rs[|rs| - 1]];
      PickNone(rs[..|rs| - 1], ids);
    }
  }

  /** The sources of a command are then its ancestors among the retained ones. */
  lemma UnreachedSources(s: Cache, p: Interaction, kept: seq<Interaction>)
    requires Unreached(s) && p in s.pending
    ensures Sources(p, s.pending, s.log, [], kept) == Pick(kept, Ancestors(s.pending, p.predecessors))
  {
    var ids := Ancestors(s.pending, p.predecessors);
    AncestorsAreNamed(s.pending, p.predecessors);
    assert p.predecessors <= Named(s.pending);
    forall x | x in s.log ensures x.commandId !in ids {
      assert x.commandId in Ids(s.log);
    }
    PickNone(s.log, ids);
  }

  lemma PickTopological(rs: seq<Interaction>, ids: set<string>)
    requires Topological(rs) && UniqueIds(rs)
    ensures UniqueIds(Pick(rs, ids)) && Ordered(Pick(rs, ids)).Some?
  {
    PickMembers(rs, ids);
    TopologicalAcyclic(rs);
    forall x | x in Pick(rs, ids) ensures LinkedIn(x, rs) {
      assert Ties(x) == Ties(x);
    }
    AcyclicAlike(Pick(rs, ids), rs);
    OrderSpecification(Pick(rs, ids));
  }

  /** The commands in dependency order, as a recovery without receipts takes them. */
  lemma KeepsAll(s: Cache)
    requires Wellformed(s) && forall p | p in s.pending :: p.state != RollbackPending
    ensures Recoverable(s.pending, s.log, map[])
    ensures Keeping(s.pending, map[], {}) == Ordered(s.pending) && Ordered(s.pending).Some?
    ensures Confirming(s.pending, map[]) == []
  {
    var none: map<string, Reply> := map[];
    assert RefusedFirst(s.pending, none, {}) == {};
    assert Behind(s.pending, none, {}) == {};
    DropNone(s.pending, none.Keys);
    OrderSpecification(s.pending);
    DropNone(Ordered(s.pending).value, {});
    NothingConfirmed(s.pending);
  }

  lemma {:induction false} NothingConfirmed(pending: seq<Interaction>)
    ensures Confirming(pending, map[]) == []
    decreases |pending|
  {
    if pending != [] {
      NothingConfirmed(pending[..|pending| - 1]);
    }
  }

  lemma OrderedMembers(s: Cache)
    requires Wellformed(s)
    ensures Ordered(s.pending).Some?
    ensures var order := Ordered(s.pending).value;
            && UniqueIds(order) && Topological(order) && |order| == |s.pending|
            && forall p | p in order :: p in s.pending && UniqueKeys(p.changes)
  {
    OrderSpecification(s.pending);
    var order := Ordered(s.pending).value;
    UniqueByIds(s.pending, order);
    forall p | p in order ensures p in s.pending {
      assert p in multiset(order);
    }
    assert |multiset(order)| == |multiset(s.pending)|;
  }

  /** Such a recovery always finds an order for a command's sources. */
  lemma UnreachedRecord(s: Cache, init: seq<Interaction>, kept: seq<Interaction>, p: Interaction)
    requires Unreached(s) && p in s.pending && UniqueIds(init) && Topological(init)
    requires Retain(init, s.pending, s.log, []) == Some(kept)
    ensures RebasedRecord(p, Sources(p, s.pending, s.log, [], kept)).Some?
  {
    KeptIds(init, s.pending, s.log, []);
    PickTopological(kept, Ancestors(s.pending, p.predecessors));
    UnreachedSources(s, p, kept);
  }

  lemma {:induction false} UnreachedRetain(s: Cache, order: seq<Interaction>, n: nat)
    requires Unreached(s) && UniqueIds(order) && Topological(order) && (forall p | p in order :: p in s.pending)
             && n <= |order|
    ensures Retain(order[..n], s.pending, s.log, []).Some?
    decreases n
  {
    if n > 0 {
      UnreachedRetain(s, order, n - 1);
      PrefixOrdered(order, n - 1);
      UnreachedRecord(s, order[..n - 1], Retain(order[..n - 1], s.pending, s.log, []).value, order[n - 1]);
      assert order[..n][..n - 1] == order[..n - 1];
    }
  }

  lemma PrefixOrdered(order: seq<Interaction>, n: nat)
    requires UniqueIds(order) && Topological(order) && n <= |order|
    ensures UniqueIds(order[..n]) && Topological(order[..n])
  {}

  lemma UnreachedPlan(s: Cache)
    requires Inv(s) && Unreached(s)
    ensures Recoverable(s.pending, s.log, map[]) && PlanOf(s.pending, s.log, map[], {}).Some?
    ensures Ordered(s.pending).Some?
    ensures Retain(Ordered(s.pending).value, s.pending, s.log, [])
            == Some(PlanOf(s.pending, s.log, map[], {}).value.kept)
  {
    KeepsAll(s);
    var order := Ordered(s.pending).value;
    OrderedMembers(s);
    UnreachedRetain(s, order, |order|);
    assert order[..|order|] == order;
  }

  lemma ChainedPrefix(ps: seq<Interaction>, i: nat)
    requires Chained(ps) && i <= |ps|
    ensures Chained(ps[..i]) && (i < |ps| ==> forall x | x in ps[..i] :: x.commandId in ps[i].predecessors)
  {}

  /** On one entity the sources are the earlier changes there, as they were rebased, in order. */
  lemma UnreachedSourcesOn(s: Cache, order: seq<Interaction>, kept: seq<Interaction>, n: nat, e: EntityKey)
    requires Wellformed(s) && Unreached(s) && EntitySound(s, e) && Ordered(s.pending) == Some(order)
    requires Retain(order, s.pending, s.log, []) == Some(kept) && n < |order| && Touches(order[n], e)
             && !Creates(order[n])
    ensures SourcesOn(order[n], SourcesAt(order, s.pending, s.log, [], kept, n), e) == ChangesOf(On(kept[..n], e), e)
  {
    OrderedMembers(s);
    assert order[n] in order;
    UnreachedSources(s, order[n], kept[..n]);
    var ids := Ancestors(s.pending, order[n].predecessors);
    AncestorsAreLeast(s.pending, order[n].predecessors, ids);
    EarlierOn(s, order, kept, n, e);
    KeptPrefix(s, order, kept, n);
    SourcesPicked(order[n], SourcesAt(order, s.pending, s.log, [], kept, n), kept[..n], ids, e);
  }

  lemma SourcesPicked(p: Interaction, sources: seq<Interaction>, kept: seq<Interaction>, ids: set<string>, e: EntityKey)
    requires !Creates(p) && sources == Pick(kept, ids) && p.predecessors <= ids && UniqueIds(kept) && Topological(kept)
    requires Chained(On(kept, e)) && forall x | x in On(kept, e) :: x.commandId in p.predecessors
    ensures SourcesOn(p, sources, e) == ChangesOf(On(kept, e), e)
  {
    PickedOn(kept, ids, e);
  }

  lemma KeptPrefix(s: Cache, order: seq<Interaction>, kept: seq<Interaction>, n: nat)
    requires Wellformed(s) && Ordered(s.pending) == Some(order)
    requires Retain(order, s.pending, s.log, []) == Some(kept) && n <= |order|
    ensures UniqueIds(kept[..n]) && Topological(kept[..n])
  {
    OrderedMembers(s);
    KeptIds(order, s.pending, s.log, []);
    PrefixOrdered(kept, n);
  }

  lemma PickedOn(kept: seq<Interaction>, ids: set<string>, e: EntityKey)
    requires UniqueIds(kept) && Topological(kept) && Chained(On(kept, e)) && forall x | x in On(kept, e) ::
               x.commandId in ids
    ensures Ordered(Pick(kept, ids)).Some? && On(Ordered(Pick(kept, ids)).value, e) == On(kept, e)
  {
    PickTopological(kept, ids);
    PickOn(kept, ids, e);
    OrderedOn(Pick(kept, ids), e);
  }

  /** The records of the entity before the nth are its predecessors, and chained. */
  lemma EarlierOn(s: Cache, order: seq<Interaction>, kept: seq<Interaction>, n: nat, e: EntityKey)
    requires Wellformed(s) && EntitySound(s, e) && Ordered(s.pending) == Some(order)
    requires Retain(order, s.pending, s.log, []) == Some(kept) && n < |order| && Touches(order[n], e)
    ensures Chained(On(kept[..n], e)) && forall x | x in On(kept[..n], e) :: x.commandId in order[n].predecessors
  {
    OrderedOn(s.pending, e);
    OnPrefix(order, n, e);
    ChainedPrefix(On(order, e), |On(order[..n], e)|);
    OrderedMembers(s);
    KeptOn(order, s.pending, s.log, [], kept, n, e);
    forall x | x in On(kept[..n], e) ensures x.commandId in order[n].predecessors {
      var i :| 0 <= i < |On(kept[..n], e)| && On(kept[..n], e)[i] == x;
      assert On(order[..n], e)[i] in On(order[..n], e);
    }
  }

  ghost predicate TiedOn(kept: seq<Interaction>, order: seq<Interaction>, e: EntityKey) {
    |On(kept, e)| == |On(order, e)| && forall i | 0 <= i < |On(kept, e)| ::
        Ties(On(kept, e)[i]) == Ties(On(order, e)[i])
  }

  lemma TiedNext(kept: seq<Interaction>, order: seq<Interaction>, k: Interaction, p: Interaction, e: EntityKey)
    requires TiedOn(kept, order, e) && Ties(k) == Ties(p) && (Touches(k, e) <==> Touches(p, e))
    ensures TiedOn(kept + [k], order + [p], e)
  {
    OnLast(kept, k, e);
    OnLast(order, p, e);
  }

  /** The kept records of the entity are the original ones there, rebased. */
  lemma {:induction false} KeptOn(order: seq<Interaction>, pending: seq<Interaction>, log: seq<Interaction>,
                                  confirmed: seq<Interaction>, kept: seq<Interaction>, n: nat, e: EntityKey)
    requires Retain(order, pending, log, confirmed) == Some(kept) && n <= |order| && forall p | p in order ::
               UniqueKeys(p.changes)
    ensures TiedOn(kept[..n], order[..n], e)
    decreases n
  {
    if n > 0 {
      KeptOn(order, pending, log, confirmed, kept, n - 1, e);
      KeptTouches(order, pending, log, confirmed, kept, n - 1, e);
      assert order[..n] == order[..n - 1] + [order[n - 1]] && kept[..n] == kept[..n - 1] + [kept[n - 1]];
      TiedNext(kept[..n - 1], order[..n - 1], kept[n - 1], order[n - 1], e);
    }
  }

  lemma KeptTouches(order: seq<Interaction>, pending: seq<Interaction>, log: seq<Interaction>,
                    confirmed: seq<Interaction>, kept: seq<Interaction>, n: nat, e: EntityKey)
    requires Retain(order, pending, log, confirmed) == Some(kept) && n < |order| && forall p | p in order ::
               UniqueKeys(p.changes)
    ensures Ties(kept[n]) == Ties(order[n]) && (Touches(kept[n], e) <==> Touches(order[n], e))
    ensures Touches(order[n], e) ==>
              ChangeOf(kept[n], e) == Rebase(ChangeOf(order[n], e),
                                             SourcesOn(order[n], SourcesAt(order, pending, log, confirmed, kept, n), e))
  {
    RetainAlike(order, pending, log, confirmed, n);
    assert order[n] in order;
    RebasedAt(order[n], SourcesAt(order, pending, log, confirmed, kept, n), e);
  }

  lemma {:induction false} PickOn(rs: seq<Interaction>, ids: set<string>, e: EntityKey)
    requires forall x | x in On(rs, e) :: x.commandId in ids
    ensures On(Pick(rs, ids), e) == On(rs, e)
    decreases |rs|
  {
    if rs != [] {
      var init, last := rs[..|rs| - 1], rs[|rs| - 1];
      assert rs == init + [last];
      OnLast(init, last, e);
      PickLast(init, last, ids);
      forall x | x in On(init, e) ensures x.commandId in ids {
        assert x in On(rs, e);
      }
      assert Touches(last, e) ==> On(rs, e)[|On(init, e)|] == last && last in On(rs, e);
      PickOn(init, ids, e);
      OnLast(Pick(init, ids), last, e);
    }
  }

  /** The kept change of the entity is the original one, rebased over the kept ones before it. */
  ghost predicate ChainLink(order: seq<Interaction>, kept: seq<Interaction>, n: nat, e: EntityKey)
    requires n < |order| == |kept|
  {
    && (Touches(kept[n], e) <==> Touches(order[n], e))
    && (Touches(order[n], e) ==> ChangeOf(kept[n], e) == Rebase(ChangeOf(order[n], e), ChangesOf(On(kept[..n], e), e)))
  }

  /** The kept changes of the entity are its chain, rebased over itself. */
  lemma {:induction false} KeptChain(order: seq<Interaction>, kept: seq<Interaction>, n: nat, e: EntityKey)
    requires n <= |order| == |kept| && forall i | 0 <= i < |order| :: ChainLink(order, kept, i, e)
    ensures ChangesOf(On(kept[..n], e), e) == RebaseChain(ChangesOf(On(order[..n], e), e))
    decreases n
  {
    if n > 0 {
      KeptChain(order, kept, n - 1, e);
      assert ChainLink(order, kept, n - 1, e);
      assert order[..n] == order[..n - 1] + [order[n - 1]] && kept[..n] == kept[..n - 1] + [kept[n - 1]];
      ChainNext(order[..n - 1], kept[..n - 1], order[n - 1], kept[n - 1], e);
    }
  }

  lemma ChainNext(order: seq<Interaction>, kept: seq<Interaction>, p: Interaction, k: Interaction, e: EntityKey)
    requires ChangesOf(On(kept, e), e) == RebaseChain(ChangesOf(On(order, e), e)) && (Touches(k, e) <==> Touches(p, e))
    requires Touches(p, e) ==> ChangeOf(k, e) == Rebase(ChangeOf(p, e), ChangesOf(On(kept, e), e))
    ensures ChangesOf(On(kept + [k], e), e) == RebaseChain(ChangesOf(On(order + [p], e), e))
  {
    OnLast(order, p, e);
    OnLast(kept, k, e);
    if Touches(p, e) {
      ChangesAppended(On(order, e), p, e);
      ChangesAppended(On(kept, e), k, e);
      var cs := ChangesOf(On(order, e), e);
      assert (cs + [ChangeOf(p, e)])[..|cs|] == cs;
    }
  }

  lemma KeptChange(s: Cache, order: seq<Interaction>, kept: seq<Interaction>, n: nat, e: EntityKey)
    requires Wellformed(s) && Unreached(s) && EntitySound(s, e) && Ordered(s.pending) == Some(order)
    requires Retain(order, s.pending, s.log, []) == Some(kept) && n < |order|
    ensures ChainLink(order, kept, n, e)
  {
    OrderedMembers(s);
    KeptTouches(order, s.pending, s.log, [], kept, n, e);
    if Touches(order[n], e) {
      if Creates(order[n]) {
        ChangeAtMember(order[n].changes, e);
        RebaseCreation(ChangeOf(order[n], e), ChangesOf(On(kept[..n], e), e));
        RebaseCreation(ChangeOf(order[n], e), []);
      } else {
        UnreachedSourcesOn(s, order, kept, n, e);
      }
    }
  }

  lemma KeptChainOf(s: Cache, order: seq<Interaction>, kept: seq<Interaction>, n: nat, e: EntityKey)
    requires Wellformed(s) && Unreached(s) && EntitySound(s, e) && Ordered(s.pending) == Some(order)
    requires Retain(order, s.pending, s.log, []) == Some(kept) && n <= |order|
    ensures ChangesOf(On(kept[..n], e), e) == RebaseChain(ChangesOf(On(order[..n], e), e))
  {
    forall i | 0 <= i < |order| ensures ChainLink(order, kept, i, e) {
      KeptChange(s, order, kept, i, e);
    }
    KeptChain(order, kept, n, e);
  }

  /** The nth command does what it did on the entity exactly when the change there, the ith of the chain,
      does over the rebased chain below it. */
  lemma KeepsOn(s: Cache, order: seq<Interaction>, kept: seq<Interaction>, n: nat, e: EntityKey)
    requires Inv(s) && Unreached(s) && e !in s.disturbed && Ordered(s.pending) == Some(order)
    requires Retain(order, s.pending, s.log, []) == Some(kept) && n < |order| && Touches(order[n], e)
    ensures var cs, i := ChangesOf(On(s.pending, e), e), |On(order[..n], e)|;
            && i < |cs| && ChangeOf(order[n], e) == cs[i] && ChangesOf(On(order[..n], e), e) == cs[..i]
            && (Rebases(Fold(Lookup(s.base, e), cs[..i]), cs[i],
                        SourcesOn(order[n], SourcesAt(order, s.pending, s.log, [], kept, n), e))
                <==> Rebases(Fold(Lookup(s.base, e), cs[..i]), cs[i], RebaseChain(cs)[..i]))
  {
    assert EntitySound(s, e);
    OrderedOn(s.pending, e);
    OnPrefix(order, n, e);
    var ps, i := On(s.pending, e), |On(order[..n], e)|;
    ChangesAt(ps, e, i);
    KeptChainOf(s, order, kept, n, e);
    RebaseChainAt(ChangesOf(ps, e), i);
    if Creates(order[n]) {
      ChangeAtMember(order[n].changes, e);
      RebaseCreation(ChangeOf(order[n], e), []);
      RebaseCreation(ChangeOf(order[n], e), RebaseChain(ChangesOf(ps, e))[..i]);
      RebasesExactly(Fold(Lookup(s.base, e), ChangesOf(ps, e)[..i]), ChangeOf(order[n], e), []);
      RebasesExactly(Fold(Lookup(s.base, e), ChangesOf(ps, e)[..i]), ChangeOf(order[n], e),
                     RebaseChain(ChangesOf(ps, e))[..i]);
    } else {
      UnreachedSourcesOn(s, order, kept, n, e);
    }
  }

  lemma PendingSits(s: Cache, e: EntityKey)
    requires Inv(s) && Unreached(s) && e !in s.disturbed
    ensures Sits(Lookup(s.base, e), ChangesOf(On(s.pending, e), e))
  {
    assert EntitySound(s, e);
    var ps := On(s.pending, e);
    LinksChanges(s.log, ps, e);
    OnMembers(s.pending, e);
    forall l | l in LinksOf(s.log, ps, e) ensures l.accepted == [] {
      NoReceipts(s, ps, e, l);
    }
    UndecidedSits(Lookup(s.base, e), LinksOf(s.log, ps, e));
  }

  lemma {:induction false} NoReceipts(s: Cache, ps: seq<Interaction>, e: EntityKey, l: Link)
    requires Unreached(s) && (forall p | p in ps :: p in s.pending) && l in LinksOf(s.log, ps, e)
    ensures l.accepted == []
    decreases |ps|
  {
    var init, last := ps[..|ps| - 1], ps[|ps| - 1];
    if l in LinksOf(s.log, init, e) {
      NoReceipts(s, init, e, l);
    } else {
      assert last in ps;
      forall x | x in s.log ensures x.commandId !in last.predecessors {
        assert x.commandId in Ids(s.log);
      }
      PickNone(s.log, last.predecessors);
    }
  }

  /** On one entity every command does what it did exactly when no change of the chain is opposed. */
  lemma EntityUnopposed(s: Cache, order: seq<Interaction>, kept: seq<Interaction>, e: EntityKey)
    requires Inv(s) && Unreached(s) && e !in s.disturbed && Ordered(s.pending) == Some(order)
    requires Retain(order, s.pending, s.log, []) == Some(kept)
    ensures var cs := ChangesOf(On(s.pending, e), e);
            (forall n | 0 <= n < |order| && Touches(order[n], e) ::
               Rebases(Fold(Lookup(s.base, e), ChangesOf(On(order[..n], e), e)), ChangeOf(order[n], e),
                       SourcesOn(order[n], SourcesAt(order, s.pending, s.log, [], kept, n), e)))
            <==> UnopposedUpTo(cs, |cs|)
  {
    var cs := ChangesOf(On(s.pending, e), e);
    PendingSits(s, e);
    RetainedUpTo(Lookup(s.base, e), cs, |cs|);
    ExactlyRebases(Lookup(s.base, e), cs);
    if UnopposedUpTo(cs, |cs|) {
      forall n | 0 <= n < |order| && Touches(order[n], e)
        ensures Rebases(Fold(Lookup(s.base, e), ChangesOf(On(order[..n], e), e)), ChangeOf(order[n], e),
                        SourcesOn(order[n], SourcesAt(order, s.pending, s.log, [], kept, n), e))
      {
        KeepsOn(s, order, kept, n, e);
      }
    }
    if forall n | 0 <= n < |order| && Touches(order[n], e) ::
         Rebases(Fold(Lookup(s.base, e), ChangesOf(On(order[..n], e), e)), ChangeOf(order[n], e),
                 SourcesOn(order[n], SourcesAt(order, s.pending, s.log, [], kept, n), e)) {
      forall i | 0 <= i < |cs| ensures Rebases(Fold(Lookup(s.base, e), cs[..i]), cs[i], RebaseChain(cs)[..i]) {
        assert EntitySound(s, e);
        OrderedOn(s.pending, e);
        ChangesAt(On(s.pending, e), e, |On(s.pending, e)|);
        var n := PlaceOf(order, e, i);
        KeepsOn(s, order, kept, n, e);
      }
    }
  }

  lemma ExactlyAt(base: Option<Row>, cs: seq<EntityChange>, i: nat)
    requires i < |cs|
    ensures PatchRow(Fold(base, cs[..i]), RebaseChain(cs)[i], true) == Patched(Fold(base, cs[..i + 1]))
            <==> Rebases(Fold(base, cs[..i]), cs[i], RebaseChain(cs)[..i])
  {
    RebaseChainAt(cs, i);
    RebasesExactly(Fold(base, cs[..i]), cs[i], RebaseChain(cs)[..i]);
    assert cs[..i + 1][..i] == cs[..i];
  }

  ghost predicate AllRebase(base: Option<Row>, cs: seq<EntityChange>) {
    forall i | 0 <= i < |cs| :: Rebases(Fold(base, cs[..i]), cs[i], RebaseChain(cs)[..i])
  }

  lemma ExactlyRebases(base: Option<Row>, cs: seq<EntityChange>)
    ensures Exactly(base, cs, RebaseChain(cs), |cs|) <==> AllRebase(base, cs)
  {
    var over := RebaseChain(cs);
    if Exactly(base, cs, over, |cs|) {
      forall i | 0 <= i < |cs| ensures Rebases(Fold(base, cs[..i]), cs[i], over[..i]) {
        ExactlyAt(base, cs, i);
      }
    }
    if AllRebase(base, cs) {
      forall i | 0 <= i < |cs|
        ensures PatchRow(Fold(base, cs[..i]), over[i], true) == Patched(Fold(base, cs[..i + 1]))
      {
        ExactlyAt(base, cs, i);
      }
    }
  }

  /** With nothing committed, the recovery of a cleared cache finds what it needs, confirms nothing and keeps
      every command. Its replay over the same revision is accepted and goes command by command as the
      commands were made, and so gives the cache back, exactly when on every entity no change sets a field
      to a value that an earlier change there left already, as that one was rebased itself, and each was
      made on what the last of them left. */
  lemma UncommittedRecovery(s: Cache)
    requires Inv(s) && s.level && s.disturbed == {} && Unreached(s)
    ensures PlanOf(s.pending, s.log, map[], {}).Some? && Ordered(s.pending).Some?
    ensures var order, kept := Ordered(s.pending).value, PlanOf(s.pending, s.log, map[], {}).value.kept;
            && |order| == |kept|
            && ((forall n | 0 <= n <= |order| :: ReplaysAsMade(s.base, order, kept, n)) <==> Unopposing(s))
            && (Unopposing(s) ==> Replayed(s.history[s.version], kept) == Some(s.rows))
  {
    UnreachedPlan(s);
    OrderedMembers(s);
    var order, kept := Ordered(s.pending).value, PlanOf(s.pending, s.log, map[], {}).value.kept;
    RecoveryExact(s.base, order, s.pending, s.log, []);
    KeepsUnopposed(s, order, kept);
    if Unopposing(s) {
      assert ReplaysAsMade(s.base, order, kept, |order|);
      forall e ensures On(order, e) == On(s.pending, e) {
        assert EntitySound(s, e);
        OrderedOn(s.pending, e);
      }
      ShownIsCache(s, order, kept);
    }
  }

  ghost predicate Unopposing(s: Cache) {
    forall e :: UnopposedUpTo(ChangesOf(On(s.pending, e), e), |ChangesOf(On(s.pending, e), e)|)
  }

  lemma KeepsUnopposed(s: Cache, order: seq<Interaction>, kept: seq<Interaction>)
    requires Inv(s) && Unreached(s) && s.disturbed == {} && Ordered(s.pending) == Some(order)
    requires Retain(order, s.pending, s.log, []) == Some(kept)
    ensures (forall n | 0 <= n < |order| :: Keeps(s.base, order, n, SourcesAt(order, s.pending, s.log, [], kept, n)))
            <==> Unopposing(s)
  {
    if forall n | 0 <= n < |order| :: Keeps(s.base, order, n, SourcesAt(order, s.pending, s.log, [], kept, n)) {
      forall e ensures UnopposedUpTo(ChangesOf(On(s.pending, e), e), |ChangesOf(On(s.pending, e), e)|) {
        EntityUnopposed(s, order, kept, e);
      }
    }
    if Unopposing(s) {
      forall n | 0 <= n < |order| ensures Keeps(s.base, order, n, SourcesAt(order, s.pending, s.log, [], kept, n)) {
        forall e | Touches(order[n], e)
          ensures Rebases(Fold(Lookup(s.base, e), ChangesOf(On(order[..n], e), e)), ChangeOf(order[n], e),
                          SourcesOn(order[n], SourcesAt(order, s.pending, s.log, [], kept, n), e))
        {
          EntityUnopposed(s, order, kept, e);
        }
      }
    }
  }
}
