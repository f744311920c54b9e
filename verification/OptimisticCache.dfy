/**
 The optimistic cache as a state machine over whole workspaces: commands begin, are acknowledged
 or rejected with their dependents, the cache is edited or cleared elsewhere, and a recovery reads
 an authoritative snapshot and installs it under the retained commands.

 The base is the last incorporated authoritative workspace. The client does not store it; the
 machine carries it so that "the cache is the authoritative state under the pending changes" can
 be said. An entity is disturbed once a step misses one of the guards below on it. Each guard is
 about the records, the reply and the row that the step itself handles.

 What the client does store is a proof: the baseline of the last installed snapshot and every delta
 it has written since. A recovery starts only from a cache that the proof vouches for, or that was
 cleared, and installs only over the cache it started from.
 */
module OptimisticCache {
  import opened Wrappers
  import opened WorkspaceDelta
  import opened Interactions
  import opened InteractionOrder
  import opened RowChain
  import opened CacheRow
  import opened JournalViews
  import ProjectionProof

  /** What a recovery saw when it started: the cache and the reserved commands. */
  datatype Sample = Sample(rows: Workspace, reserved: set<string>)

  datatype Proof = Proof(baseline: Option<Workspace>, deltas: seq<seq<EntityChange>>, cleared: bool,
                         sample: Option<Sample>)

  datatype Cache = Cache(
    history: seq<Workspace>,
    version: nat,
    level: bool,
    base: Workspace,
    rows: Workspace,
    pending: seq<Interaction>,
    log: seq<Interaction>,
    disturbed: set<EntityKey>,
    proof: Proof)

  /** The accepted changes on the entity of a record's confirmed predecessors. */
  function AcceptedOn(log: seq<Interaction>, p: Interaction, e: EntityKey): seq<EntityChange> {
    ChangesOf(On(Pick(log, p.predecessors), e), e)
  }

  function LinkOf(log: seq<Interaction>, p: Interaction, e: EntityKey): Link {
    Link(ChangeOf(p, e), AcceptedOn(log, p, e))
  }

  function LinksOf(log: seq<Interaction>, ps: seq<Interaction>, e: EntityKey): seq<Link> {
    if ps == [] then [] else LinksOf(log, ps[..|ps| - 1], e) + [LinkOf(log, ps[|ps| - 1], e)]
  }

  /** The confirmed predecessors of a record on the entity are predecessors of the other one too. */
  ghost predicate Shares(log: seq<Interaction>, p: Interaction, other: Interaction, e: EntityKey) {
    forall q | q in On(Pick(log, p.predecessors), e) :: q.commandId in other.predecessors
  }

  ghost predicate Nested(log: seq<Interaction>, ps: seq<Interaction>, e: EntityKey) {
    forall i, j | 0 <= i < j < |ps| :: Shares(log, ps[j], ps[i], e)
  }

  /** The records on the entity depend on one another in the order in which they were made. */
  ghost predicate Lined(log: seq<Interaction>, ps: seq<Interaction>, e: EntityKey) {
    && Chained(ps) && Nested(log, ps, e)
    && forall p | p in ps :: Chained(On(Pick(log, p.predecessors), e))
  }

  ghost predicate EntitySound(s: Cache, e: EntityKey) {
    && RowSound(Lookup(s.base, e), Lookup(s.rows, e), LinksOf(s.log, On(s.pending, e), e))
    && Lined(s.log, On(s.pending, e), e)
  }

  ghost predicate Wellformed(s: Cache) {
    && UniqueIds(s.pending) && UniqueIds(s.log) && Ids(s.pending) !! Ids(s.log)
    && Acyclic(s.pending)
    && (forall p | p in s.pending :: Unsettled(p.state) && UniqueKeys(p.changes))
    && (forall p | p in s.log :: UniqueKeys(p.changes))
  }

  ghost predicate Inv(s: Cache) {
    && s.version < |s.history|
    && (s.level ==> s.base == s.history[s.version])
    && Wellformed(s)
    && forall e | e !in s.disturbed :: EntitySound(s, e)
  }

  lemma LinksLast(log: seq<Interaction>, ps: seq<Interaction>, p: Interaction, e: EntityKey)
    ensures LinksOf(log, ps + [p], e) == LinksOf(log, ps, e) + [LinkOf(log, p, e)]
  {
    assert (ps + [p])[..|ps|] == ps;
  }

  lemma LinksConcat(log: seq<Interaction>, a: seq<Interaction>, b: seq<Interaction>, e: EntityKey)
    ensures LinksOf(log, a + b, e) == LinksOf(log, a, e) + LinksOf(log, b, e)
  {
    if b == [] {
      assert a + b == a;
    } else {
      assert (a + b)[..|a + b| - 1] == a + b[..|b| - 1];
      LinksConcat(log, a, b[..|b| - 1], e);
    }
  }

  lemma LinksChanges(log: seq<Interaction>, ps: seq<Interaction>, e: EntityKey)
    ensures Changes(LinksOf(log, ps, e)) == ChangesOf(ps, e)
  {
    if ps != [] {
      LinksChanges(log, ps[..|ps| - 1], e);
      var links := LinksOf(log, ps[..|ps| - 1], e);
      assert (links + [LinkOf(log, ps[|ps| - 1], e)])[..|links|] == links;
    }
  }

  lemma LinksFrame(log: seq<Interaction>, log': seq<Interaction>, ps: seq<Interaction>, e: EntityKey)
    requires forall p | p in ps :: AcceptedOn(log, p, e) == AcceptedOn(log', p, e)
    ensures LinksOf(log, ps, e) == LinksOf(log', ps, e)
  {
    if ps != [] {
      LinksFrame(log, log', ps[..|ps| - 1], e);
    }
  }

  // ---------------------------------------------------------------------------------------
  // Begin
  // ---------------------------------------------------------------------------------------

  ghost predicate Fresh(s: Cache, r: Interaction) {
    && r.commandId !in Ids(s.pending) && r.commandId !in Ids(s.log) && r.commandId !in r.predecessors
    && Acyclic(s.pending + [r])
    && Unsettled(r.state) && UniqueKeys(r.changes)
  }

  /** The command was computed from the cached row, names every pending command on the entity as a
      predecessor, and no confirmed one that they do not. */
  ghost predicate AddsAt(s: Cache, r: Interaction, e: EntityKey) {
    && AddsCleanly(Lookup(s.rows, e), LinksOf(s.log, On(s.pending, e), e), LinkOf(s.log, r, e))
    && (forall p | p in On(s.pending, e) :: p.commandId in r.predecessors)
    && Chained(On(Pick(s.log, r.predecessors), e))
    && forall p | p in On(s.pending, e) :: Shares(s.log, r, p, e)
  }

  /** Rows and proof are written together. */
  function Recording(p: Proof, deltas: seq<seq<EntityChange>>): Proof {
    p.(deltas := p.deltas + deltas)
  }

  ghost function Keys(cs: seq<EntityChange>): set<EntityKey> {
    set c | c in cs :: c.key
  }

  ghost predicate Begins(s: Cache, r: Interaction, s': Cache) {
    && Fresh(s, r)
    && ApplyChanges(s.rows, r.changes).Some?
    && s' == s.(rows := ApplyChanges(s.rows, r.changes).value,
                pending := s.pending + [r],
                disturbed := s.disturbed + (set e | e in Keys(r.changes) && !AddsAt(s, r, e)),
                proof := Recording(s.proof, [r.changes]))
  }

  lemma AppliedAt(w: Workspace, cs: seq<EntityChange>, e: EntityKey)
    requires UniqueKeys(cs) && ApplyChanges(w, cs).Some?
    ensures var row := Lookup(ApplyChanges(w, cs).value, e);
            match ChangeAt(cs, e)
            case Some(c) => e in Keys(cs) && PatchRow(Lookup(w, e), c, true) == Patched(row)
            case None => e !in Keys(cs) && row == Lookup(w, e)
  {
    ApplyByKey(w, cs);
    ChangeAtMember(cs, e);
    if ChangeAt(cs, e).Some? {
      assert ChangeAt(cs, e).value in cs;
    }
  }

  lemma LinedLast(log: seq<Interaction>, ps: seq<Interaction>, r: Interaction, e: EntityKey)
    requires Lined(log, ps, e) && (forall p | p in ps :: p.commandId in r.predecessors)
    requires Chained(On(Pick(log, r.predecessors), e))
    requires forall p | p in ps :: Shares(log, r, p, e)
    ensures Lined(log, ps + [r], e)
  {
    ChainedLast(ps, r);
    assert forall i | 0 <= i < |ps| :: ps[i] in ps;
  }

  lemma BeginEntity(s: Cache, r: Interaction, s': Cache, e: EntityKey)
    requires Inv(s) && Begins(s, r, s') && e !in s'.disturbed
    ensures EntitySound(s', e)
  {
    AppliedAt(s.rows, r.changes, e);
    OnLast(s.pending, r, e);
    assert EntitySound(s, e);
    if Touches(r, e) {
      assert AddsAt(s, r, e);
      var ps := On(s.pending, e);
      LinksLast(s.log, ps, r, e);
      RowAdd(Lookup(s.base, e), Lookup(s.rows, e), LinksOf(s.log, ps, e), LinkOf(s.log, r, e));
      LinedLast(s.log, ps, r, e);
    }
  }

  lemma BeginInv(s: Cache, r: Interaction, s': Cache)
    requires Inv(s) && Begins(s, r, s')
    ensures Inv(s')
  {
    forall i, j | 0 <= i < j < |s'.pending| ensures s'.pending[i].commandId != s'.pending[j].commandId {
      if j == |s.pending| {
        assert s.pending[i] in s.pending;
      }
    }
    assert Ids(s'.pending) == Ids(s.pending) + {r.commandId} by {
      assert r in s'.pending;
      forall p | p in s.pending ensures p in s'.pending {}
    }
    forall e | e !in s'.disturbed ensures EntitySound(s', e) {
      BeginEntity(s, r, s', e);
    }
  }

  // ---------------------------------------------------------------------------------------
  // Acknowledgement
  // ---------------------------------------------------------------------------------------

  function ForceChanges(w: Workspace, cs: seq<EntityChange>): Workspace
    decreases |cs|
  {
    if cs == [] then w
    else ForceChanges(Store(w, cs[0].key, Force(Lookup(w, cs[0].key), cs[0])), cs[1..])
  }

  lemma ForceByKey(w: Workspace, cs: seq<EntityChange>, e: EntityKey)
    requires UniqueKeys(cs)
    ensures Lookup(ForceChanges(w, cs), e) == ForceAt(Lookup(w, e), ChangeAt(cs, e))
    decreases |cs|
  {
    if cs != [] {
      var w1 := Store(w, cs[0].key, Force(Lookup(w, cs[0].key), cs[0]));
      ForceByKey(w1, cs[1..], e);
      ChangeAtMember(cs[1..], e);
    }
  }

  function PriorRows(priors: seq<Interaction>, e: EntityKey): seq<Row> {
    if priors == [] then []
    else PriorRows(priors[..|priors| - 1], e)
         + match ChangeAt(priors[|priors| - 1].changes, e)
           case Some(c) => if c.after.Some? then [c.after.value] else []
           case None => []
  }

  /** The settled patch of every accepted change. */
  ghost predicate Settles(r: Interaction, priors: seq<Interaction>, accepted: seq<EntityChange>,
                          later: seq<Interaction>, settled: seq<EntityChange>) {
    |settled| == |accepted| && forall i | 0 <= i < |accepted| ::
      Settlement(ChangeAt(r.changes, accepted[i].key), PriorRows(priors, accepted[i].key), accepted[i],
                 ChangesOf(On(later, accepted[i].key), accepted[i].key)) == Some(settled[i])
  }

  /** The dependents of a record, in an order that respects dependency. */
  ghost predicate Cascade(pending: seq<Interaction>, root: string, order: seq<Interaction>) {
    IsCascade(pending, root, order) && UniqueIds(order) && Topological(order)
  }

  function Confirm(r: Interaction, accepted: seq<EntityChange>): Interaction {
    r.(changes := accepted, state := Confirmed)
  }

  /** On an entity both sides changed nothing older is pending and the receipt settles cleanly; on one that only the
  server changed
      nothing is pending; and no optimistic change is left out of the receipt. */
  ghost predicate SettlesAt(s: Cache, r: Interaction, priors: seq<Interaction>, accepted: seq<EntityChange>,
                            e: EntityKey)
  {
    match ChangeAt(accepted, e)
    case None => !Touches(r, e)
    case Some(c) =>
      if !Touches(r, e) then On(s.pending, e) == []
      else
        && (forall p | p in On(s.pending, e) :: p.commandId !in r.predecessors)
        && SameShape(ChangeOf(r, e), c)
        && SettlesCleanly(Lookup(s.base, e), ChangeOf(r, e), PriorRows(priors, e), c,
                          LinksOf(s.log, Drop(On(s.pending, e), {r.commandId}), e))
  }

  /** The server committed the receipt's delta as revision `revision + 1`. */
  ghost predicate Acknowledges(s: Cache, r: Interaction, priors: seq<Interaction>, later: seq<Interaction>,
                               accepted: seq<EntityChange>, settled: seq<EntityChange>, revision: nat, s': Cache) {
    && r in s.pending
    && Ordered(Pick(s.log, r.predecessors)) == Some(priors)
    && Cascade(s.pending, r.commandId, later)
    && revision + 1 < |s.history| && IsDiff(s.history[revision], s.history[revision + 1], accepted)
    && Settles(r, priors, accepted, later, settled)
    && ApplyChanges(s.rows, settled).Some?
    && s' == s.(version := if revision == s.version then s.version + 1 else s.version,
                level := s.level && revision == s.version,
                base := ForceChanges(s.base, accepted),
                rows := ApplyChanges(s.rows, settled).value,
                pending := Drop(s.pending, {r.commandId}),
                log := s.log + [Confirm(r, accepted)],
                disturbed := s.disturbed + (set e | e in Keys(accepted) + Keys(r.changes)
                                                    && !SettlesAt(s, r, priors, accepted, e)),
                proof := Recording(s.proof, [settled]))
  }

  /** The ordinary reply disturbs nothing: a receipt that confirms the command's change of an entity
      as it was made settles cleanly there, whatever was acknowledged before it, exactly when nothing
      the command depends on is still pending there. */
  lemma ExactReceiptIsClean(s: Cache, r: Interaction, priors: seq<Interaction>, accepted: seq<EntityChange>,
                            e: EntityKey)
    requires Touches(r, e) && ChangeAt(accepted, e) == Some(ChangeOf(r, e))
    ensures SettlesAt(s, r, priors, accepted, e) <==> forall p | p in On(s.pending, e) :: p.commandId !in r.predecessors
  {
    ExactSettles(Lookup(s.base, e), ChangeOf(r, e), PriorRows(priors, e),
                 LinksOf(s.log, Drop(On(s.pending, e), {r.commandId}), e));
  }

  lemma SettledKeys(r: Interaction, priors: seq<Interaction>, accepted: seq<EntityChange>,
                    later: seq<Interaction>, settled: seq<EntityChange>, e: EntityKey)
    requires Settles(r, priors, accepted, later, settled) && UniqueKeys(accepted)
    ensures UniqueKeys(settled)
    ensures ChangeAt(accepted, e).None? ==> ChangeAt(settled, e).None?
    ensures ChangeAt(accepted, e).Some? ==>
              ChangeAt(settled, e).Some? &&
              Settlement(ChangeAt(r.changes, e), PriorRows(priors, e), ChangeAt(accepted, e).value,
                         ChangesOf(On(later, e), e))
              == ChangeAt(settled, e)
  {
    assert forall i | 0 <= i < |settled| :: settled[i].key == accepted[i].key;
    ChangeAtMember(accepted, e);
    ChangeAtMember(settled, e);
    match ChangeAt(accepted, e) {
      case Some(c) =>
        var i :| 0 <= i < |accepted| && accepted[i] == c;
        assert settled[i] in settled;
        ChangeAtUnique(settled, settled[i]);
      case None =>
        forall d | d in settled ensures d.key != e {
          var i :| 0 <= i < |settled| && settled[i] == d;
          assert accepted[i] in accepted;
        }
    }
  }

  lemma DirectDependent(pending: seq<Interaction>, root: string, x: Interaction)
    requires x in pending && Unsettled(x.state) && root in x.predecessors
    ensures DependsOn(pending, root, x.commandId)
  {
    assert ReachedIn(pending, root, root, 0);
    ReachedStep(pending, root, x, root);
  }

  /** Its dependents on the entity are exactly the other pending records there, in the same order. */
  lemma DependentsOn(s: Cache, r: Interaction, order: seq<Interaction>, e: EntityKey)
    requires Wellformed(s) && r in s.pending && Cascade(s.pending, r.commandId, order)
    requires var later := On(Drop(s.pending, {r.commandId}), e);
             Chained(later) && UniqueIds(later) && forall p | p in later :: r.commandId in p.predecessors
    ensures On(order, e) == On(Drop(s.pending, {r.commandId}), e)
  {
    var later := On(Drop(s.pending, {r.commandId}), e);
    forall x ensures x in On(order, e) <==> x in later {
      DependentMember(s, r, order, e, x);
    }
    OnUnique(order, e);
    OnTopological(order, e);
    UniqueSameMembers(later, On(order, e));
    ChainedOrder(later, On(order, e));
  }

  lemma DependentMember(s: Cache, r: Interaction, order: seq<Interaction>, e: EntityKey, x: Interaction)
    requires Wellformed(s) && r in s.pending && IsCascade(s.pending, r.commandId, order)
    requires forall p | p in On(Drop(s.pending, {r.commandId}), e) :: r.commandId in p.predecessors
    ensures x in On(order, e) <==> x in On(Drop(s.pending, {r.commandId}), e)
  {
    OnMembers(order, e);
    OnMembers(Drop(s.pending, {r.commandId}), e);
    DropMembers(s.pending, {r.commandId});
    if x in On(Drop(s.pending, {r.commandId}), e) {
      DirectDependent(s.pending, r.commandId, x);
    }
  }

  lemma AcceptedNow(log: seq<Interaction>, r: Interaction, p: Interaction, e: EntityKey)
    ensures AcceptedOn(log + [r], p, e) ==
            if r.commandId in p.predecessors && Touches(r, e) then AcceptedOn(log, p, e) + [ChangeOf(r, e)]
            else AcceptedOn(log, p, e)
    ensures On(Pick(log + [r], p.predecessors), e) ==
            if r.commandId in p.predecessors && Touches(r, e) then On(Pick(log, p.predecessors), e) + [r]
            else On(Pick(log, p.predecessors), e)
  {
    PickLast(log, r, p.predecessors);
    OnLast(Pick(log, p.predecessors), r, e);
    var was := On(Pick(log, p.predecessors), e);
    assert (was + [r])[..|was|] == was;
  }

  lemma LinksAcknowledged(log: seq<Interaction>, r: Interaction, ps: seq<Interaction>, e: EntityKey)
    requires Touches(r, e) && forall p | p in ps :: r.commandId in p.predecessors
    ensures LinksOf(log + [r], ps, e) == Acknowledged(LinksOf(log, ps, e), ChangeOf(r, e))
  {
    if ps != [] {
      var init, p := ps[..|ps| - 1], ps[|ps| - 1];
      LinksAcknowledged(log, r, init, e);
      assert p in ps;
      AcceptedNow(log, r, p, e);
      var links := LinksOf(log, init, e);
      assert (links + [LinkOf(log, p, e)])[..|links|] == links;
    }
  }

  /** The entity's cached row before and after an acknowledgement. */
  lemma AcknowledgedAt(rows: Workspace, r: Interaction, priors: seq<Interaction>, order: seq<Interaction>,
                       accepted: seq<EntityChange>, settled: seq<EntityChange>, e: EntityKey)
    requires UniqueKeys(accepted) && Settles(r, priors, accepted, order, settled) && ApplyChanges(rows, settled).Some?
    ensures ChangeAt(accepted, e).None? ==> Lookup(ApplyChanges(rows, settled).value, e) == Lookup(rows, e)
    ensures ChangeAt(accepted, e).Some? ==>
              && ChangeAt(settled, e).Some?
              && Settlement(ChangeAt(r.changes, e), PriorRows(priors, e), ChangeAt(accepted, e).value,
                            ChangesOf(On(order, e), e))
                 == ChangeAt(settled, e)
              && PatchRow(Lookup(rows, e), ChangeAt(settled, e).value, true)
                 == Patched(Lookup(ApplyChanges(rows, settled).value, e))
  {
    SettledKeys(r, priors, accepted, order, settled, e);
    var patch := ChangeAt(settled, e);
    AppliedAt(rows, settled, e);
    if ChangeAt(accepted, e).Some? {
      assert patch.Some?;
    }
  }

  lemma LinksSplit(log: seq<Interaction>, r: Interaction, later: seq<Interaction>, e: EntityKey)
    ensures LinksOf(log, [r] + later, e) == [LinkOf(log, r, e)] + LinksOf(log, later, e)
    ensures Changes(LinksOf(log, later, e)) == ChangesOf(later, e)
  {
    LinksConcat(log, [r], later, e);
    assert [r][..0] == [];
    LinksChanges(log, later, e);
  }

  lemma AcknowledgedRow(s: Cache, r: Interaction, priors: seq<Interaction>, order: seq<Interaction>,
                        accepted: seq<EntityChange>, settled: seq<EntityChange>, e: EntityKey)
    requires Wellformed(s) && EntitySound(s, e)
    requires r in s.pending
    requires Cascade(s.pending, r.commandId, order)
    requires UniqueKeys(accepted) && Settles(r, priors, accepted, order, settled) && ApplyChanges(s.rows, settled).Some?
    requires Touches(r, e) && ChangeAt(accepted, e).Some? && SettlesAt(s, r, priors, accepted, e)
    ensures RowSound(Lookup(ForceChanges(s.base, accepted), e), Lookup(ApplyChanges(s.rows, settled).value, e),
                     Acknowledged(LinksOf(s.log, On(Drop(s.pending, {r.commandId}), e), e),
                                  ChangeAt(accepted, e).value))
  {
    var c := ChangeAt(accepted, e).value;
    var later := On(Drop(s.pending, {r.commandId}), e);
    OldestOn(s.pending, r, e);
    DependentsOn(s, r, order, e);
    LinksSplit(s.log, r, later, e);
    AcknowledgedAt(s.rows, r, priors, order, accepted, settled, e);
    ForceByKey(s.base, accepted, e);
    RowSettle(Lookup(s.base, e), Lookup(s.rows, e), LinkOf(s.log, r, e), PriorRows(priors, e), c,
              LinksOf(s.log, later, e));
  }

  lemma AcknowledgedChains(s: Cache, r: Interaction, priors: seq<Interaction>, order: seq<Interaction>,
                           accepted: seq<EntityChange>, settled: seq<EntityChange>, revision: nat, s': Cache,
                             e: EntityKey)
    requires Inv(s) && Acknowledges(s, r, priors, order, accepted, settled, revision, s') && e !in s.disturbed
    requires Touches(r, e) && ChangeAt(accepted, e).Some? && SettlesAt(s, r, priors, accepted, e)
    ensures var later := On(s'.pending, e);
            && LinksOf(s'.log, later, e) == Acknowledged(LinksOf(s.log, later, e), ChangeAt(accepted, e).value)
            && Lined(s'.log, later, e)
  {
    var done := Confirm(r, accepted);
    assert EntitySound(s, e);
    OldestOn(s.pending, r, e);
    var later := On(s'.pending, e);
    LinksAcknowledged(s.log, done, later, e);
    LinedAcknowledged(s.log, r, done, later, e);
  }

  lemma ReceiptLined(log: seq<Interaction>, p: Interaction, done: Interaction, e: EntityKey)
    requires Touches(done, e) && done.commandId in p.predecessors && Chained(On(Pick(log, p.predecessors), e))
    requires Shares(log, p, done, e)
    ensures Chained(On(Pick(log + [done], p.predecessors), e))
  {
    AcceptedNow(log, done, p, e);
    ChainedLast(On(Pick(log, p.predecessors), e), done);
  }

  lemma ReceiptNested(log: seq<Interaction>, done: Interaction, first: Interaction, p: Interaction, e: EntityKey)
    requires Shares(log, p, first, e) && done.commandId in first.predecessors
    ensures Shares(log + [done], p, first, e)
  {
    AcceptedNow(log, done, p, e);
  }

  lemma NestedAt(log: seq<Interaction>, ps: seq<Interaction>, i: nat, j: nat, e: EntityKey)
    requires Lined(log, ps, e) && i < j < |ps|
    ensures Shares(log, ps[j], ps[i], e)
    ensures ps[i].commandId in ps[j].predecessors && Chained(On(Pick(log, ps[j].predecessors), e))
  {
    assert ps[j] in ps;
  }

  lemma LaterLined(log: seq<Interaction>, r: Interaction, done: Interaction, later: seq<Interaction>, j: nat,
                   e: EntityKey)
    requires Lined(log, [r] + later, e) && Touches(done, e) && j < |later|
    requires done.commandId == r.commandId && done.predecessors == r.predecessors
    ensures Chained(On(Pick(log + [done], later[j].predecessors), e)) && done.commandId in later[j].predecessors
  {
    var ps := [r] + later;
    assert ps[0] == r && ps[j + 1] == later[j];
    NestedAt(log, ps, 0, j + 1, e);
    assert Shares(log, later[j], done, e);
    ReceiptLined(log, later[j], done, e);
  }

  lemma LaterShares(log: seq<Interaction>, r: Interaction, done: Interaction, later: seq<Interaction>, i: nat,
                    j: nat, e: EntityKey)
    requires Lined(log, [r] + later, e) && i < j < |later| && done.commandId in later[i].predecessors
    ensures Shares(log + [done], later[j], later[i], e)
  {
    var ps := [r] + later;
    assert ps[i + 1] == later[i] && ps[j + 1] == later[j];
    NestedAt(log, ps, i + 1, j + 1, e);
    ReceiptNested(log, done, later[i], later[j], e);
  }

  lemma LinedAcknowledged(log: seq<Interaction>, r: Interaction, done: Interaction, later: seq<Interaction>,
                          e: EntityKey)
    requires Lined(log, [r] + later, e) && Chained(later) && Touches(done, e)
    requires done.commandId == r.commandId && done.predecessors == r.predecessors
    ensures Lined(log + [done], later, e)
  {
    forall j | 0 <= j < |later|
      ensures Chained(On(Pick(log + [done], later[j].predecessors), e)) && done.commandId in later[j].predecessors
    {
      LaterLined(log, r, done, later, j, e);
    }
    forall i, j | 0 <= i < j < |later| ensures Shares(log + [done], later[j], later[i], e) {
      LaterShares(log, r, done, later, i, j, e);
    }
    forall p | p in later ensures Chained(On(Pick(log + [done], p.predecessors), e)) {
      var j :| 0 <= j < |later| && later[j] == p;
    }
  }

  lemma ChainedLast(ps: seq<Interaction>, r: Interaction)
    requires Chained(ps) && forall p | p in ps :: p.commandId in r.predecessors
    ensures Chained(ps + [r])
  {
    forall i, j | 0 <= i < j < |ps + [r]| ensures (ps + [r])[i].commandId in (ps + [r])[j].predecessors {
      assert (ps + [r])[i] == ps[i] && ps[i] in ps;
    }
  }

  lemma LinedFrame(log: seq<Interaction>, log': seq<Interaction>, ps: seq<Interaction>, e: EntityKey)
    requires Lined(log, ps, e)
    requires forall p | p in ps :: On(Pick(log', p.predecessors), e) == On(Pick(log, p.predecessors), e)
    ensures Lined(log', ps, e)
  {
    assert forall i | 0 <= i < |ps| :: ps[i] in ps;
  }

  /** An entity that neither side changed. */
  lemma AcknowledgeUntouched(s: Cache, r: Interaction, done: Interaction, s': Cache, e: EntityKey)
    requires UniqueIds(s.pending) && EntitySound(s, e) && r in s.pending && !Touches(r, e) && !Touches(done, e)
    requires s'.pending == Drop(s.pending, {r.commandId}) && s'.log == s.log + [done]
    requires Lookup(s'.base, e) == Lookup(s.base, e) && Lookup(s'.rows, e) == Lookup(s.rows, e)
    ensures EntitySound(s', e)
  {
    var ps := On(s.pending, e);
    DropUntouched(s.pending, r, e);
    forall p | p in ps
      ensures AcceptedOn(s.log, p, e) == AcceptedOn(s'.log, p, e)
      ensures On(Pick(s'.log, p.predecessors), e) == On(Pick(s.log, p.predecessors), e)
    {
      AcceptedNow(s.log, done, p, e);
    }
    LinksFrame(s.log, s'.log, ps, e);
    LinedFrame(s.log, s'.log, ps, e);
  }

  /** An entity that only the server changed, with nothing pending on it. */
  lemma AcknowledgeForeign(s: Cache, r: Interaction, priors: seq<Interaction>, order: seq<Interaction>,
                           accepted: seq<EntityChange>, settled: seq<EntityChange>, e: EntityKey)
    requires UniqueIds(s.pending) && EntitySound(s, e) && r in s.pending && !Touches(r, e)
    requires IsCascade(s.pending, r.commandId, order) && On(s.pending, e) == []
    requires UniqueKeys(accepted) && Settles(r, priors, accepted, order, settled) && ApplyChanges(s.rows, settled).Some?
    requires ChangeAt(accepted, e).Some?
    ensures Lookup(ApplyChanges(s.rows, settled).value, e) == Lookup(ForceChanges(s.base, accepted), e)
    ensures On(Drop(s.pending, {r.commandId}), e) == []
  {
    NothingOn(s.pending, r.commandId, order, e);
    ForeignAt(s.rows, s.base, r, priors, order, accepted, settled, e);
    DropUntouched(s.pending, r, e);
  }

  lemma NothingOn(pending: seq<Interaction>, root: string, order: seq<Interaction>, e: EntityKey)
    requires IsCascade(pending, root, order) && On(pending, e) == []
    ensures On(order, e) == []
  {
    OnMembers(pending, e);
    forall x | x in order ensures !Touches(x, e) {
      assert x !in On(pending, e);
    }
    NoneOn(order, e);
  }

  lemma ForeignAt(rows: Workspace, base: Workspace, r: Interaction, priors: seq<Interaction>, order: seq<Interaction>,
                  accepted: seq<EntityChange>, settled: seq<EntityChange>, e: EntityKey)
    requires UniqueKeys(accepted) && Settles(r, priors, accepted, order, settled) && ApplyChanges(rows, settled).Some?
    requires ChangeAt(accepted, e).Some? && !Touches(r, e) && On(order, e) == [] && Lookup(rows, e) == Lookup(base, e)
    ensures Lookup(ApplyChanges(rows, settled).value, e) == Lookup(ForceChanges(base, accepted), e)
  {
    var c := ChangeAt(accepted, e).value;
    SettleForeign(PriorRows(priors, e), c);
    AcknowledgedAt(rows, r, priors, order, accepted, settled, e);
    ForceByKey(base, accepted, e);
    assert ChangeAt(settled, e) == Some(c);
    assert PatchRow(Lookup(rows, e), c, true).row == Force(Lookup(rows, e), c);
  }

  lemma AcknowledgeBase(s: Cache, r: Interaction, priors: seq<Interaction>, order: seq<Interaction>,
                        accepted: seq<EntityChange>, settled: seq<EntityChange>, revision: nat, s': Cache)
    requires Inv(s) && Acknowledges(s, r, priors, order, accepted, settled, revision, s')
    ensures s'.level ==> s'.base == s'.history[s'.version]
  {
    if s'.level {
      var next := s.history[revision + 1];
      DiffRoundTrip(s.base, next, accepted);
      forall e ensures Lookup(s'.base, e) == Lookup(next, e) {
        ForceByKey(s.base, accepted, e);
        AppliedAt(s.base, accepted, e);
      }
      WorkspacesEqual(s'.base, next);
    }
  }

  lemma AcknowledgeInv(s: Cache, r: Interaction, priors: seq<Interaction>, order: seq<Interaction>,
                       accepted: seq<EntityChange>, settled: seq<EntityChange>, revision: nat, s': Cache)
    requires Inv(s) && Acknowledges(s, r, priors, order, accepted, settled, revision, s')
    ensures Inv(s')
  {
    var done := Confirm(r, accepted);
    AcknowledgeBase(s, r, priors, order, accepted, settled, revision, s');
    DropMembers(s.pending, {r.commandId});
    ConfirmedWellformed(s, r, accepted);
    forall e | e !in s'.disturbed ensures EntitySound(s', e) {
      ChangeAtMember(accepted, e);
      ChangeAtMember(r.changes, e);
      if Touches(r, e) || ChangeAt(accepted, e).Some? {
        assert e in Keys(accepted) + Keys(r.changes);
      }
      if Touches(r, e) {
        AcknowledgedRow(s, r, priors, order, accepted, settled, e);
        AcknowledgedChains(s, r, priors, order, accepted, settled, revision, s', e);
      } else {
        AcknowledgedAt(s.rows, r, priors, order, accepted, settled, e);
        ForceByKey(s.base, accepted, e);
        if ChangeAt(accepted, e).Some? {
          AcknowledgeForeign(s, r, priors, order, accepted, settled, e);
        } else {
          AcknowledgeUntouched(s, r, done, s', e);
        }
      }
    }
  }

  lemma AcyclicDrop(pending: seq<Interaction>, ids: set<string>)
    requires Acyclic(pending)
    ensures Acyclic(Drop(pending, ids))
  {
    DropMembers(pending, ids);
    forall x | x in Drop(pending, ids) ensures LinkedIn(x, pending) {
      assert Ties(x) == Ties(x);
    }
    AcyclicAlike(Drop(pending, ids), pending);
  }

  lemma ConfirmedWellformed(s: Cache, r: Interaction, accepted: seq<EntityChange>)
    requires Wellformed(s) && r in s.pending && UniqueKeys(accepted)
    ensures Wellformed(s.(pending := Drop(s.pending, {r.commandId}), log := s.log + [Confirm(r, accepted)]))
  {
    var done := Confirm(r, accepted);
    var pending, log := Drop(s.pending, {r.commandId}), s.log + [done];
    DropMembers(s.pending, {r.commandId});
    assert r.commandId in Ids(s.pending);
    AcyclicDrop(s.pending, {r.commandId});
    forall i, j | 0 <= i < j < |log| ensures log[i].commandId != log[j].commandId {
      if j == |s.log| {
        assert s.log[i] in s.log;
      }
    }
    forall id | id in Ids(pending) ensures id !in Ids(log) {
      var p :| p in pending && p.commandId == id;
      assert id in Ids(s.pending);
    }
  }

  /** A command that changed nothing locally is confirmed without a delta: the checkpoint stays. */
  ghost predicate ConfirmsEmpty(s: Cache, r: Interaction, s': Cache) {
    && r in s.pending && r.changes == []
    && s' == s.(pending := Drop(s.pending, {r.commandId}), log := s.log + [Confirm(r, [])])
  }

  lemma ConfirmEmptyInv(s: Cache, r: Interaction, s': Cache)
    requires Inv(s) && ConfirmsEmpty(s, r, s')
    ensures Inv(s')
  {
    ConfirmedWellformed(s, r, []);
    forall e | e !in s'.disturbed ensures EntitySound(s', e) {
      AcknowledgeUntouched(s, r, Confirm(r, []), s', e);
    }
  }

  // ---------------------------------------------------------------------------------------
  // Rejection
  // ---------------------------------------------------------------------------------------

  /** The inverse of a record's changes, restored to its confirmed predecessors' receipts. */
  function ReversalOf(log: seq<Interaction>, p: Interaction): Option<seq<EntityChange>> {
    match Ordered(Pick(log, p.predecessors))
    case None => None
    case Some(parents) =>
      Some(seq(|p.changes|, i requires 0 <= i < |p.changes| =>
        Rollback(p.changes[i], ChangesOf(On(parents, p.changes[i].key), p.changes[i].key))))
  }

  /** One transaction: the inverses of the steps, newest first, or nothing. */
  function UnwindAll(log: seq<Interaction>, w: Workspace, steps: seq<Interaction>): Option<Workspace>
    decreases |steps|
  {
    if steps == [] then Some(w)
    else match ReversalOf(log, steps[|steps| - 1])
         case None => None
         case Some(cs) =>
           match ApplyChanges(w, cs)
           case None => None
           case Some(w1) => UnwindAll(log, w1, steps[..|steps| - 1])
  }

  /** On the entity the receipts below the withdrawn changes agree with the changes that stay. */
  ghost predicate WithdrawsAt(s: Cache, ids: set<string>, steps: seq<Interaction>, e: EntityKey) {
    WithdrawsExactly(Lookup(s.base, e), LinksOf(s.log, On(Drop(s.pending, ids), e), e), LinksOf(s.log, On(steps, e), e))
  }

  /** The deltas that a rejection writes, in the order in which it writes them. */
  function Reversals(log: seq<Interaction>, steps: seq<Interaction>): seq<seq<EntityChange>> {
    if steps == [] then []
    else [if ReversalOf(log, steps[|steps| - 1]).Some? then ReversalOf(log, steps[|steps| - 1]).value else []]
         + Reversals(log, steps[..|steps| - 1])
  }

  ghost function KeysOf(rs: seq<Interaction>): set<EntityKey> {
    set r, c | r in rs && c in r.changes :: c.key
  }

  /** The rejected record and its transitive dependents are withdrawn together. */
  ghost predicate Rejects(s: Cache, root: Interaction, order: seq<Interaction>, s': Cache) {
    && root in s.pending && Cascade(s.pending, root.commandId, order)
    && UnwindAll(s.log, s.rows, [root] + order).Some?
    && var ids := Ids([root] + order);
       s' == s.(rows := UnwindAll(s.log, s.rows, [root] + order).value,
                pending := Drop(s.pending, ids),
                disturbed := s.disturbed + (set e | e in KeysOf([root] + order)
                                            && !WithdrawsAt(s, ids, [root] + order, e)),
                proof := Recording(s.proof, Reversals(s.log, [root] + order)))
  }

  lemma ReversalAt(log: seq<Interaction>, p: Interaction, e: EntityKey)
    requires UniqueIds(log) && UniqueKeys(p.changes) && ReversalOf(log, p).Some?
    requires Touches(p, e) ==> Chained(On(Pick(log, p.predecessors), e))
    ensures UniqueKeys(ReversalOf(log, p).value)
    ensures ChangeAt(ReversalOf(log, p).value, e) ==
            if Touches(p, e) then Some(Rollback(ChangeOf(p, e), AcceptedOn(log, p, e))) else None
  {
    var cs := ReversalOf(log, p).value;
    var parents := Ordered(Pick(log, p.predecessors)).value;
    assert forall i | 0 <= i < |cs| :: cs[i].key == p.changes[i].key;
    ChangeAtMember(p.changes, e);
    ChangeAtMember(cs, e);
    if Touches(p, e) {
      var i :| 0 <= i < |p.changes| && p.changes[i] == ChangeAt(p.changes, e).value;
      assert cs[i] in cs;
      ChangeAtUnique(cs, cs[i]);
      PickMembers(log, p.predecessors);
      OrderedOn(Pick(log, p.predecessors), e);
    } else {
      forall d | d in cs ensures d.key != e {
        var i :| 0 <= i < |cs| && cs[i] == d;
        assert p.changes[i] in p.changes;
      }
    }
  }

  lemma InversesLast(log: seq<Interaction>, ps: seq<Interaction>, p: Interaction, e: EntityKey)
    ensures Inverses(LinksOf(log, ps + [p], e)) ==
            Inverses(LinksOf(log, ps, e)) + [Rollback(ChangeOf(p, e), AcceptedOn(log, p, e))]
  {
    LinksLast(log, ps, p, e);
    var links := LinksOf(log, ps, e);
    assert (links + [LinkOf(log, p, e)])[..|links|] == links;
  }

  lemma UnwindLast(row: Option<Row>, inverses: seq<EntityChange>, last: EntityChange)
    ensures Unwind(row, inverses + [last]) ==
            if PatchRow(row, last, true).Patched? then Unwind(PatchRow(row, last, true).row, inverses) else None
  {
    assert (inverses + [last])[..|inverses|] == inverses;
  }

  /** One step of the transaction, seen from one entity. */
  lemma UnwindStepAt(log: seq<Interaction>, w: Workspace, init: seq<Interaction>, last: Interaction, w1: Workspace,
                     e: EntityKey)
    requires UniqueIds(log) && UniqueKeys(last.changes) && ReversalOf(log, last).Some?
    requires ApplyChanges(w, ReversalOf(log, last).value) == Some(w1)
    requires Touches(last, e) ==> Chained(On(Pick(log, last.predecessors), e))
    ensures Unwind(Lookup(w, e), Inverses(LinksOf(log, On(init + [last], e), e)))
            == Unwind(Lookup(w1, e), Inverses(LinksOf(log, On(init, e), e)))
  {
    ReversalAt(log, last, e);
    AppliedAt(w, ReversalOf(log, last).value, e);
    OnLast(init, last, e);
    if Touches(last, e) {
      InversesLast(log, On(init, e), last, e);
      UnwindLast(Lookup(w, e), Inverses(LinksOf(log, On(init, e), e)),
                 Rollback(ChangeOf(last, e), AcceptedOn(log, last, e)));
    }
  }

  ghost predicate Reversible(log: seq<Interaction>, p: Interaction, e: EntityKey) {
    UniqueKeys(p.changes) && (Touches(p, e) ==> Chained(On(Pick(log, p.predecessors), e)))
  }

  lemma UnwindAllLast(log: seq<Interaction>, w: Workspace, init: seq<Interaction>, last: Interaction)
    returns (w1: Workspace)
    requires UnwindAll(log, w, init + [last]).Some?
    ensures ReversalOf(log, last).Some? && ApplyChanges(w, ReversalOf(log, last).value) == Some(w1)
    ensures UnwindAll(log, w, init + [last]) == UnwindAll(log, w1, init)
  {
    assert (init + [last])[..|init|] == init;
    w1 := ApplyChanges(w, ReversalOf(log, last).value).value;
  }

  /** The transaction seen from one entity. */
  lemma {:induction false} UnwindAllAt(log: seq<Interaction>, w: Workspace, steps: seq<Interaction>, e: EntityKey)
    requires UniqueIds(log) && UnwindAll(log, w, steps).Some?
    requires forall p | p in steps :: Reversible(log, p, e)
    ensures Unwind(Lookup(w, e), Inverses(LinksOf(log, On(steps, e), e)))
            == Some(Lookup(UnwindAll(log, w, steps).value, e))
    decreases |steps|
  {
    if steps != [] {
      var init, last := steps[..|steps| - 1], steps[|steps| - 1];
      assert steps == init + [last];
      assert Reversible(log, last, e);
      var w1 := UnwindAllLast(log, w, init, last);
      UnwindStepAt(log, w, init, last, w1, e);
      UnwindAllAt(log, w1, init, e);
    }
  }

  /** An undisturbed entity stays sound exactly when the withdrawal meets its guard there. */
  lemma RejectEntity(s: Cache, root: Interaction, order: seq<Interaction>, s': Cache, e: EntityKey)
    requires Inv(s) && Rejects(s, root, order, s') && e !in s.disturbed
    ensures Lined(s'.log, On(s'.pending, e), e)
    ensures RowSound(Lookup(s'.base, e), Lookup(s'.rows, e), LinksOf(s'.log, On(s'.pending, e), e))
            <==> WithdrawsAt(s, Ids([root] + order), [root] + order, e)
    ensures Lookup(s'.rows, e) == Under(Lookup(s'.base, e), LinksOf(s'.log, On(s'.pending, e), e))
            <==> WithdrawsAt(s, Ids([root] + order), [root] + order, e)
  {
    var steps := [root] + order;
    var kept := On(s'.pending, e);
    assert EntitySound(s, e);
    CascadeTopological(s.pending, root, order);
    CascadeSuffix(s.pending, root, order, e);
    LinksConcat(s.log, kept, On(steps, e), e);
    RejectRows(s, root, order, e);
    RowWithdraw(Lookup(s.base, e), Lookup(s.rows, e), LinksOf(s.log, kept, e), LinksOf(s.log, On(steps, e), e));
    LinedSplit(s.log, kept, On(steps, e), e);
  }

  lemma LinedSplit(log: seq<Interaction>, kept: seq<Interaction>, gone: seq<Interaction>, e: EntityKey)
    requires Lined(log, kept + gone, e)
    ensures Lined(log, kept, e)
  {
    var ps := kept + gone;
    assert forall i | 0 <= i < |kept| :: kept[i] == ps[i];
    forall p | p in kept ensures p in ps {}
  }

  lemma RejectRows(s: Cache, root: Interaction, order: seq<Interaction>, e: EntityKey)
    requires Inv(s) && root in s.pending && Cascade(s.pending, root.commandId, order) && e !in s.disturbed
    requires UnwindAll(s.log, s.rows, [root] + order).Some?
    ensures Unwind(Lookup(s.rows, e), Inverses(LinksOf(s.log, On([root] + order, e), e)))
            == Some(Lookup(UnwindAll(s.log, s.rows, [root] + order).value, e))
  {
    var steps := [root] + order;
    assert EntitySound(s, e);
    OnMembers(s.pending, e);
    forall p | p in steps ensures Reversible(s.log, p, e) {
      assert p in s.pending;
      if Touches(p, e) {
        assert p in On(s.pending, e);
      }
    }
    UnwindAllAt(s.log, s.rows, steps, e);
  }

  lemma WithdrawsHere(s: Cache, root: Interaction, order: seq<Interaction>, s': Cache, e: EntityKey)
    requires Rejects(s, root, order, s') && e !in s'.disturbed
    ensures WithdrawsAt(s, Ids([root] + order), [root] + order, e)
  {
    var steps := [root] + order;
    if e !in KeysOf(steps) {
      forall x | x in steps ensures !Touches(x, e) {
        ChangeAtMember(x.changes, e);
      }
      NoneOn(steps, e);
    }
  }

  lemma RejectInv(s: Cache, root: Interaction, order: seq<Interaction>, s': Cache)
    requires Inv(s) && Rejects(s, root, order, s')
    ensures Inv(s')
  {
    DropMembers(s.pending, Ids([root] + order));
    AcyclicDrop(s.pending, Ids([root] + order));
    forall id | id in Ids(s'.pending) ensures id in Ids(s.pending) {
      var p :| p in s'.pending && p.commandId == id;
    }
    forall e | e !in s'.disturbed ensures EntitySound(s', e) {
      WithdrawsHere(s, root, order, s', e);
      RejectEntity(s, root, order, s', e);
    }
  }

  // ---------------------------------------------------------------------------------------
  // Held records
  // ---------------------------------------------------------------------------------------

  function Marked(ps: seq<Interaction>, ids: set<string>, state: JournalState): (r: seq<Interaction>)
    ensures |r| == |ps|
    ensures forall i | 0 <= i < |ps| :: r[i] == if ps[i].commandId in ids then ps[i].(state := state) else ps[i]
  {
    seq(|ps|, i requires 0 <= i < |ps| => if ps[i].commandId in ids then ps[i].(state := state) else ps[i])
  }

  /** A receipt that cannot be projected, or a withdrawal that cannot be committed, keeps its records
      with that said in the journal, and changes nothing else. */
  ghost predicate Holds(s: Cache, ids: set<string>, state: JournalState, s': Cache) {
    && state in {ProjectionPending, RollbackPending}
    && s' == s.(pending := Marked(s.pending, ids, state))
  }

  lemma MarkedLast(init: seq<Interaction>, last: Interaction, ids: set<string>, state: JournalState)
    ensures Marked(init + [last], ids, state) ==
            Marked(init, ids, state) + [if last.commandId in ids then last.(state := state) else last]
  {}

  lemma {:induction false} MarkedOn(ps: seq<Interaction>, ids: set<string>, state: JournalState, e: EntityKey)
    ensures On(Marked(ps, ids, state), e) == Marked(On(ps, e), ids, state)
    decreases |ps|
  {
    if ps != [] {
      var init, last := ps[..|ps| - 1], ps[|ps| - 1];
      var marked := if last.commandId in ids then last.(state := state) else last;
      assert ps == init + [last];
      MarkedOn(init, ids, state, e);
      MarkedLast(init, last, ids, state);
      MarkedLast(On(init, e), last, ids, state);
      OnLast(init, last, e);
      OnLast(Marked(init, ids, state), marked, e);
    }
  }

  lemma {:induction false} MarkedLinks(log: seq<Interaction>, ps: seq<Interaction>, ids: set<string>,
                                       state: JournalState, e: EntityKey)
    ensures LinksOf(log, Marked(ps, ids, state), e) == LinksOf(log, ps, e)
    decreases |ps|
  {
    if ps != [] {
      MarkedLinks(log, ps[..|ps| - 1], ids, state, e);
      assert Marked(ps, ids, state)[..|ps| - 1] == Marked(ps[..|ps| - 1], ids, state);
    }
  }

  lemma MarkedIds(ps: seq<Interaction>, ids: set<string>, state: JournalState)
    ensures Ids(Marked(ps, ids, state)) == Ids(ps)
  {
    var marked := Marked(ps, ids, state);
    forall id ensures id in Ids(marked) <==> id in Ids(ps) {
      if id in Ids(marked) {
        var p :| p in marked && p.commandId == id;
        var i :| 0 <= i < |ps| && marked[i] == p;
        assert ps[i] in ps;
      }
      if id in Ids(ps) {
        var p :| p in ps && p.commandId == id;
        var i :| 0 <= i < |ps| && ps[i] == p;
        assert marked[i] in marked;
      }
    }
  }

  lemma MarkedLined(log: seq<Interaction>, ps: seq<Interaction>, ids: set<string>, state: JournalState, e: EntityKey)
    requires Lined(log, ps, e)
    ensures Lined(log, Marked(ps, ids, state), e)
  {
    var marked := Marked(ps, ids, state);
    forall p | p in marked ensures Chained(On(Pick(log, p.predecessors), e)) {
      var i :| 0 <= i < |ps| && marked[i] == p;
      assert ps[i] in ps;
    }
  }

  lemma HoldWellformed(s: Cache, ids: set<string>, state: JournalState, s': Cache)
    requires Wellformed(s) && Holds(s, ids, state, s')
    ensures Wellformed(s')
  {
    MarkedIds(s.pending, ids, state);
    forall p | p in s'.pending ensures LinkedIn(p, s.pending) {
      var i :| 0 <= i < |s.pending| && s'.pending[i] == p;
      assert s.pending[i] in s.pending && Ties(p) == Ties(s.pending[i]);
    }
    AcyclicAlike(s'.pending, s.pending);
    forall p | p in s'.pending ensures Unsettled(p.state) && UniqueKeys(p.changes) {
      var i :| 0 <= i < |s.pending| && s'.pending[i] == p;
      assert s.pending[i] in s.pending;
    }
  }

  lemma HoldInv(s: Cache, ids: set<string>, state: JournalState, s': Cache)
    requires Inv(s) && Holds(s, ids, state, s')
    ensures Inv(s')
  {
    HoldWellformed(s, ids, state, s');
    forall e | e !in s'.disturbed ensures EntitySound(s', e) {
      assert EntitySound(s, e);
      MarkedOn(s.pending, ids, state, e);
      MarkedLinks(s.log, On(s.pending, e), ids, state, e);
      MarkedLined(s.log, On(s.pending, e), ids, state, e);
    }
  }

  // ---------------------------------------------------------------------------------------
  // Recoveries, local edits, other writers
  // ---------------------------------------------------------------------------------------

  /** The recorded deltas lead from the recorded baseline to exactly this cache, and no withdrawal is
      unfinished. */
  predicate Proved(s: Cache) {
    && (forall p | p in s.pending :: p.state != RollbackPending)
    && s.proof.baseline.Some? && ProjectionProof.Recorded(s.proof.baseline.value, s.proof.deltas, s.rows)
  }

  /** A recovery may start from a proved cache, or from one that was cleared and not written since. */
  predicate Verified(s: Cache) {
    (s.proof.cleared && s.rows == map[]) || Proved(s)
  }

  ghost predicate Samples(s: Cache, s': Cache) {
    && Verified(s)
    && s' == s.(proof := s.proof.(sample := Some(Sample(s.rows, Ids(s.pending)))))
  }

  const COMPACT_AT := 64

  /** The proved cache becomes the baseline of a shorter proof. */
  ghost predicate Compacts(s: Cache, s': Cache) {
    && Proved(s) && |s.proof.deltas| >= COMPACT_AT
    && s' == s.(proof := s.proof.(baseline := Some(s.rows), deltas := []))
  }

  /** The user clears the cache; journal and mirror stay. */
  ghost predicate Clears(s: Cache, s': Cache) {
    s' == s.(rows := map[], disturbed := s.disturbed + s.rows.Keys + s.base.Keys + KeysOf(s.pending),
             proof := Proof(None, [], true, s.proof.sample))
  }

  lemma ClearInv(s: Cache, s': Cache)
    requires Inv(s) && Clears(s, s')
    ensures Inv(s')
  {
    forall e | e !in s'.disturbed ensures EntitySound(s', e) {
      assert EntitySound(s, e);
      forall p | p in s.pending ensures !Touches(p, e) {
        ChangeAtMember(p.changes, e);
      }
      NoneOn(s.pending, e);
    }
  }

  lemma ProofInv(s: Cache, s': Cache)
    requires Inv(s) && (Samples(s, s') || Compacts(s, s'))
    ensures Inv(s')
  {
    forall e | e !in s'.disturbed ensures EntitySound(s', e) {
      assert EntitySound(s, e);
    }
  }

  /** The authoritative snapshot replaces everything; the confirmed records join the log. */
  ghost predicate Resets(s: Cache, revision: nat, confirmed: seq<Interaction>, s': Cache) {
    && s.version <= revision < |s.history|
    && UniqueIds(s.log + confirmed) && (forall p | p in confirmed :: UniqueKeys(p.changes))
    && s' == s.(version := revision, level := true, base := s.history[revision], rows := s.history[revision],
                pending := [], log := s.log + confirmed, disturbed := {},
                proof := Proof(Some(s.history[revision]), [], false, None))
  }

  /** The retained commands are patched over it, oldest first. */
  ghost predicate Replays(s: Cache, kept: seq<Interaction>, s': Cache)
    decreases |kept|, 0
  {
    if kept == [] then s' == s
    else ReplaysThen(s, kept[..|kept| - 1], kept[|kept| - 1], s')
  }

  ghost predicate ReplaysThen(s: Cache, kept: seq<Interaction>, last: Interaction, s': Cache)
    decreases |kept|, 1
  {
    exists mid :: Replays(s, kept, mid) && Begins(mid, last, s')
  }

  /** Nothing that a recovery relied on has moved: the cache and the reserved commands are the ones it
      started from, and the snapshot includes every receipt that it found. */
  predicate Undisturbed(s: Cache, revision: nat, receipts: map<string, nat>, confirmed: seq<Interaction>) {
    && s.proof.sample == Some(Sample(s.rows, Ids(s.pending)))
    && forall c | c in confirmed :: c.commandId in receipts && receipts[c.commandId] <= revision
  }

  ghost predicate Installs(s: Cache, revision: nat, receipts: map<string, nat>, confirmed: seq<Interaction>,
                           kept: seq<Interaction>, s': Cache)
  {
    && Undisturbed(s, revision, receipts, confirmed)
    && Ids(kept) <= Ids(s.pending)
    && exists mid :: Resets(s, revision, confirmed, mid) && Replays(mid, kept, s')
  }

  lemma ResetInv(s: Cache, revision: nat, confirmed: seq<Interaction>, s': Cache)
    requires Inv(s) && Resets(s, revision, confirmed, s')
    ensures Inv(s')
  {
    forall e ensures EntitySound(s', e) {
      assert On(s'.pending, e) == [] && LinksOf(s'.log, [], e) == [];
    }
  }

  lemma ReplaySplit(s: Cache, kept: seq<Interaction>, s': Cache) returns (mid: Cache)
    requires kept != [] && Replays(s, kept, s')
    ensures Replays(s, kept[..|kept| - 1], mid) && Begins(mid, kept[|kept| - 1], s')
  {
    mid :| Replays(s, kept[..|kept| - 1], mid) && Begins(mid, kept[|kept| - 1], s');
  }

  lemma {:induction false} ReplayInv(s: Cache, kept: seq<Interaction>, s': Cache)
    requires Inv(s) && Replays(s, kept, s')
    ensures Inv(s')
    decreases |kept|
  {
    if kept != [] {
      var mid := ReplaySplit(s, kept, s');
      ReplayInv(s, kept[..|kept| - 1], mid);
      BeginInv(mid, kept[|kept| - 1], s');
    }
  }

  /** Something other than the command client writes the cached row. */
  ghost predicate Edits(s: Cache, e: EntityKey, row: Option<Row>, s': Cache) {
    s' == s.(rows := Store(s.rows, e, row), disturbed := s.disturbed + {e})
  }

  lemma EditInv(s: Cache, e: EntityKey, row: Option<Row>, s': Cache)
    requires Inv(s) && Edits(s, e, row, s')
    ensures Inv(s')
  {
    forall d | d !in s'.disturbed ensures EntitySound(s', d) {
      assert EntitySound(s, d) && Lookup(s'.rows, d) == Lookup(s.rows, d);
    }
  }

  /** The server commits something: one of these commands or any other writer. */
  ghost predicate Commits(s: Cache, w: Workspace, s': Cache) {
    s' == s.(history := s.history + [w])
  }

  lemma CommitInv(s: Cache, w: Workspace, s': Cache)
    requires Inv(s) && Commits(s, w, s')
    ensures Inv(s')
  {
    forall e | e !in s'.disturbed ensures EntitySound(s', e) {
      assert EntitySound(s, e);
    }
  }

  // ---------------------------------------------------------------------------------------
  // Runs
  // ---------------------------------------------------------------------------------------

  datatype Step =
    | BeginStep(r: Interaction)
    | AcknowledgeStep(r: Interaction, priors: seq<Interaction>, later: seq<Interaction>,
                      accepted: seq<EntityChange>, settled: seq<EntityChange>, revision: nat)
    | ConfirmEmptyStep(r: Interaction)
    | RejectStep(r: Interaction, later: seq<Interaction>)
    | HoldStep(ids: set<string>, state: JournalState)
    | SampleStep
    | CompactStep
    | ClearStep
    | InstallStep(revision: nat, receipts: map<string, nat>, confirmed: seq<Interaction>, kept: seq<Interaction>)
    | EditStep(e: EntityKey, row: Option<Row>)
    | CommitStep(w: Workspace)

  ghost predicate Next(s: Cache, step: Step, s': Cache) {
    match step
    case BeginStep(r) => Begins(s, r, s')
    case AcknowledgeStep(r, priors, later, accepted, settled, revision) =>
      Acknowledges(s, r, priors, later, accepted, settled, revision, s')
    case ConfirmEmptyStep(r) => ConfirmsEmpty(s, r, s')
    case RejectStep(r, later) => Rejects(s, r, later, s')
    case HoldStep(ids, state) => Holds(s, ids, state, s')
    case SampleStep => Samples(s, s')
    case CompactStep => Compacts(s, s')
    case ClearStep => Clears(s, s')
    case InstallStep(revision, receipts, confirmed, kept) => Installs(s, revision, receipts, confirmed, kept, s')
    case EditStep(e, row) => Edits(s, e, row, s')
    case CommitStep(w) => Commits(s, w, s')
  }

  /** The cache right after the first read of the account. */
  ghost predicate Initial(s: Cache) {
    && s.history != [] && s.version == |s.history| - 1 && s.level
    && s.base == s.rows == s.history[s.version]
    && s.pending == [] && s.log == [] && s.disturbed == {}
    && s.proof == Proof(Some(s.rows), [], false, None)
  }

  ghost predicate Run(states: seq<Cache>, steps: seq<Step>) {
    && |states| == |steps| + 1 && Initial(states[0])
    && forall i | 0 <= i < |steps| :: Next(states[i], steps[i], states[i + 1])
  }

  lemma NextInv(s: Cache, step: Step, s': Cache)
    requires Inv(s) && Next(s, step, s')
    ensures Inv(s')
  {
    match step
    case BeginStep(r) => BeginInv(s, r, s');
    case AcknowledgeStep(r, priors, later, accepted, settled, revision) =>
      AcknowledgeInv(s, r, priors, later, accepted, settled, revision, s');
    case ConfirmEmptyStep(r) => ConfirmEmptyInv(s, r, s');
    case RejectStep(r, later) => RejectInv(s, r, later, s');
    case HoldStep(ids, state) => HoldInv(s, ids, state, s');
    case SampleStep => ProofInv(s, s');
    case CompactStep => ProofInv(s, s');
    case ClearStep => ClearInv(s, s');
    case InstallStep(revision, receipts, confirmed, kept) =>
      var mid :| Resets(s, revision, confirmed, mid) && Replays(mid, kept, s');
      ResetInv(s, revision, confirmed, mid);
      ReplayInv(mid, kept, s');
    case EditStep(e, row) => EditInv(s, e, row, s');
    case CommitStep(w) => CommitInv(s, w, s');
  }

  lemma {:induction false} RunInv(states: seq<Cache>, steps: seq<Step>, n: nat)
    requires Run(states, steps) && n <= |steps|
    ensures Inv(states[n])
    decreases n
  {
    if n == 0 {
      forall e ensures EntitySound(states[0], e) {
        assert On(states[0].pending, e) == [] && LinksOf(states[0].log, [], e) == [];
      }
    } else {
      RunInv(states, steps, n - 1);
      NextInv(states[n - 1], steps[n - 1], states[n]);
    }
  }

  /** In every state of every run, an undisturbed cached row is the last incorporated authoritative
      row with the unsettled changes applied in order. */
  lemma CacheIsBaseUnderPending(states: seq<Cache>, steps: seq<Step>, n: nat, e: EntityKey)
    requires Run(states, steps) && n <= |steps| && e !in states[n].disturbed
    ensures var s := states[n];
            Lookup(s.rows, e) == Fold(Lookup(s.base, e), ChangesOf(On(s.pending, e), e))
  {
    var s := states[n];
    RunInv(states, steps, n);
    assert EntitySound(s, e);
    LinksChanges(s.log, On(s.pending, e), e);
  }

  /** Once the outbox is empty and the client has read the current revision, the cache is the
      server's snapshot. */
  lemma ConvergesWhenDrained(states: seq<Cache>, steps: seq<Step>, n: nat)
    requires Run(states, steps) && n <= |steps|
    requires var s := states[n]; s.pending == [] && s.disturbed == {} && s.level && s.version == |s.history| - 1
    ensures states[n].rows == states[n].history[|states[n].history| - 1]
  {
    var s := states[n];
    RunInv(states, steps, n);
    forall e ensures Lookup(s.rows, e) == Lookup(s.base, e) {
      CacheIsBaseUnderPending(states, steps, n, e);
      assert On(s.pending, e) == [];
    }
    WorkspacesEqual(s.rows, s.base);
  }

  /** After a rejection an entity that was undisturbed holds its authoritative value under exactly the
      retained commands, if and only if the receipts below the oldest withdrawn changes agree with
      it; exactly the root and its dependents are gone. */
  lemma RejectionRestores(states: seq<Cache>, steps: seq<Step>, n: nat, e: EntityKey)
    requires Run(states, steps) && n < |steps| && steps[n].RejectStep? && e !in states[n].disturbed
    ensures var s, s' := states[n], states[n + 1];
            var withdrawn := [steps[n].r] + steps[n].later;
            && s'.base == s.base && s'.pending == Drop(s.pending, Ids(withdrawn))
            && (forall p | p in s.pending :: p in s'.pending <==> p.commandId !in Ids(withdrawn))
            && (Lookup(s'.rows, e) == Fold(Lookup(s.base, e), ChangesOf(On(s'.pending, e), e))
                <==> WithdrawsAt(s, Ids(withdrawn), withdrawn, e))
            && (WithdrawsAt(s, Ids(withdrawn), withdrawn, e) && (forall p | p in s'.pending :: !Touches(p, e)) ==>
                  Lookup(s'.rows, e) == Lookup(s.base, e))
  {
    var s, s' := states[n], states[n + 1];
    assert Next(s, steps[n], s');
    RunInv(states, steps, n);
    DropMembers(s.pending, Ids([steps[n].r] + steps[n].later));
    RejectEntity(s, steps[n].r, steps[n].later, s', e);
    LinksChanges(s'.log, On(s'.pending, e), e);
    if forall p | p in s'.pending :: !Touches(p, e) {
      NoneOn(s'.pending, e);
    }
  }

  /** After a replay each cached row is the row it started from with exactly the retained changes
      patched over it in order, every one of them under its check. */
  lemma FoldsOneMore(row: Option<Row>, init: seq<Interaction>, last: Interaction, mid: Cache, s': Cache, e: EntityKey)
    requires Rebuild(row, ChangesOf(On(init, e), e)) == Some(Lookup(mid.rows, e)) && Begins(mid, last, s')
    ensures Rebuild(row, ChangesOf(On(init + [last], e), e)) == Some(Lookup(s'.rows, e))
  {
    BeginRows(mid, last, s', e);
    RebuildLast(row, init, last, e);
  }

  lemma {:induction false} ReplayFolds(s: Cache, kept: seq<Interaction>, s': Cache, e: EntityKey)
    requires Replays(s, kept, s')
    ensures Rebuild(Lookup(s.rows, e), ChangesOf(On(kept, e), e)) == Some(Lookup(s'.rows, e))
    decreases |kept|
  {
    if kept != [] {
      var init, last := kept[..|kept| - 1], kept[|kept| - 1];
      var mid := ReplaySplit(s, kept, s');
      ReplayFolds(s, init, mid, e);
      assert kept == init + [last];
      FoldsOneMore(Lookup(s.rows, e), init, last, mid, s', e);
    }
  }

  lemma BeginRows(s: Cache, r: Interaction, s': Cache, e: EntityKey)
    requires Begins(s, r, s')
    ensures if Touches(r, e) then PatchRow(Lookup(s.rows, e), ChangeOf(r, e), true) == Patched(Lookup(s'.rows, e))
            else Lookup(s'.rows, e) == Lookup(s.rows, e)
  {
    AppliedAt(s.rows, r.changes, e);
  }

  lemma RebuildLast(row: Option<Row>, init: seq<Interaction>, last: Interaction, e: EntityKey)
    requires Rebuild(row, ChangesOf(On(init, e), e)).Some?
    ensures var below := Rebuild(row, ChangesOf(On(init, e), e)).value;
            Rebuild(row, ChangesOf(On(init + [last], e), e)) ==
            if !Touches(last, e) then Some(below)
            else if PatchRow(below, ChangeOf(last, e), true).Patched?
              then Some(PatchRow(below, ChangeOf(last, e), true).row)
            else None
  {
    OnLast(init, last, e);
    var was := On(init, e);
    assert (was + [last])[..|was|] == was;
    var cs := ChangesOf(was, e);
    assert (cs + [ChangeOf(last, e)])[..|cs|] == cs;
  }

  lemma UnclearedRow(u: Cache, e: EntityKey)
    requires Inv(u) && u.level && e !in u.disturbed
    ensures u.base == u.history[u.version]
            && Lookup(u.rows, e) == Fold(Lookup(u.base, e), ChangesOf(On(u.pending, e), e))
  {
    assert EntitySound(u, e);
    LinksChanges(u.log, On(u.pending, e), e);
  }
}
