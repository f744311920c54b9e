/**
 The client that keeps the optimistic cache: an object whose methods patch the stored rows and the
 journal in place, one transaction at a time. Each method takes exactly one step of the optimistic
 cache or leaves everything as it was, so every run of the object is a run of that machine.
 */
module InstantClient {
  import opened Wrappers
  import opened WorkspaceDelta
  import opened Interactions
  import opened InteractionOrder
  import opened RowChain
  import opened CacheRow
  import opened JournalViews
  import opened OptimisticCache
  import opened RecoveryPlan
  import ProjectionProof

  predicate SharesEntity(p: Interaction, changes: seq<EntityChange>) {
    exists c | c in changes :: Touches(p, c.key)
  }

  const PLANNING := "timePlanning"
  const CAPACITY: set<string> := {"set_date_capacity", "set_daily_capacity", "set_work_windows"}

  /** The pending record comes before a new command: they touch an entity in common, or the new one
      plans capacity and the pending one touches the time planning. */
  predicate Precedes(p: Interaction, changes: seq<EntityChange>, kind: string) {
    SharesEntity(p, changes) || (kind in CAPACITY && exists c | c in p.changes :: c.key.collection == PLANNING)
  }

  function Preceding(pending: seq<Interaction>, changes: seq<EntityChange>, kind: string): set<string> {
    set p | p in pending && Precedes(p, changes, kind) :: p.commandId
  }

  /** A command in the mirror; one that has not been saved yet may have no delta. */
  datatype Reservation =
    Reservation(commandId: string, interaction: bool, conflict: bool, changes: Option<seq<EntityChange>>)

  /** The mirror holds the command open, and it and the new one change an entity in common. */
  predicate ReservedOn(m: Reservation, changes: seq<EntityChange>) {
    && m.interaction && !m.conflict && m.changes.Some?
    && exists left, right | left in m.changes.value && right in changes :: left.key == right.key
  }

  function Mirrored(mirror: seq<Reservation>, changes: seq<EntityChange>): set<string> {
    set m | m in mirror && ReservedOn(m, changes) :: m.commandId
  }

  /** An identifier is selected exactly if the mirror lists its interaction, without a conflict, with a change
      of an entity that the new command changes too, or it is that of a pending record which changes such an
      entity, or which changes the time planning while the new command plans capacity. */
  ghost predicate Selected(ids: set<string>, mirror: seq<Reservation>, pending: seq<Interaction>,
                           changes: seq<EntityChange>, kind: string)
  {
    forall id :: id in ids <==>
      || (exists m, left, right | m in mirror && m.changes.Some? && left in m.changes.value && right in changes ::
            m.commandId == id && m.interaction && !m.conflict && left.key == right.key)
      || (exists p, left, right | p in pending && left in p.changes && right in changes ::
            p.commandId == id && left.key == right.key)
      || (kind in {"set_date_capacity", "set_daily_capacity", "set_work_windows"}
          && exists p, c | p in pending && c in p.changes :: p.commandId == id && c.key.collection == "timePlanning")
  }

  lemma SelectedExactly(mirror: seq<Reservation>, pending: seq<Interaction>, changes: seq<EntityChange>, kind: string)
    ensures Selected(Mirrored(mirror, changes) + Preceding(pending, changes, kind), mirror, pending, changes, kind)
  {
    forall id ensures id in Mirrored(mirror, changes) + Preceding(pending, changes, kind) <==>
      || (exists m, left, right | m in mirror && m.changes.Some? && left in m.changes.value && right in changes ::
            m.commandId == id && m.interaction && !m.conflict && left.key == right.key)
      || (exists p, left, right | p in pending && left in p.changes && right in changes ::
            p.commandId == id && left.key == right.key)
      || (kind in {"set_date_capacity", "set_daily_capacity", "set_work_windows"}
          && exists p, c | p in pending && c in p.changes :: p.commandId == id && c.key.collection == "timePlanning")
    {
      MirroredExactly(mirror, changes, id);
      PrecedingExactly(pending, changes, kind, id);
    }
  }

  lemma MirroredExactly(mirror: seq<Reservation>, changes: seq<EntityChange>, id: string)
    ensures id in Mirrored(mirror, changes) <==>
              exists m, left, right | m in mirror && m.changes.Some? && left in m.changes.value && right in changes ::
                m.commandId == id && m.interaction && !m.conflict && left.key == right.key
  {}

  lemma PrecedingExactly(pending: seq<Interaction>, changes: seq<EntityChange>, kind: string, id: string)
    ensures id in Preceding(pending, changes, kind) <==>
              || (exists p, left, right | p in pending && left in p.changes && right in changes ::
                    p.commandId == id && left.key == right.key)
              || (kind in {"set_date_capacity", "set_daily_capacity", "set_work_windows"}
                  && exists p, c | p in pending && c in p.changes ::
                       p.commandId == id && c.key.collection == "timePlanning")
  {
    forall p | p in pending ensures SharesEntity(p, changes) <==>
      exists left, right | left in p.changes && right in changes :: left.key == right.key
    {
      SharesExactly(p, changes);
    }
  }

  lemma SharesExactly(p: Interaction, changes: seq<EntityChange>)
    ensures SharesEntity(p, changes) <==> exists left, right | left in p.changes && right in changes ::
              left.key == right.key
  {
    forall c | c in changes ensures Touches(p, c.key) <==> exists left | left in p.changes :: left.key == c.key {
      ChangeAtMember(p.changes, c.key);
    }
  }

  /** The commands that the mirror holds open on the same entities, and the pending records. */
  method PendingPredecessors(mirror: seq<Reservation>, pending: seq<Interaction>, changes: seq<EntityChange>,
                             kind: string)
    returns (ids: set<string>)
    ensures Selected(ids, mirror, pending, changes, kind)
    ensures ids == Mirrored(mirror, changes) + Preceding(pending, changes, kind)
  {
    ids := {};
    for n := 0 to |mirror|
      invariant ids == Mirrored(mirror[..n], changes)
    {
      assert mirror[..n + 1] == mirror[..n] + [mirror[n]];
      if ReservedOn(mirror[n], changes) {
        ids := ids + {mirror[n].commandId};
      }
    }
    assert mirror[..|mirror|] == mirror;
    for n := 0 to |pending|
      invariant ids == Mirrored(mirror, changes) + Preceding(pending[..n], changes, kind)
    {
      assert pending[..n + 1] == pending[..n] + [pending[n]];
      if Precedes(pending[n], changes, kind) {
        ids := ids + {pending[n].commandId};
      }
    }
    assert pending[..|pending|] == pending;
    SelectedExactly(mirror, pending, changes, kind);
  }

  /** The record of a click. */
  function Clicked(id: string, createdAt: string, changes: seq<EntityChange>, kind: string,
                   mirror: seq<Reservation>, pending: seq<Interaction>): Interaction {
    Interaction(id, createdAt, Mirrored(mirror, changes) + Preceding(pending, changes, kind), changes, Active)
  }

  /** The afters of the confirmed predecessors on one entity, oldest first. */
  method CollectPriors(priors: seq<Interaction>, e: EntityKey) returns (rows: seq<Row>)
    ensures rows == PriorRows(priors, e)
  {
    rows := [];
    for n := 0 to |priors|
      invariant rows == PriorRows(priors[..n], e)
    {
      assert priors[..n + 1][..n] == priors[..n];
      var c := ChangeAt(priors[n].changes, e);
      if c.Some? && c.value.after.Some? {
        rows := rows + [c.value.after.value];
      }
    }
    assert priors[..|priors|] == priors;
  }

  method CollectChanges(records: seq<Interaction>, e: EntityKey) returns (cs: seq<EntityChange>)
    ensures cs == ChangesOf(On(records, e), e)
  {
    cs := [];
    for n := 0 to |records|
      invariant cs == ChangesOf(On(records[..n], e), e)
    {
      assert records[..n + 1] == records[..n] + [records[n]];
      OnLast(records[..n], records[n], e);
      var c := ChangeAt(records[n].changes, e);
      if c.Some? {
        assert (On(records[..n], e) + [records[n]])[..|On(records[..n], e)|] == On(records[..n], e);
        cs := cs + [c.value];
      }
    }
    assert records[..|records|] == records;
  }

  /** The settled patch of every accepted change; None where one of them finds no row. */
  method SettleAll(r: Interaction, priors: seq<Interaction>, accepted: seq<EntityChange>, later: seq<Interaction>)
    returns (settled: Option<seq<EntityChange>>)
    ensures settled.Some? ==> Settles(r, priors, accepted, later, settled.value)
    ensures settled.None? ==> forall cs :: !Settles(r, priors, accepted, later, cs)
  {
    var out: seq<EntityChange> := [];
    for n := 0 to |accepted|
      invariant |out| == n
      invariant Settles(r, priors, accepted[..n], later, out)
    {
      var e := accepted[n].key;
      var rows := CollectPriors(priors, e);
      var overlays := CollectChanges(later, e);
      var s := SettleRow(ChangeAt(r.changes, e), rows, accepted[n], overlays);
      if s.None? {
        return None;
      }
      out := out + [s.value];
      assert accepted[..n + 1] == accepted[..n] + [accepted[n]];
    }
    assert accepted[..|accepted|] == accepted;
    return Some(out);
  }

  /** One record's inverse, each change restored to the receipts of the confirmed predecessors. */
  method ReverseRecord(log: seq<Interaction>, p: Interaction) returns (r: Option<seq<EntityChange>>)
    ensures r == ReversalOf(log, p)
  {
    var parents := OrderInteractions(Pick(log, p.predecessors));
    if parents.None? {
      return None;
    }
    var out: seq<EntityChange> := [];
    for n := 0 to |p.changes|
      invariant out == ReversalOf(log, p).value[..n]
    {
      var accepted := CollectChanges(parents.value, p.changes[n].key);
      var inverse := RollbackChange(p.changes[n], accepted);
      out := out + [inverse];
    }
    assert ReversalOf(log, p).value[..|p.changes|] == ReversalOf(log, p).value;
    return Some(out);
  }

  datatype Acknowledgement = Acknowledgement(priors: seq<Interaction>, later: seq<Interaction>,
                                             settled: seq<EntityChange>, rows: Workspace)

  /** The dependents of a record, or no order for them. */
  ghost predicate OrderedDependents(pending: seq<Interaction>, root: string, order: Option<seq<Interaction>>) {
    exists found :: IsCascade(pending, root, found) && UniqueIds(found) && Ordered(found) == order
  }

  /** However the dependents are listed, they have one order, or none. */
  lemma DependentsUnique(pending: seq<Interaction>, root: string, a: Option<seq<Interaction>>,
                         b: Option<seq<Interaction>>)
    requires OrderedDependents(pending, root, a) && OrderedDependents(pending, root, b)
    ensures a == b
  {
    var x :| IsCascade(pending, root, x) && UniqueIds(x) && Ordered(x) == a;
    var y :| IsCascade(pending, root, y) && UniqueIds(y) && Ordered(y) == b;
    UniqueSameMembers(x, y);
    OrderIgnoresListing(x, y);
  }

  lemma SettlesUnique(r: Interaction, priors: seq<Interaction>, accepted: seq<EntityChange>, later: seq<Interaction>,
                      a: seq<EntityChange>, b: seq<EntityChange>)
    requires Settles(r, priors, accepted, later, a) && Settles(r, priors, accepted, later, b)
    ensures a == b
  {
    forall i | 0 <= i < |a| ensures a[i] == b[i] {
      assert Some(a[i]) == Some(b[i]);
    }
  }

  /** The dependencies are in order, every accepted change settles, and the rows take the settlement. */
  ghost predicate CanSettle(rows: Workspace, pending: seq<Interaction>, log: seq<Interaction>, r: Interaction,
                            accepted: seq<EntityChange>)
  {
    Ordered(Pick(log, r.predecessors)).Some? && exists later, settled ::
      && OrderedDependents(pending, r.commandId, Some(later))
      && Settles(r, Ordered(Pick(log, r.predecessors)).value, accepted, later, settled)
      && ApplyChanges(rows, settled).Some?
  }

  lemma CannotSettle(rows: Workspace, pending: seq<Interaction>, log: seq<Interaction>, r: Interaction,
                     accepted: seq<EntityChange>, later: Option<seq<Interaction>>, settled: Option<seq<EntityChange>>)
    requires OrderedDependents(pending, r.commandId, later) && Ordered(Pick(log, r.predecessors)).Some?
    requires later.Some? ==>
               var priors := Ordered(Pick(log, r.predecessors)).value;
               if settled.Some? then Settles(r, priors, accepted, later.value, settled.value)
                 && ApplyChanges(rows, settled.value).None?
               else forall cs :: !Settles(r, priors, accepted, later.value, cs)
    ensures !CanSettle(rows, pending, log, r, accepted)
  {
    if CanSettle(rows, pending, log, r, accepted) {
      var priors := Ordered(Pick(log, r.predecessors)).value;
      var order, cs :| OrderedDependents(pending, r.commandId, Some(order)) && Settles(r, priors, accepted, order, cs)
                       && ApplyChanges(rows, cs).Some?;
      DependentsUnique(pending, r.commandId, later, Some(order));
      if settled.Some? {
        SettlesUnique(r, priors, accepted, order, cs, settled.value);
      }
    }
  }

  /** Everything an acknowledgement computes before it writes. */
  method SettleReceipt(rows: Workspace, pending: seq<Interaction>, log: seq<Interaction>, r: Interaction,
                       accepted: seq<EntityChange>)
    returns (a: Option<Acknowledgement>)
    requires UniqueIds(pending)
    ensures a.Some? ==>
              && Ordered(Pick(log, r.predecessors)) == Some(a.value.priors)
                 && Cascade(pending, r.commandId, a.value.later)
              && Settles(r, a.value.priors, accepted, a.value.later, a.value.settled)
              && ApplyChanges(rows, a.value.settled) == Some(a.value.rows)
    ensures a.Some? <==> CanSettle(rows, pending, log, r, accepted)
  {
    var priors := OrderInteractions(Pick(log, r.predecessors));
    var found, later := DependentInteractions(pending, r.commandId);
    if priors.None? {
      return None;
    }
    assert OrderedDependents(pending, r.commandId, later);
    if later.None? {
      CannotSettle(rows, pending, log, r, accepted, later, None);
      return None;
    }
    CascadeFound(pending, r.commandId, found, later.value);
    var settled := SettleAll(r, priors.value, accepted, later.value);
    if settled.None? {
      CannotSettle(rows, pending, log, r, accepted, later, None);
      return None;
    }
    var next := Transact(rows, settled.value);
    if next.None? {
      CannotSettle(rows, pending, log, r, accepted, later, settled);
      return None;
    }
    return Some(Acknowledgement(priors.value, later.value, settled.value, next.value));
  }

  /** A receipt for a pending record whose predecessors have settled, with the delta that the server
      committed at its revision. */
  ghost predicate Receivable(s: Cache, r: Interaction, accepted: seq<EntityChange>, revision: nat) {
    && r in s.pending
    && revision + 1 < |s.history| && IsDiff(s.history[revision], s.history[revision + 1], accepted)
  }

  datatype Stored = Stored(rows: Workspace, pending: seq<Interaction>, log: seq<Interaction>, version: nat,
                           proof: Proof)

  /** The new contents of the stores, and the step of the machine that they belong to. */
  method PrepareAcknowledgement(rows: Workspace, pending: seq<Interaction>, log: seq<Interaction>, version: nat,
                                proof: Proof,
                                ghost s: Cache, r: Interaction, accepted: seq<EntityChange>, revision: nat)
    returns (next: Option<Stored>, ghost t: Cache)
    requires Inv(s) && s.rows == rows && s.pending == pending && s.log == log && s.version == version
             && s.proof == proof
    requires Receivable(s, r, accepted, revision)
    ensures next.Some? <==> CanSettle(rows, pending, log, r, accepted)
    ensures next.Some? ==>
              && AcknowledgesReceipt(s, r, accepted, revision, t) && Inv(t)
              && t == Cache(s.history, next.value.version, t.level, t.base, next.value.rows, next.value.pending,
                            next.value.log, t.disturbed,
                         next.value.proof)
  {
    var a := SettleReceipt(rows, pending, log, r, accepted);
    t := s;
    if a.None? {
      return None, t;
    }
    t := AcknowledgingKeeps(s, r, a.value, accepted, revision);
    next := Some(Stored(a.value.rows, Drop(pending, {r.commandId}), log + [Confirm(r, accepted)],
                        if revision == version then version + 1 else version, Recording(proof, [a.value.settled])));
  }

  /** The dependents are in order and every inverse is accepted. */
  ghost predicate CanWithdraw(rows: Workspace, pending: seq<Interaction>, log: seq<Interaction>, root: Interaction) {
    exists order ::
        OrderedDependents(pending, root.commandId, Some(order)) && UnwindAll(log, rows, [root] + order).Some?
  }

  lemma CannotWithdraw(rows: Workspace, pending: seq<Interaction>, log: seq<Interaction>, root: Interaction,
                       order: Option<seq<Interaction>>)
    requires OrderedDependents(pending, root.commandId, order)
    requires order.Some? ==> UnwindAll(log, rows, [root] + order.value).None?
    ensures !CanWithdraw(rows, pending, log, root)
  {
    if CanWithdraw(rows, pending, log, root) {
      var other :| OrderedDependents(pending, root.commandId, Some(other))
          && UnwindAll(log, rows, [root] + other).Some?;
      DependentsUnique(pending, root.commandId, order, Some(other));
    }
  }

  /** Everything a rejection computes before it writes: the dependents and the unwound rows. */
  method Withdraw(rows: Workspace, pending: seq<Interaction>, log: seq<Interaction>, root: Interaction)
    returns (order: Option<seq<Interaction>>, w: Option<Workspace>)
    requires UniqueIds(pending)
    ensures OrderedDependents(pending, root.commandId, order)
    ensures w.Some? ==>
              && order.Some? && Cascade(pending, root.commandId, order.value)
              && UnwindAll(log, rows, [root] + order.value) == w
    ensures w.Some? <==> CanWithdraw(rows, pending, log, root)
  {
    var found, ordered := DependentInteractions(pending, root.commandId);
    assert OrderedDependents(pending, root.commandId, ordered);
    order := ordered;
    if ordered.None? {
      CannotWithdraw(rows, pending, log, root, None);
      return order, None;
    }
    CascadeFound(pending, root.commandId, found, ordered.value);
    var steps := [root] + ordered.value;
    var current, n := rows, |steps|;
    assert steps[..n] == steps;
    while n > 0
      invariant n <= |steps| && UnwindAll(log, rows, steps) == UnwindAll(log, current, steps[..n])
    {
      var inverse := ReverseRecord(log, steps[n - 1]);
      UnwindOne(log, current, steps, n);
      if inverse.None? {
        CannotWithdraw(rows, pending, log, root, order);
        return order, None;
      }
      var next := Transact(current, inverse.value);
      if next.None? {
        CannotWithdraw(rows, pending, log, root, order);
        return order, None;
      }
      current, n := next.value, n - 1;
    }
    return order, Some(current);
  }

  lemma UnwindOne(log: seq<Interaction>, w: Workspace, steps: seq<Interaction>, n: nat)
    requires 0 < n <= |steps|
    ensures var inverse := ReversalOf(log, steps[n - 1]);
            UnwindAll(log, w, steps[..n]) ==
            if inverse.Some? && ApplyChanges(w, inverse.value).Some?
            then UnwindAll(log, ApplyChanges(w, inverse.value).value, steps[..n - 1])
            else None
  {
    assert steps[..n][..n - 1] == steps[..n - 1];
  }

  /** Whether the recorded deltas lead from the baseline to the cache. */
  method CheckProof(proof: Proof, pending: seq<Interaction>, rows: Workspace) returns (proved: bool)
    ensures proved <==> && (forall p | p in pending :: p.state != RollbackPending)
                        && proof.baseline.Some? && ProjectionProof.Recorded(proof.baseline.value, proof.deltas, rows)
  {
    if proof.baseline.None? || exists p | p in pending :: p.state == RollbackPending {
      return false;
    }
    var expected := proof.baseline.value;
    for n := 0 to |proof.deltas|
      invariant ProjectionProof.Expected(proof.baseline.value, proof.deltas[..n]) == Some(expected)
    {
      assert proof.deltas[..n + 1][..n] == proof.deltas[..n];
      var next := Transact(expected, proof.deltas[n]);
      if next.None? {
        ProjectionProof.NeverExpected(proof.baseline.value, proof.deltas, n + 1);
        return false;
      }
      expected := next.value;
    }
    assert proof.deltas[..|proof.deltas|] == proof.deltas;
    return expected == rows;
  }

  class Client {
    var rows: Workspace
    var pending: seq<Interaction>
    var log: seq<Interaction>
    var version: nat
    var proof: Proof
    ghost var state: Cache

    /** The stores hold what the machine's state says. */
    ghost predicate Valid()
      reads this
    {
      && state.rows == rows && state.pending == pending && state.log == log && state.version == version
         && state.proof == proof
      && Inv(state)
    }

    /** The first read of an account. */
    constructor (snapshot: Workspace, revision: nat, ghost past: seq<Workspace>)
      requires |past| == revision
      ensures Initial(state) && Valid() && rows == snapshot && state.history == past + [snapshot]
    {
      rows, pending, log, version, proof := snapshot, [], [], revision, Proof(Some(snapshot), [], false, None);
      state := Cache(past + [snapshot], revision, true, snapshot, snapshot, [], [], {},
                     Proof(Some(snapshot), [], false, None));
      InitialInv(Cache(past + [snapshot], revision, true, snapshot, snapshot, [], [], {},
                       Proof(Some(snapshot), [], false, None)));
    }

    /** The server's history goes on without the client. */
    ghost method ServerCommits(w: Workspace)
      requires Valid()
      modifies this`state
      ensures Valid() && Commits(old(state), w, state)
    {
      CommitInv(state, w, state.(history := state.history + [w]));
      state := state.(history := state.history + [w]);
    }

    /** Something else writes a row. */
    method Edit(key: EntityKey, row: Option<Row>)
      requires Valid()
      modifies this`rows, this`state
      ensures Valid() && Edits(old(state), key, row, state)
    {
      ghost var t := state.(rows := Store(state.rows, key, row), disturbed := state.disturbed + {key});
      EditInv(state, key, row, t);
      rows, state := Store(rows, key, row), t;
    }

    /** The user clears the cache. */
    method Clear()
      requires Valid()
      modifies this`rows, this`proof, this`state
      ensures Valid() && Clears(old(state), state)
      ensures rows == map[] && proof.cleared && proof.baseline.None? && proof.sample == old(proof).sample
    {
      ghost var t := state.(rows := map[],
                            disturbed := state.disturbed + state.rows.Keys + state.base.Keys + KeysOf(state.pending),
                            proof := Proof(None, [], true, state.proof.sample));
      ClearInv(state, t);
      rows, proof, state := map[], Proof(None, [], true, proof.sample), t;
    }

    /** The transaction's commit point. */
    method Adopt(next: Stored, ghost t: Cache)
      requires Inv(t) && t.rows == next.rows && t.pending == next.pending && t.log == next.log
               && t.version == next.version
      requires t.proof == next.proof
      modifies this
      ensures Valid() && state == t
    {
      rows, pending, log, version, proof := next.rows, next.pending, next.log, next.version, next.proof;
      state := t;
    }

    /** Records that can neither be settled nor withdrawn yet stay, with that said in the journal. */
    method Hold(ids: set<string>, held: JournalState)
      requires Valid() && held in {ProjectionPending, RollbackPending}
      modifies this`pending, this`state
      ensures Valid() && Holds(old(state), ids, held, state)
    {
      ghost var t := state.(pending := Marked(state.pending, ids, held));
      HoldInv(state, ids, held, t);
      pending, state := Marked(pending, ids, held), t;
    }

    /** A click: its predecessors are the reserved and the pending commands on the entities it changes. */
    method Begin(commandId: string, createdAt: string, changes: seq<EntityChange>, kind: string,
                 mirror: seq<Reservation>)
      returns (ok: bool, r: Interaction)
      requires Valid() && UniqueKeys(changes) && commandId !in Mirrored(mirror, changes)
      requires commandId !in Ids(pending) && commandId !in Ids(log)
      requires Acyclic(pending + [Clicked(commandId, createdAt, changes, kind, mirror, pending)])
      modifies this
      ensures Valid()
      ensures r.commandId == commandId && r.changes == changes
      ensures Selected(r.predecessors, mirror, old(pending), changes, kind)
      ensures ok <==> ApplyChanges(old(rows), changes).Some?
      ensures ok ==> Begins(old(state), r, state)
      ensures !ok ==> state == old(state)
      ensures ok && Mirrored(mirror, changes) !! Ids(old(log)) ==>
                forall e | e in state.disturbed && e !in old(state).disturbed ::
                ChangeAt(changes, e).Some? && !Fits(Lookup(old(rows), e), ChangeAt(changes, e).value)
    {
      var predecessors := PendingPredecessors(mirror, pending, changes, kind);
      r := Interaction(commandId, createdAt, predecessors, changes, Active);
      var next := Transact(rows, changes);
      ok := next.Some?;
      if ok {
        ghost var t := TakeReserved(state, r, Mirrored(mirror, changes), kind);
        Adopt(Stored(next.value, pending + [r], log, version, Recording(proof, [changes])), t);
      }
    }

    /** A receipt's delta: settle it under the later commands and move the record to the log. If that
        is refused, the record stays and waits for a read. */
    method Acknowledge(r: Interaction, accepted: seq<EntityChange>, revision: nat) returns (ok: bool)
      requires Valid()
      requires Receivable(state, r, accepted, revision)
      modifies this
      ensures Valid()
      ensures ok <==> CanSettle(old(rows), old(pending), old(log), r, accepted)
      ensures ok ==> AcknowledgesReceipt(old(state), r, accepted, revision, state)
      ensures !ok ==> Holds(old(state), {r.commandId}, ProjectionPending, state)
    {
      var next, t := PrepareAcknowledgement(rows, pending, log, version, proof, state, r, accepted, revision);
      if next.None? {
        Hold({r.commandId}, ProjectionPending);
        return false;
      }
      Adopt(next.value, t);
      ok := true;
    }

    /** A command that changed nothing locally is confirmed without a delta and without the checkpoint,
        but an acknowledgement without a receipt counts only at the revision it speaks about. */
    method ConfirmEmpty(r: Interaction, acknowledged: Option<nat>) returns (ok: bool)
      requires Valid() && r in pending && r.changes == []
      modifies this
      ensures Valid()
      ensures ok <==> acknowledged.None? || acknowledged == Some(old(version))
      ensures ok ==> ConfirmsEmpty(old(state), r, state)
      ensures !ok ==> state == old(state)
    {
      if acknowledged.Some? && acknowledged.value != version {
        return false;
      }
      ghost var t := state.(pending := Drop(state.pending, {r.commandId}), log := state.log + [Confirm(r, [])]);
      ConfirmEmptyInv(state, r, t);
      Adopt(Stored(rows, Drop(pending, {r.commandId}), log + [Confirm(r, [])], version, proof), t);
      ok := true;
    }

    /** A refusal: withdraw the record and its transitive dependents, newest first. If that is refused,
        all of them stay as an unfinished withdrawal. */
    method Reject(root: Interaction) returns (ok: bool)
      requires Valid() && root in pending
      modifies this
      ensures Valid()
      ensures ok <==> CanWithdraw(old(rows), old(pending), old(log), root)
      ensures ok ==> exists order :: Rejects(old(state), root, order, state)
      ensures !ok ==> exists order ::
                OrderedDependents(old(pending), root.commandId, order)
                && if order.Some? then Holds(old(state), Ids([root] + order.value), RollbackPending, state)
                   else state == old(state)
    {
      var order, w := Withdraw(rows, pending, log, root);
      if w.None? {
        if order.Some? {
          Hold(Ids([root] + order.value), RollbackPending);
        }
        return false;
      }
      ghost var t := TakeRejection(state, root, order.value);
      Adopt(Stored(w.value, Drop(pending, Ids([root] + order.value)), log, version,
                   Recording(proof, Reversals(log, [root] + order.value))), t);
      ok := true;
    }

    /** A recovery starts from a cache that is proved, or that was cleared and not written since. */
    method StartRecovery() returns (ok: bool)
      requires Valid()
      modifies this`proof, this`state
      ensures Valid()
      ensures ok <==>
                || (old(proof).cleared && old(rows) == map[])
                || ((forall p | p in old(pending) :: p.state != RollbackPending) && old(proof).baseline.Some?
                    && ProjectionProof.Expected(old(proof).baseline.value, old(proof).deltas) == Some(old(rows)))
      ensures ok ==> Samples(old(state), state)
      ensures !ok ==> state == old(state)
    {
      var proved := CheckProof(proof, pending, rows);
      if !(proof.cleared && rows == map[]) && !proved {
        return false;
      }
      ghost var t := state.(proof := state.proof.(sample := Some(Sample(state.rows, Ids(state.pending)))));
      ProofInv(state, t);
      proof, state := proof.(sample := Some(Sample(rows, Ids(pending)))), t;
      ok := true;
    }

    /** Many recorded deltas are folded into the baseline once the cache is proved. */
    method Compact() returns (ok: bool)
      requires Valid()
      modifies this`proof, this`state
      ensures Valid()
      ensures ok <==> && (forall p | p in old(pending) :: p.state != RollbackPending) && old(proof).baseline.Some?
                      && ProjectionProof.Expected(old(proof).baseline.value, old(proof).deltas) == Some(old(rows))
                      && |old(proof).deltas| >= 64
      ensures ok ==> Compacts(old(state), state)
      ensures !ok ==> state == old(state)
    {
      var proved := CheckProof(proof, pending, rows);
      if !proved || |proof.deltas| < COMPACT_AT {
        return false;
      }
      ghost var t := state.(proof := state.proof.(baseline := Some(state.rows), deltas := []));
      ProofInv(state, t);
      proof, state := proof.(baseline := Some(rows), deltas := []), t;
      ok := true;
    }

    /** A recovery with the receipts it found and the snapshot it read: what the receipts confirm joins the log,
        what it refuses goes, and the rest is rebased and patched over the snapshot. */
    method Recover(snapshot: Workspace, revision: nat, receipts: map<string, Reply>, unvouched: set<string>)
      returns (ok: bool)
      requires Valid()
      requires revision < |state.history| && state.history[revision] == snapshot
      requires forall id | id in receipts :: UniqueKeys(receipts[id].changes)
      modifies this
      ensures Valid()
      ensures var plan := PlanOf(old(pending), old(log), receipts, unvouched);
              ok <==> && plan.Some? && old(version) <= revision && Replayed(snapshot, plan.value.kept).Some?
                      && old(proof).sample == Some(Sample(old(rows), set p | p in old(pending) :: p.commandId))
                      && forall p | p in old(pending) && p.commandId in receipts ::
                           receipts[p.commandId].revision <= revision
      ensures ok ==> var plan := PlanOf(old(pending), old(log), receipts, unvouched).value;
                     Installs(old(state), revision, Revisions(receipts), plan.confirmed, plan.kept, state)
      ensures !ok ==> state == old(state)
    {
      var plan := MakePlan(pending, log, receipts, unvouched);
      if plan.None? {
        return false;
      }
      PlanRetains(pending, log, receipts, unvouched);
      UndisturbedExactly(state, revision, receipts);
      ok := Install(snapshot, revision, Revisions(receipts), plan.value.confirmed, plan.value.kept);
    }

    /** The end of a recovery: the snapshot replaces every row, the confirmed records join the log, and
        the retained commands are patched over it in order. It changes nothing if the cache or the
        reserved commands have moved since it started, if a receipt is newer than the snapshot, if
        the snapshot is older than the checkpoint, or if a retained command no longer fits. */
    method Install(snapshot: Workspace, revision: nat, receipts: map<string, nat>, confirmed: seq<Interaction>,
                   kept: seq<Interaction>)
      returns (ok: bool)
      requires Valid()
      requires revision < |state.history| && state.history[revision] == snapshot
      requires Retainable(state, confirmed, kept)
      modifies this
      ensures Valid()
      ensures ok <==>
                && Undisturbed(old(state), revision, receipts, confirmed) && old(version) <= revision
                && Replayed(snapshot, kept).Some?
      ensures ok ==> Installs(old(state), revision, receipts, confirmed, kept, state)
      ensures !ok ==> state == old(state)
    {
      if proof.sample != Some(Sample(rows, Ids(pending))) || revision < version {
        return false;
      }
      if exists c | c in confirmed :: c.commandId !in receipts || receipts[c.commandId] > revision {
        return false;
      }
      var w, t := ReplayKept(snapshot, revision, log, receipts, confirmed, kept, state);
      if w.None? {
        return false;
      }
      Adopt(Stored(w.value, kept, log + confirmed, revision, KeptProof(snapshot, kept)), t);
      ok := true;
    }
  }

  /** The proof of a snapshot with the retained commands over it. */
  function KeptProof(snapshot: Workspace, kept: seq<Interaction>): Proof {
    Proof(Some(snapshot), seq(|kept|, i requires 0 <= i < |kept| => kept[i].changes), false, None)
  }

  lemma KeptProofNext(snapshot: Workspace, kept: seq<Interaction>, n: nat)
    requires n < |kept|
    ensures KeptProof(snapshot, kept[..n + 1]) == Recording(KeptProof(snapshot, kept[..n]), [kept[n].changes])
  {
    assert KeptProof(snapshot, kept[..n + 1]).deltas == KeptProof(snapshot, kept[..n]).deltas + [kept[n].changes];
  }

  /** What a click names is pending, and covers every pending command on its entities. */
  lemma FreshClick(pending: seq<Interaction>, changes: seq<EntityChange>, kind: string)
    ensures var ids := Preceding(pending, changes, kind);
            ids <= Ids(pending) && forall p | p in pending && SharesEntity(p, changes) :: p.commandId in ids
  {}

  function Revisions(receipts: map<string, Reply>): map<string, nat> {
    map id | id in receipts :: receipts[id].revision
  }

  /** Nothing has moved: the cache and the reserved commands are as sampled, and every receipt that was found is in
      the snapshot. */
  lemma UndisturbedExactly(s: Cache, revision: nat, receipts: map<string, Reply>)
    requires UniqueIds(s.pending)
    ensures Undisturbed(s, revision, Revisions(receipts), Confirming(s.pending, receipts)) <==>
              && s.proof.sample == Some(Sample(s.rows, set p | p in s.pending :: p.commandId))
              && forall p | p in s.pending && p.commandId in receipts :: receipts[p.commandId].revision <= revision
  {
    var confirmed := Confirming(s.pending, receipts);
    ConfirmedMembers(s.pending, receipts);
    forall c | c in confirmed ensures exists p | p in s.pending :: p.commandId == c.commandId {
      assert c.commandId in Ids(confirmed);
    }
    forall p | p in s.pending && p.commandId in receipts
      ensures exists c | c in confirmed :: c.commandId == p.commandId
    {
      assert p.commandId in Ids(confirmed);
    }
  }

  /** Confirmed and retained records that a full read may leave behind. */
  predicate Retainable(s: Cache, confirmed: seq<Interaction>, kept: seq<Interaction>) {
    Retains(s.pending, s.log, confirmed, kept)
  }

  /** The retained commands over a snapshot, oldest first. */
  function Replayed(snapshot: Workspace, kept: seq<Interaction>): Option<Workspace> {
    if kept == [] then Some(snapshot)
    else match Replayed(snapshot, kept[..|kept| - 1])
         case None => None
         case Some(w) => ApplyChanges(w, kept[|kept| - 1].changes)
  }

  lemma ReplayedNext(snapshot: Workspace, kept: seq<Interaction>, n: nat, current: Workspace)
    requires n < |kept| && Replayed(snapshot, kept[..n]) == Some(current)
    ensures Replayed(snapshot, kept[..n + 1]) == ApplyChanges(current, kept[n].changes)
    ensures ApplyChanges(current, kept[n].changes).None? ==> Replayed(snapshot, kept).None?
  {
    assert kept[..n + 1][..n] == kept[..n];
    if ApplyChanges(current, kept[n].changes).None? {
      ReplayedPrefix(snapshot, kept, n + 1);
    }
  }

  lemma ReplayedPrefix(snapshot: Workspace, kept: seq<Interaction>, n: nat)
    requires n <= |kept| && Replayed(snapshot, kept[..n]).None?
    ensures Replayed(snapshot, kept).None?
    decreases |kept|
  {
    if n < |kept| {
      assert kept[..|kept| - 1][..n] == kept[..n];
      ReplayedPrefix(snapshot, kept[..|kept| - 1], n);
    } else {
      assert kept[..n] == kept;
    }
  }

  /** The loop over the retained commands, on staged rows. */
  method ReplayKept(snapshot: Workspace, revision: nat, log: seq<Interaction>, receipts: map<string, nat>,
                    confirmed: seq<Interaction>, kept: seq<Interaction>, ghost s: Cache)
    returns (w: Option<Workspace>, ghost t: Cache)
    requires Inv(s) && s.log == log && s.version <= revision < |s.history| && s.history[revision] == snapshot
    requires Retainable(s, confirmed, kept) && Undisturbed(s, revision, receipts, confirmed)
    ensures w == Replayed(snapshot, kept)
    ensures w.Some? ==>
              && Installs(s, revision, receipts, confirmed, kept, t) && Inv(t)
              && t == Cache(s.history, revision, true, snapshot, w.value, kept, log + confirmed, t.disturbed,
                            KeptProof(snapshot, kept))
  {
    ghost var first := TakeReset(s, revision, confirmed);
    t := first;
    var current := snapshot;
    for n := 0 to |kept|
      invariant Replays(first, kept[..n], t) && Inv(t)
      invariant Replayed(snapshot, kept[..n]) == Some(current)
      invariant t == Cache(s.history, revision, true, snapshot, current, kept[..n], log + confirmed, t.disturbed,
                           KeptProof(snapshot, kept[..n]))
    {
      assert kept[..n + 1] == kept[..n] + [kept[n]];
      ReplayedNext(snapshot, kept, n, current);
      KeptProofNext(snapshot, kept, n);
      var next := Transact(current, kept[n].changes);
      if next.None? {
        return None, t;
      }
      KeptIsFresh(log + confirmed, kept, n, t);
      t := TakeReplay(first, kept[..n], t, kept[n]);
      current := next.value;
    }
    assert kept[..|kept|] == kept;
    w := Some(current);
  }

  /** The machine's step for a click. */
  lemma TakeClick(s: Cache, r: Interaction) returns (t: Cache)
    requires Inv(s) && Fresh(s, r) && ApplyChanges(s.rows, r.changes).Some?
    requires forall p | p in s.pending && SharesEntity(p, r.changes) :: p.commandId in r.predecessors
    ensures Begins(s, r, t) && Inv(t)
    ensures t == Cache(s.history, s.version, s.level, s.base, ApplyChanges(s.rows, r.changes).value, s.pending + [r],
                       s.log, t.disturbed,
                       Recording(s.proof, [r.changes]))
    ensures r.predecessors !! Ids(s.log) ==> forall e | e in t.disturbed && e !in s.disturbed ::
              ChangeAt(r.changes, e).Some? && !Fits(Lookup(s.rows, e), ChangeAt(r.changes, e).value)
  {
    var touched := set e | e in Keys(r.changes) && !AddsAt(s, r, e);
    t := s.(rows := ApplyChanges(s.rows, r.changes).value, pending := s.pending + [r],
            disturbed := s.disturbed + touched,
            proof := Recording(s.proof, [r.changes]));
    BeginInv(s, r, t);
    if r.predecessors !! Ids(s.log) {
      forall e | e in touched
        ensures ChangeAt(r.changes, e).Some? && !Fits(Lookup(s.rows, e), ChangeAt(r.changes, e).value)
      {
        TouchedOnlyByMisfit(s, r, e);
      }
    }
  }

  lemma TakeReserved(s: Cache, r: Interaction, mirrored: set<string>, kind: string) returns (t: Cache)
    requires Inv(s) && UniqueKeys(r.changes) && ApplyChanges(s.rows, r.changes).Some? && r.state == Active
    requires r.commandId !in mirrored + Ids(s.pending) + Ids(s.log) && Acyclic(s.pending + [r])
    requires r.predecessors == mirrored + Preceding(s.pending, r.changes, kind)
    ensures Begins(s, r, t) && Inv(t)
    ensures t == Cache(s.history, s.version, s.level, s.base, ApplyChanges(s.rows, r.changes).value, s.pending + [r],
                       s.log, t.disturbed,
                       Recording(s.proof, [r.changes]))
    ensures mirrored !! Ids(s.log) ==> forall e | e in t.disturbed && e !in s.disturbed ::
              ChangeAt(r.changes, e).Some? && !Fits(Lookup(s.rows, e), ChangeAt(r.changes, e).value)
  {
    FreshClick(s.pending, r.changes, kind);
    t := TakeClick(s, r);
  }

  lemma TakeReset(s: Cache, revision: nat, confirmed: seq<Interaction>) returns (t: Cache)
    requires Inv(s) && s.version <= revision < |s.history|
    requires UniqueIds(s.log + confirmed) && forall p | p in confirmed :: UniqueKeys(p.changes)
    ensures Resets(s, revision, confirmed, t) && Inv(t)
    ensures t == Cache(s.history, revision, true, s.history[revision], s.history[revision], [], s.log + confirmed, {},
                       KeptProof(s.history[revision], []))
  {
    t := Cache(s.history, revision, true, s.history[revision], s.history[revision], [], s.log + confirmed, {},
               KeptProof(s.history[revision], []));
    ResetInv(s, revision, confirmed, t);
  }

  lemma KeptIsFresh(log: seq<Interaction>, kept: seq<Interaction>, n: nat, t: Cache)
    requires n < |kept| && Ids(kept) !! Ids(log) && UniqueIds(kept) && Topological(kept)
    requires forall p | p in kept :: Unsettled(p.state) && UniqueKeys(p.changes)
    requires t.pending == kept[..n] && t.log == log
    ensures Fresh(t, kept[n])
  {
    assert kept[n].commandId in Ids(kept);
    assert kept[n].commandId !in kept[n].predecessors;
    forall p | p in kept[..n] ensures p.commandId != kept[n].commandId {
      var i :| 0 <= i < n && kept[i] == p;
    }
    KeptIsAcyclic(kept, n);
  }

  lemma KeptIsAcyclic(kept: seq<Interaction>, n: nat)
    requires n < |kept| && Topological(kept)
    ensures Acyclic(kept[..n] + [kept[n]])
  {
    TopologicalAcyclic(kept);
    forall x | x in kept[..n] + [kept[n]] ensures LinkedIn(x, kept) {
      assert x in kept && Ties(x) == Ties(x);
    }
    AcyclicAlike(kept[..n] + [kept[n]], kept);
  }

  lemma TakeReplay(first: Cache, kept: seq<Interaction>, t: Cache, r: Interaction) returns (u: Cache)
    requires Replays(first, kept, t) && Inv(t) && Fresh(t, r) && ApplyChanges(t.rows, r.changes).Some?
    ensures Replays(first, kept + [r], u) && Inv(u)
    ensures u == t.(rows := ApplyChanges(t.rows, r.changes).value, pending := t.pending + [r], disturbed := u.disturbed,
                    proof := Recording(t.proof, [r.changes]))
  {
    u := t.(rows := ApplyChanges(t.rows, r.changes).value, pending := t.pending + [r],
            disturbed := t.disturbed + (set e | e in Keys(r.changes) && !AddsAt(t, r, e)),
            proof := Recording(t.proof, [r.changes]));
    BeginInv(t, r, u);
    assert (kept + [r])[..|kept|] == kept;
    assert ReplaysThen(first, kept, r, u);
  }

  /** Some settlement of the receipt. */
  ghost predicate AcknowledgesReceipt(s: Cache, r: Interaction, accepted: seq<EntityChange>, revision: nat, t: Cache) {
    exists priors, later, settled :: Acknowledges(s, r, priors, later, accepted, settled, revision, t)
  }

  ghost function Acknowledging(s: Cache, r: Interaction, a: Acknowledgement, accepted: seq<EntityChange>,
                               revision: nat): Cache
  {
    s.(version := if revision == s.version then s.version + 1 else s.version,
       level := s.level && revision == s.version,
       base := ForceChanges(s.base, accepted),
       rows := a.rows,
       pending := Drop(s.pending, {r.commandId}),
       log := s.log + [Confirm(r, accepted)],
       disturbed := s.disturbed + (set e | e in Keys(accepted) + Keys(r.changes)
                                   && !SettlesAt(s, r, a.priors, accepted, e)),
       proof := Recording(s.proof, [a.settled]))
  }

  lemma AcknowledgingSteps(s: Cache, r: Interaction, a: Acknowledgement, accepted: seq<EntityChange>, revision: nat)
    requires r in s.pending
    requires revision + 1 < |s.history| && IsDiff(s.history[revision], s.history[revision + 1], accepted)
    requires Ordered(Pick(s.log, r.predecessors)) == Some(a.priors) && Cascade(s.pending, r.commandId, a.later)
    requires Settles(r, a.priors, accepted, a.later, a.settled) && ApplyChanges(s.rows, a.settled) == Some(a.rows)
    ensures Acknowledges(s, r, a.priors, a.later, accepted, a.settled, revision,
                         Acknowledging(s, r, a, accepted, revision))
    ensures AcknowledgesReceipt(s, r, accepted, revision, Acknowledging(s, r, a, accepted, revision))
  {
    assert Acknowledges(s, r, a.priors, a.later, accepted, a.settled, revision,
                        Acknowledging(s, r, a, accepted, revision));
  }

  lemma AcknowledgingKeeps(s: Cache, r: Interaction, a: Acknowledgement, accepted: seq<EntityChange>, revision: nat)
    returns (t: Cache)
    requires Inv(s) && r in s.pending
    requires revision + 1 < |s.history| && IsDiff(s.history[revision], s.history[revision + 1], accepted)
    requires Ordered(Pick(s.log, r.predecessors)) == Some(a.priors) && Cascade(s.pending, r.commandId, a.later)
    requires Settles(r, a.priors, accepted, a.later, a.settled) && ApplyChanges(s.rows, a.settled) == Some(a.rows)
    ensures AcknowledgesReceipt(s, r, accepted, revision, t) && Inv(t)
    ensures t.history == s.history && t.rows == a.rows && t.pending == Drop(s.pending, {r.commandId})
    ensures t.proof == Recording(s.proof, [a.settled])
    ensures t.log == s.log + [Confirm(r, accepted)] && t.version == if revision == s.version then s.version + 1
            else s.version
  {
    t := Acknowledging(s, r, a, accepted, revision);
    AcknowledgingSteps(s, r, a, accepted, revision);
    AcknowledgeInv(s, r, a.priors, a.later, accepted, a.settled, revision, t);
  }

  lemma TakeRejection(s: Cache, root: Interaction, order: seq<Interaction>) returns (t: Cache)
    requires Inv(s) && root in s.pending && Cascade(s.pending, root.commandId, order)
    requires UnwindAll(s.log, s.rows, [root] + order).Some?
    ensures Inv(t) && Rejects(s, root, order, t)
    ensures t == Cache(s.history, s.version, s.level, s.base, UnwindAll(s.log, s.rows, [root] + order).value,
                       Drop(s.pending, Ids([root] + order)), s.log, t.disturbed,
                         Recording(s.proof, Reversals(s.log, [root] + order)))
  {
    var ids := Ids([root] + order);
    t := s.(rows := UnwindAll(s.log, s.rows, [root] + order).value,
            pending := Drop(s.pending, ids),
            disturbed := s.disturbed + (set e | e in KeysOf([root] + order) && !WithdrawsAt(s, ids, [root] + order, e)),
            proof := Recording(s.proof, Reversals(s.log, [root] + order)));
    RejectInv(s, root, order, t);
  }

  lemma InitialInv(s: Cache)
    requires Initial(s)
    ensures Inv(s)
  {
    RunInv([s], [], 0);
  }

  /** Ordering the found dependents gives a cascade. */
  lemma CascadeFound(pending: seq<Interaction>, root: string, found: seq<Interaction>, order: seq<Interaction>)
    requires IsCascade(pending, root, found) && UniqueIds(found) && Ordered(found) == Some(order)
    ensures Cascade(pending, root, order)
  {
    OrderSpecification(found);
    UniqueByIds(found, order);
    forall x ensures x in order <==> x in found {
      assert x in multiset(order) <==> x in multiset(found);
    }
  }

  /** With the predecessors that a click records, a row is disturbed only by a change that was not
      computed from it. */
  lemma TouchedOnlyByMisfit(s: Cache, r: Interaction, e: EntityKey)
    requires Wellformed(s) && r.predecessors !! Ids(s.log)
    requires forall p | p in s.pending && SharesEntity(p, r.changes) :: p.commandId in r.predecessors
    requires UniqueKeys(r.changes) && e in Keys(r.changes) && !AddsAt(s, r, e)
    ensures ChangeAt(r.changes, e).Some? && !Fits(Lookup(s.rows, e), ChangeAt(r.changes, e).value)
  {
    var c :| c in r.changes && c.key == e;
    ChangeAtUnique(r.changes, c);
    OnMembers(s.pending, e);
    forall p | p in On(s.pending, e) ensures p.commandId in r.predecessors {
      assert SharesEntity(p, r.changes);
    }
    PickMembers(s.log, r.predecessors);
    forall q | q in s.log ensures q.commandId !in r.predecessors {
      assert q.commandId in Ids(s.log);
    }
    assert forall i | 0 <= i < |Pick(s.log, r.predecessors)| ::
             Pick(s.log, r.predecessors)[i] in Pick(s.log, r.predecessors);
    assert Pick(s.log, r.predecessors) == [];
    if Fits(Lookup(s.rows, e), c) {
      assert AddsCleanly(Lookup(s.rows, e), LinksOf(s.log, On(s.pending, e), e), LinkOf(s.log, r, e)) by {
        assert LinkOf(s.log, r, e) == Link(c, []);
      }
    }
  }

  // ---------------------------------------------------------------------------------------
  // Independent clicks
  // ---------------------------------------------------------------------------------------

  lemma ReachedIsWithdrawn(pending: seq<Interaction>, root: Interaction, order: seq<Interaction>, id: string, n: nat)
    requires root in pending && IsCascade(pending, root.commandId, order) && ReachedIn(pending, root.commandId, id, n)
    ensures exists x | x in [root] + order :: x.commandId == id
  {
    if id == root.commandId {
      assert ([root] + order)[0] == root;
    } else {
      var x, p :| x in pending && Unsettled(x.state) && x.commandId == id
                  && p in x.predecessors && ReachedIn(pending, root.commandId, p, n - 1);
      assert DependsOn(pending, root.commandId, id) && x in order;
      assert x in [root] + order;
    }
  }

  /** A withdrawn record other than the root stands behind a withdrawn one. */
  lemma WithdrawnBehind(pending: seq<Interaction>, root: Interaction, order: seq<Interaction>, r: Interaction)
    requires UniqueIds(pending) && root in pending && IsCascade(pending, root.commandId, order)
    requires r in pending && r != root && r.commandId in Ids([root] + order)
    ensures exists p | p in r.predecessors :: p in Ids([root] + order)
  {
    var x :| x in [root] + order && x.commandId == r.commandId;
    assert x == r && x in order;
    var n: nat :| ReachedIn(pending, root.commandId, r.commandId, n);
    var y, p :| y in pending && Unsettled(y.state) && y.commandId == r.commandId
                && p in y.predecessors && ReachedIn(pending, root.commandId, p, n - 1);
    assert y == r;
    ReachedIsWithdrawn(pending, root, order, p, n - 1);
  }

  lemma NotSelected(ids: set<string>, mirror: seq<Reservation>, pending: seq<Interaction>, changes: seq<EntityChange>,
                    kind: string, gone: set<string>)
    requires Selected(ids, mirror, pending, changes, kind)
    requires kind !in {"set_date_capacity", "set_daily_capacity", "set_work_windows"}
    requires forall p, a, b | p in pending && a in p.changes && b in changes && a.key == b.key :: p.commandId !in gone
    requires forall m, a, b | m in mirror && m.changes.Some? && a in m.changes.value && b in changes
             && a.key == b.key ::
               m.commandId !in gone
    ensures forall id | id in ids :: id !in gone
  {}

  /** Whatever happened since it was clicked, a command that plans no capacity stays pending through a refusal
      if, when it was clicked, none of the commands that the refusal withdraws was pending or reserved on an
      entity that it changes. */
  lemma RefusalSparesOthers(clicked: seq<Interaction>, mirror: seq<Reservation>, kind: string, r: Interaction,
                            s: Cache, root: Interaction, order: seq<Interaction>, s': Cache)
    requires Selected(r.predecessors, mirror, clicked, r.changes, kind)
    requires kind !in {"set_date_capacity", "set_daily_capacity", "set_work_windows"}
    requires UniqueIds(s.pending) && r in s.pending && r != root && Rejects(s, root, order, s')
    requires forall p, a, b | p in clicked && a in p.changes && b in r.changes && a.key == b.key ::
               p.commandId !in Ids([root] + order)
    requires forall m, a, b | m in mirror && m.changes.Some? && a in m.changes.value && b in r.changes
             && a.key == b.key ::
               m.commandId !in Ids([root] + order)
    ensures r in s'.pending
  {
    var gone := Ids([root] + order);
    DropMembers(s.pending, gone);
    NotSelected(r.predecessors, mirror, clicked, r.changes, kind, gone);
    if r.commandId in gone {
      WithdrawnBehind(s.pending, root, order, r);
    }
  }
}
