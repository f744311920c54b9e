/**
 The optimistic cache and the connected protocol move together: one transaction writes rows and
 journal, so a joint step is one step of each on the same record. In every joint run the cache shows
 exactly the commands whose journal rows are open, and has settled exactly the confirmed ones; what a
 rejection unwinds from the cache is what it withdraws in the journal.
 */
module JointJournal {
  import opened Wrappers
  import opened Interactions
  import opened InteractionOrder
  import opened WorkspaceDelta
  import opened JournalViews
  import RowChain
  import C = OptimisticCache
  import S = ConnectedSystem
  import Safety = ConnectedSafety
  import Order = ConnectedOrder
  import Reads = ConnectedReads

  type Rows = map<string, S.JournalRow>

  /** The record and the row are the same command in the same state. */
  predicate Same(p: Interaction, j: Rows) {
    p.commandId in j && j[p.commandId].state == p.state && j[p.commandId].predecessors == p.predecessors
  }

  /** The pending records are the open rows, and the settled records are the confirmed ones. */
  ghost predicate Agree(pending: seq<Interaction>, log: seq<Interaction>, j: Rows) {
    && (forall p | p in pending :: Same(p, j) && Unsettled(p.state))
    && (forall id | S.Open(j, id) :: id in Ids(pending))
    && (forall p | p in log :: S.In(j, p.commandId, Confirmed) && j[p.commandId].predecessors == p.predecessors)
    && (forall id | S.In(j, id, Confirmed) :: id in Ids(log))
  }

  ghost predicate Together(c: C.Cache, s: S.System) {
    Agree(c.pending, c.log, s.journal)
  }

  // ---------------------------------------------------------------------------------------
  // The two notions of dependents
  // ---------------------------------------------------------------------------------------

  lemma RecordOf(pending: seq<Interaction>, log: seq<Interaction>, j: Rows, id: string) returns (p: Interaction)
    requires Agree(pending, log, j) && S.Open(j, id)
    ensures p in pending && p.commandId == id && Same(p, j)
  {
    p :| p in pending && p.commandId == id;
  }

  lemma {:induction false} ReachesAlike(pending: seq<Interaction>, log: seq<Interaction>, j: Rows, root: string,
                                        id: string, n: nat)
    requires Agree(pending, log, j)
    ensures ReachedIn(pending, root, id, n) <==> S.Reaches(j, root, id, n)
    decreases n
  {
    if n > 0 {
      if S.Reaches(j, root, id, n) {
        var p :| p in j[id].predecessors && S.Reaches(j, root, p, n - 1);
        var x := RecordOf(pending, log, j, id);
        ReachesAlike(pending, log, j, root, p, n - 1);
        assert p in x.predecessors && ReachedIn(pending, root, p, n - 1);
      }
      if ReachedIn(pending, root, id, n) {
        var x, p :| x in pending && Unsettled(x.state) && x.commandId == id && p in x.predecessors
            && ReachedIn(pending, root, p, n - 1);
        ReachesAlike(pending, log, j, root, p, n - 1);
        assert Same(x, j);
      }
    }
  }

  /** The records that a rejection unwinds from the cache are the rows that it withdraws. */
  lemma DependentsAlike(pending: seq<Interaction>, log: seq<Interaction>, j: Rows, root: string,
                        order: seq<Interaction>)
    requires Agree(pending, log, j) && IsCascade(pending, root, order)
    ensures Ids(order) == S.Dependents(j, root)
  {
    forall id ensures id in Ids(order) <==> id in S.Dependents(j, root) {
      if id in Ids(order) {
        var x :| x in order && x.commandId == id;
        var n: nat :| ReachedIn(pending, root, id, n);
        ReachesAlike(pending, log, j, root, id, n);
        assert Same(x, j);
      }
      if id in S.Dependents(j, root) {
        var n: nat :| S.Reaches(j, root, id, n);
        ReachesAlike(pending, log, j, root, id, n);
        assert S.Open(j, id);
        var x := RecordOf(pending, log, j, id);
        assert DependsOn(pending, root, id) && x in order;
      }
    }
  }

  // ---------------------------------------------------------------------------------------
  // What a step does to the journal's two views
  // ---------------------------------------------------------------------------------------

  lemma AgreeBegun(pending: seq<Interaction>, log: seq<Interaction>, j: Rows, r: Interaction, row: S.JournalRow)
    requires Agree(pending, log, j) && r.commandId !in j && Unsettled(r.state)
    requires row.state == r.state && row.predecessors == r.predecessors
    ensures Agree(pending + [r], log, j[r.commandId := row])
  {
    assert r in pending + [r];
    forall id | S.Open(j[r.commandId := row], id) ensures id in Ids(pending + [r]) {
      if id != r.commandId {
        var p := RecordOf(pending, log, j, id);
        assert p in pending + [r];
      }
    }
  }

  lemma AgreeConfirmed(pending: seq<Interaction>, log: seq<Interaction>, j: Rows, r: Interaction,
                       accepted: seq<EntityChange>, row: S.JournalRow)
    requires Agree(pending, log, j) && r in pending && row.state == Confirmed && row.predecessors == r.predecessors
    ensures Agree(Drop(pending, {r.commandId}), log + [C.Confirm(r, accepted)], j[r.commandId := row])
  {
    var j', log' := j[r.commandId := row], log + [C.Confirm(r, accepted)];
    DropMembers(pending, {r.commandId});
    assert C.Confirm(r, accepted) in log';
    forall id | S.Open(j', id) ensures id in Ids(Drop(pending, {r.commandId})) {
      var p := RecordOf(pending, log, j, id);
      assert p in Drop(pending, {r.commandId});
    }
    forall id | S.In(j', id, Confirmed) ensures id in Ids(log') {
      if id != r.commandId {
        assert S.In(j, id, Confirmed);
        var p :| p in log && p.commandId == id;
        assert p in log';
      }
    }
    forall p | p in log' ensures S.In(j', p.commandId, Confirmed) && j'[p.commandId].predecessors == p.predecessors {
      if p in log {
        assert p.commandId != r.commandId;
      }
    }
  }

  lemma MarkedMember(pending: seq<Interaction>, ids: set<string>, state: JournalState, p: Interaction)
    ensures p in pending ==> (if p.commandId in ids then p.(state := state) else p) in C.Marked(pending, ids, state)
    ensures p in C.Marked(pending, ids, state) ==>
              exists q | q in pending :: p == if q.commandId in ids then q.(state := state) else q
  {
    var marked := C.Marked(pending, ids, state);
    if p in pending {
      var i :| 0 <= i < |pending| && pending[i] == p;
      assert marked[i] in marked;
    }
    if p in marked {
      var i :| 0 <= i < |marked| && marked[i] == p;
      assert pending[i] in pending;
    }
  }

  /** Open rows that are held in another open state, in both views. */
  lemma AgreeHeld(pending: seq<Interaction>, log: seq<Interaction>, j: Rows, ids: set<string>, state: JournalState,
                  j': Rows)
    requires Agree(pending, log, j) && Unsettled(state) && j'.Keys == j.Keys
    requires forall id | id in j ::
               j'[id].predecessors == j[id].predecessors && j'[id].state == if id in ids then state else j[id].state
    requires forall id | id in ids && id in j :: S.Open(j, id)
    ensures Agree(C.Marked(pending, ids, state), log, j')
  {
    var marked := C.Marked(pending, ids, state);
    forall p | p in marked ensures Same(p, j') && Unsettled(p.state) {
      MarkedMember(pending, ids, state, p);
      var q :| q in pending && p == if q.commandId in ids then q.(state := state) else q;
      assert Same(q, j);
    }
    forall id | S.Open(j', id) ensures id in Ids(marked) {
      var q := RecordOf(pending, log, j, id);
      MarkedMember(pending, ids, state, q);
    }
  }

  lemma AgreeRejected(pending: seq<Interaction>, log: seq<Interaction>, j: Rows, ids: set<string>, j': Rows)
    requires Agree(pending, log, j) && j'.Keys == j.Keys
    requires forall id | id in j :: j'[id].predecessors == j[id].predecessors
                                    && (if id in ids then S.Refusal(j'[id].state) else j'[id].state == j[id].state)
    requires forall id | id in ids && id in j :: S.Open(j, id)
    ensures Agree(Drop(pending, ids), log, j')
  {
    DropMembers(pending, ids);
    forall p | p in Drop(pending, ids) ensures Same(p, j') && Unsettled(p.state) {
      assert Same(p, j);
    }
    forall id | S.Open(j', id) ensures id in Ids(Drop(pending, ids)) {
      var p := RecordOf(pending, log, j, id);
      assert p in Drop(pending, ids);
    }
  }

  // ---------------------------------------------------------------------------------------
  // Joint steps
  // ---------------------------------------------------------------------------------------

  /** The row's record with other changes: rebased, or as the receipt has them. */
  predicate Renewed(k: Interaction, p: Interaction, state: JournalState) {
    k == p.(changes := k.changes, state := state)
  }

  /** What a full read writes, record by record: each kept record is a pending one whose row stays open,
      each confirmed record a pending one whose row is confirmed, and none of these is left out. */
  ghost predicate Paired(pending: seq<Interaction>, confirmed: seq<Interaction>, kept: seq<Interaction>, j': Rows) {
    && (forall k | k in kept :: S.Open(j', k.commandId) && exists p | p in pending :: Renewed(k, p, p.state))
    && (forall x | x in confirmed ::
          S.In(j', x.commandId, Confirmed) && exists p | p in pending :: Renewed(x, p, Confirmed))
    && (forall p | p in pending && S.Open(j', p.commandId) :: p.commandId in Ids(kept))
    && (forall p | p in pending && S.In(j', p.commandId, Confirmed) :: p.commandId in Ids(confirmed))
  }

  /** Steps of the cache that are about no record and not the server's. */
  predicate Local(cs: C.Step) {
    cs.SampleStep? || cs.CompactStep? || cs.ClearStep? || cs.EditStep?
  }

  /** The protocol's step and the cache's: the same record where one transaction writes rows and journal, the
      same workspace where the server commits one, and otherwise a step of the cache that leaves its records
      alone, or none. A step of the cache by itself goes with the loss of a request that is not there. */
  ghost predicate Joint(c: C.Cache, s: S.System, step: S.Step, cs: Option<C.Step>, c': C.Cache, s': S.System) {
    && S.Next(s, step, s')
    && (if cs.Some? then C.Next(c, cs.value, c') else c' == c)
    && match step
       case Journal(id, predecessors, changes) => Begun(cs, id, predecessors, changes)
       case RecoverMirror(id, Adopt(changes)) => id in s.mirror && Begun(cs, id, s.mirror[id].predecessors, changes)
       case Confirm(id, projected) =>
         && cs.Some?
         && if projected
            then cs.value.AcknowledgeStep? && cs.value.r.commandId == id
                 && id in s.receipts && cs.value.revision + 1 == s.receipts[id]
            else cs.value == C.HoldStep({id}, ProjectionPending)
       case ConfirmEmpty(id) => cs.Some? && cs.value.ConfirmEmptyStep? && cs.value.r.commandId == id
       case Acknowledge(_) => s.flight.Waiting? && cs == Some(C.HoldStep({s.flight.id}, ProjectionPending))
       case Reject(id, _, _) => cs.Some? && cs.value.RejectStep? && cs.value.r.commandId == id
       case RollbackFail(_, _, rows) => cs == Some(C.HoldStep(rows, RollbackPending))
       case Restore(_) =>
         && s.flight.Recovering? && cs.Some? && cs.value.InstallStep? && cs.value.revision == s.flight.read.revision
         && Paired(c.pending, cs.value.confirmed, cs.value.kept, s'.journal)
       case Handle(_, v, w) => if v.Committed? then cs == Some(C.CommitStep(w)) else Idling(cs)
       case OtherWrite(w) => cs == Some(C.CommitStep(w))
       case _ => Idling(cs)
  }

  predicate Idling(cs: Option<C.Step>) {
    cs.Some? ==> Local(cs.value)
  }

  predicate Begun(cs: Option<C.Step>, id: string, predecessors: set<string>, changes: seq<EntityChange>) {
    && cs.Some? && cs.value.BeginStep? && cs.value.r.state == Active
    && cs.value.r.commandId == id && cs.value.r.predecessors == predecessors && cs.value.r.changes == changes
  }

  lemma JournalTogether(c: C.Cache, s: S.System, r: Interaction, c': C.Cache, s': S.System)
    requires Together(c, s) && C.Begins(c, r, c') && r.state == Active
    requires S.Journals(s, r.commandId, r.predecessors, r.changes, s')
    ensures Together(c', s')
  {
    AgreeBegun(c.pending, c.log, s.journal, r, s'.journal[r.commandId]);
  }

  lemma AdoptTogether(c: C.Cache, s: S.System, r: Interaction, c': C.Cache, s': S.System)
    requires Together(c, s) && C.Begins(c, r, c') && r.state == Active
    requires S.RecoversMirror(s, r.commandId, S.Adopt(r.changes), s')
             && r.predecessors == s.mirror[r.commandId].predecessors
    ensures Together(c', s')
  {
    AgreeBegun(c.pending, c.log, s.journal, r, s'.journal[r.commandId]);
  }

  lemma AcknowledgedRecord(c: C.Cache, r: Interaction, priors: seq<Interaction>, later: seq<Interaction>,
                           accepted: seq<EntityChange>, settled: seq<EntityChange>, revision: nat, c': C.Cache)
    requires C.Acknowledges(c, r, priors, later, accepted, settled, revision, c')
    ensures r in c.pending && c'.pending == Drop(c.pending, {r.commandId}) && c'.log == c.log + [C.Confirm(r, accepted)]
  {}

  lemma ConfirmTogether(c: C.Cache, s: S.System, r: Interaction, priors: seq<Interaction>, later: seq<Interaction>,
                        accepted: seq<EntityChange>, settled: seq<EntityChange>, revision: nat, c': C.Cache,
                          s': S.System)
    requires Together(c, s) && S.Confirms(s, r.commandId, true, s')
    requires C.Acknowledges(c, r, priors, later, accepted, settled, revision, c')
    ensures Together(c', s')
  {
    AcknowledgedRecord(c, r, priors, later, accepted, settled, revision, c');
    assert Same(r, s.journal);
    AgreeConfirmed(c.pending, c.log, s.journal, r, accepted, s'.journal[r.commandId]);
  }

  lemma ConfirmEmptyTogether(c: C.Cache, s: S.System, r: Interaction, c': C.Cache, s': S.System)
    requires Together(c, s) && C.ConfirmsEmpty(c, r, c') && S.ConfirmsEmpty(s, r.commandId, s')
    ensures Together(c', s')
  {
    assert Same(r, s.journal);
    AgreeConfirmed(c.pending, c.log, s.journal, r, [], s'.journal[r.commandId]);
  }

  /** One row that waits, in both views. */
  lemma WaitTogether(c: C.Cache, j: Rows, id: string, c': C.Cache, j': Rows)
    requires Agree(c.pending, c.log, j) && C.Holds(c, {id}, ProjectionPending, c') && S.Open(j, id)
    requires id in j' && j' == j[id := j'[id]] && j'[id].state == ProjectionPending
             && j'[id].predecessors == j[id].predecessors
    ensures Agree(c'.pending, c'.log, j')
  {
    AgreeHeld(c.pending, c.log, j, {id}, ProjectionPending, j');
  }

  lemma RejectedRecords(c: C.Cache, root: Interaction, order: seq<Interaction>, c': C.Cache)
    requires C.Rejects(c, root, order, c')
    ensures root in c.pending && IsCascade(c.pending, root.commandId, order)
    ensures c'.pending == Drop(c.pending, Ids([root] + order)) && c'.log == c.log
    ensures Ids([root] + order) == {root.commandId} + Ids(order)
  {
    var all := [root] + order;
    assert all[0] == root;
    forall id ensures id in Ids(all) <==> id in {root.commandId} + Ids(order) {
      if id in Ids(order) {
        var x :| x in order && x.commandId == id;
        assert x in all;
      }
    }
  }

  /** A rejection unwinds from the cache exactly what it withdraws in the journal. */
  lemma RejectTogether(c: C.Cache, s: S.System, root: Interaction, order: seq<Interaction>, state: JournalState,
                       ids: seq<string>, c': C.Cache, s': S.System)
    requires Together(c, s) && C.Rejects(c, root, order, c') && S.Rejects(s, root.commandId, state, ids, s')
    ensures Together(c', s')
    ensures forall id :: id in ids <==> id in Ids([root] + order)
  {
    RejectedRecords(c, root, order, c');
    DependentsAlike(c.pending, c.log, s.journal, root.commandId, order);
    RejectedRows(s, root.commandId, state, ids, s');
    AgreeRejected(c.pending, c.log, s.journal, Ids([root] + order), s'.journal);
  }

  lemma RejectedRows(s: S.System, root: string, state: JournalState, ids: seq<string>, s': S.System)
    requires S.Rejects(s, root, state, ids, s')
    ensures var all := {root} + S.Dependents(s.journal, root);
            && s'.journal.Keys == s.journal.Keys
            && (forall id | id in s.journal :: s'.journal[id].predecessors == s.journal[id].predecessors
                                               && (if id in all then S.Refusal(s'.journal[id].state)
                                                   else s'.journal[id].state == s.journal[id].state))
            && (forall id | id in all && id in s.journal :: S.Open(s.journal, id))
            && forall id :: id in ids <==> id in all
  {
    Safety.DependentsOpen(s.journal, root);
  }

  lemma RollbackTogether(c: C.Cache, s: S.System, root: string, marked: set<string>, rows: set<string>, c': C.Cache,
                         s': S.System)
    requires Together(c, s) && C.Holds(c, rows, RollbackPending, c') && S.RollbackFails(s, root, marked, rows, s')
    ensures Together(c', s')
  {
    Safety.DependentsOpen(s.journal, root);
    AgreeHeld(c.pending, c.log, s.journal, rows, RollbackPending, s'.journal);
  }

  lemma LastReplayed(c: C.Cache, kept: seq<Interaction>, c': C.Cache) returns (mid: C.Cache)
    requires kept != [] && C.Replays(c, kept, c')
    ensures C.Replays(c, kept[..|kept| - 1], mid)
    ensures c'.log == mid.log && c'.pending == mid.pending + [kept[|kept| - 1]]
    ensures c'.history == mid.history && c'.version == mid.version
  {
    mid := C.ReplaySplit(c, kept, c');
  }

  lemma {:induction false} ReplayedRecords(c: C.Cache, kept: seq<Interaction>, c': C.Cache)
    requires C.Replays(c, kept, c')
    ensures c'.log == c.log && c'.pending == c.pending + kept
    ensures c'.history == c.history && c'.version == c.version
    decreases |kept|
  {
    if kept != [] {
      var mid := LastReplayed(c, kept, c');
      ReplayedRecords(c, kept[..|kept| - 1], mid);
      assert kept == kept[..|kept| - 1] + [kept[|kept| - 1]];
    }
  }

  lemma InstalledRecords(c: C.Cache, revision: nat, receipts: map<string, nat>, confirmed: seq<Interaction>,
                         kept: seq<Interaction>, c': C.Cache)
    requires C.Installs(c, revision, receipts, confirmed, kept, c')
    ensures c'.log == c.log + confirmed && c'.pending == kept
  {
    var mid :| C.Resets(c, revision, confirmed, mid) && C.Replays(mid, kept, c');
    ReplayedRecords(mid, kept, c');
  }

  /** Steps of the cache that are about no record. */
  lemma RecordsKept(c: C.Cache, step: C.Step, c': C.Cache)
    requires C.Next(c, step, c')
    requires Local(step) || step.CommitStep?
    ensures c'.pending == c.pending && c'.log == c.log
  {}

  /** The protocol's steps that write no row of a command that is in the cache. */
  predicate Elsewhere(step: S.Step) {
    match step
    case Journal(_, _, _) => false
    case RecoverMirror(_, how) => !how.Adopt?
    case Confirm(_, _) => false
    case ConfirmEmpty(_) => false
    case Acknowledge(_) => false
    case Reject(_, _, _) => false
    case RollbackFail(_, _, _) => false
    case Restore(_) => false
    case _ => true
  }

  lemma ElsewhereKeepsRow(s: S.System, step: S.Step, s': S.System, id: string)
    requires S.Next(s, step, s') && Elsewhere(step) && id in s.journal
    ensures id in s'.journal && s'.journal[id] == s.journal[id]
  {
    if Safety.Outward(step) {
      Safety.OutwardKeepsRow(s, step, s', id);
    }
  }

  lemma ElsewhereShowsNothing(s: S.System, step: S.Step, s': S.System, id: string)
    requires Safety.Inv(s) && S.Next(s, step, s') && Elsewhere(step) && id in s'.journal && id !in s.journal
    ensures S.Refusal(s'.journal[id].state)
  {
    if step.PreparationFail? || step.RecoverMirror? {
      Order.NewRowIsFresh(s, step, s', id);
    } else {
      Order.NoNewRows(s, step, s');
    }
  }

  lemma ElsewhereTogether(c: C.Cache, s: S.System, step: S.Step, c': C.Cache, s': S.System)
    requires Together(c, s) && Safety.Inv(s) && S.Next(s, step, s') && Elsewhere(step)
    requires c'.pending == c.pending && c'.log == c.log
    ensures Together(c', s')
  {
    forall id | id in s.journal ensures id in s'.journal && s'.journal[id] == s.journal[id] {
      ElsewhereKeepsRow(s, step, s', id);
    }
    forall id | id in s'.journal && id !in s.journal ensures S.Refusal(s'.journal[id].state) {
      ElsewhereShowsNothing(s, step, s', id);
    }
    AgreeElsewhere(c.pending, c.log, s.journal, s'.journal);
  }

  lemma AgreeElsewhere(pending: seq<Interaction>, log: seq<Interaction>, j: Rows, j': Rows)
    requires Agree(pending, log, j) && forall id | id in j :: id in j' && j'[id] == j[id]
    requires forall id | id in j' && id !in j :: S.Refusal(j'[id].state)
    ensures Agree(pending, log, j')
  {
    forall p | p in pending ensures Same(p, j') && Unsettled(p.state) {
      assert Same(p, j);
    }
  }

  lemma StartTogether(c: C.Cache, s: S.System)
    requires C.Initial(c) && S.Initial(s)
    ensures Together(c, s)
  {}

  lemma ReceiptTogether(c: C.Cache, s: S.System, id: string, projected: bool, cs: C.Step, c': C.Cache, s': S.System)
    requires Together(c, s) && Joint(c, s, S.Confirm(id, projected), Some(cs), c', s')
    ensures Together(c', s')
  {
    if projected {
      ConfirmTogether(c, s, cs.r, cs.priors, cs.later, cs.accepted, cs.settled, cs.revision, c', s');
    } else {
      WaitTogether(c, s.journal, id, c', s'.journal);
    }
  }

  lemma ReplyTogether(c: C.Cache, s: S.System, step: S.Step, cs: C.Step, c': C.Cache, s': S.System)
    requires Together(c, s) && Joint(c, s, step, Some(cs), c', s')
    requires step.ConfirmEmpty? || step.Acknowledge?
    ensures Together(c', s')
  {
    if step.ConfirmEmpty? {
      ConfirmEmptyTogether(c, s, cs.r, c', s');
    } else {
      WaitTogether(c, s.journal, s.flight.id, c', s'.journal);
    }
  }

  lemma WriteTogether(c: C.Cache, s: S.System, step: S.Step, cs: C.Step, c': C.Cache, s': S.System)
    requires Together(c, s) && Joint(c, s, step, Some(cs), c', s')
    requires step.Journal? || (step.RecoverMirror? && step.how.Adopt?)
    ensures Together(c', s')
  {
    if step.Journal? {
      JournalTogether(c, s, cs.r, c', s');
    } else {
      AdoptTogether(c, s, cs.r, c', s');
    }
  }

  lemma RefuseTogether(c: C.Cache, s: S.System, step: S.Step, cs: C.Step, c': C.Cache, s': S.System)
    requires Together(c, s) && Joint(c, s, step, Some(cs), c', s')
    requires step.Reject? || step.RollbackFail?
    ensures Together(c', s')
  {
    match step
    case Reject(_, state, ids) => RejectTogether(c, s, cs.r, cs.later, state, ids, c', s');
    case RollbackFail(root, marked, rows) => RollbackTogether(c, s, root, marked, rows, c', s');
  }

  /** One open row after a full read: as it was, or settled. */
  lemma RestoredOpen(s: S.System, refused: set<string>, s': S.System, id: string)
    requires S.Restores(s, refused, s') && id in s.journal
    ensures id in s'.journal && s'.journal[id].predecessors == s.journal[id].predecessors
    ensures S.Open(s'.journal, id) || !S.Open(s.journal, id) ==> s'.journal[id] == s.journal[id]
  {
    Safety.RestoredAt(s, refused, s', id);
  }

  /** The agreement before a full read and the pairing of what it writes give the agreement after it. */
  lemma AgreePaired(pending: seq<Interaction>, log: seq<Interaction>, s: S.System, refused: set<string>,
                    confirmed: seq<Interaction>, kept: seq<Interaction>, s': S.System)
    requires Agree(pending, log, s.journal) && S.Restores(s, refused, s')
    requires Paired(pending, confirmed, kept, s'.journal)
    ensures Agree(kept, log + confirmed, s'.journal)
  {
    var j, j' := s.journal, s'.journal;
    forall k | k in kept ensures Same(k, j') && Unsettled(k.state) {
      var p :| p in pending && Renewed(k, p, p.state);
      assert Same(p, j);
      RestoredOpen(s, refused, s', k.commandId);
    }
    forall id | S.Open(j', id) ensures id in Ids(kept) {
      RestoredOpen(s, refused, s', id);
      var p := RecordOf(pending, log, j, id);
    }
    forall x | x in log + confirmed
      ensures S.In(j', x.commandId, Confirmed) && j'[x.commandId].predecessors == x.predecessors
    {
      if x in log {
        RestoredOpen(s, refused, s', x.commandId);
      } else {
        var p :| p in pending && Renewed(x, p, Confirmed);
        assert Same(p, j);
        RestoredOpen(s, refused, s', x.commandId);
      }
    }
    forall id | S.In(j', id, Confirmed) ensures id in Ids(log + confirmed) {
      RestoredOpen(s, refused, s', id);
      if S.Open(j, id) {
        var p := RecordOf(pending, log, j, id);
        var x :| x in confirmed && x.commandId == id;
        assert x in log + confirmed;
      } else {
        assert S.In(j, id, Confirmed);
        var x :| x in log && x.commandId == id;
        assert x in log + confirmed;
      }
    }
  }

  lemma RestoreTogether(c: C.Cache, s: S.System, refused: set<string>, cs: C.Step, c': C.Cache, s': S.System)
    requires Together(c, s) && Joint(c, s, S.Restore(refused), Some(cs), c', s')
    ensures Together(c', s')
  {
    InstalledRecords(c, cs.revision, cs.receipts, cs.confirmed, cs.kept, c');
    AgreePaired(c.pending, c.log, s, refused, cs.confirmed, cs.kept, s');
  }

  lemma ElsewhereRecords(c: C.Cache, s: S.System, step: S.Step, cs: Option<C.Step>, c': C.Cache, s': S.System)
    requires Joint(c, s, step, cs, c', s') && Elsewhere(step)
    ensures c'.pending == c.pending && c'.log == c.log
  {
    if cs.Some? {
      RecordsKept(c, cs.value, c');
    }
  }

  lemma RecordedTogether(c: C.Cache, s: S.System, step: S.Step, cs: Option<C.Step>, c': C.Cache, s': S.System)
    requires Together(c, s) && Joint(c, s, step, cs, c', s') && !Elsewhere(step)
    ensures Together(c', s')
  {
    if step.Confirm? {
      ReceiptTogether(c, s, step.id, step.projected, cs.value, c', s');
    } else if step.ConfirmEmpty? || step.Acknowledge? {
      ReplyTogether(c, s, step, cs.value, c', s');
    } else if step.Journal? || step.RecoverMirror? {
      WriteTogether(c, s, step, cs.value, c', s');
    } else if step.Restore? {
      RestoreTogether(c, s, step.refused, cs.value, c', s');
    } else {
      RefuseTogether(c, s, step, cs.value, c', s');
    }
  }

  /** Every joint step keeps the two views of the journal equal. */
  lemma NextTogether(c: C.Cache, s: S.System, step: S.Step, cs: Option<C.Step>, c': C.Cache, s': S.System)
    requires Together(c, s) && Safety.Inv(s) && Joint(c, s, step, cs, c', s')
    ensures Together(c', s')
  {
    if Elsewhere(step) {
      ElsewhereRecords(c, s, step, cs, c', s');
      ElsewhereTogether(c, s, step, c', s');
    } else {
      RecordedTogether(c, s, step, cs, c', s');
    }
  }

  // ---------------------------------------------------------------------------------------
  // The server that both are about
  // ---------------------------------------------------------------------------------------

  /** The cache's history ends in the protocol's snapshot, and a recovery has read one of its revisions. */
  ghost predicate Tied(c: C.Cache, s: S.System) {
    && |c.history| == s.revision + 1 && c.history[s.revision] == s.snapshot
    && (s.flight.Recovering? ==>
          s.flight.read.revision < |c.history| && c.history[s.flight.read.revision] == s.flight.read.snapshot)
  }

  predicate Commits(step: S.Step) {
    (step.Handle? && step.v.Committed?) || step.OtherWrite?
  }

  lemma ServerMoves(s: S.System, step: S.Step, s': S.System)
    requires S.Next(s, step, s')
    ensures if Commits(step) then s'.revision == s.revision + 1 && s'.snapshot == step.w
            else s'.revision == s.revision && s'.snapshot == s.snapshot
  {}

  lemma HistoryStays(c: C.Cache, cs: C.Step, c': C.Cache)
    requires C.Next(c, cs, c') && !cs.CommitStep?
    ensures c'.history == c.history && c'.version >= c.version
  {
    if cs.InstallStep? {
      var mid :| C.Resets(c, cs.revision, cs.confirmed, mid) && C.Replays(mid, cs.kept, c');
      ReplayedRecords(mid, cs.kept, c');
    }
  }

  lemma OneCommits(c: C.Cache, s: S.System, step: S.Step, cs: Option<C.Step>, c': C.Cache, s': S.System)
    requires Joint(c, s, step, cs, c', s')
    ensures if Commits(step) then cs == Some(C.CommitStep(step.w)) else cs.Some? ==> !cs.value.CommitStep?
  {}

  lemma HistoryMoves(c: C.Cache, s: S.System, step: S.Step, cs: Option<C.Step>, c': C.Cache, s': S.System)
    requires Joint(c, s, step, cs, c', s')
    ensures c'.history == (if Commits(step) then c.history + [step.w] else c.history) && c'.version >= c.version
  {
    OneCommits(c, s, step, cs, c', s');
    if cs.Some? && !cs.value.CommitStep? {
      HistoryStays(c, cs.value, c');
    }
  }

  lemma NextTied(c: C.Cache, s: S.System, step: S.Step, cs: Option<C.Step>, c': C.Cache, s': S.System)
    requires Tied(c, s) && Joint(c, s, step, cs, c', s')
    ensures Tied(c', s')
  {
    HistoryMoves(c, s, step, cs, c', s');
    ServerMoves(s, step, s');
    if s'.flight.Recovering? {
      Reads.NextRecovering(s, step, s');
    }
  }

  // ---------------------------------------------------------------------------------------
  // Joint runs
  // ---------------------------------------------------------------------------------------

  ghost predicate JointRun(caches: seq<C.Cache>, systems: seq<S.System>, steps: seq<S.Step>,
                           taken: seq<Option<C.Step>>)
  {
    && |caches| == |systems| == |steps| + 1 && |taken| == |steps|
    && C.Initial(caches[0]) && S.Initial(systems[0]) && Tied(caches[0], systems[0])
    && forall i | 0 <= i < |steps| :: Joint(caches[i], systems[i], steps[i], taken[i], caches[i + 1], systems[i + 1])
  }

  lemma JointStep(caches: seq<C.Cache>, systems: seq<S.System>, steps: seq<S.Step>, taken: seq<Option<C.Step>>, k: nat)
    requires JointRun(caches, systems, steps, taken) && k < |steps|
    ensures Joint(caches[k], systems[k], steps[k], taken[k], caches[k + 1], systems[k + 1])
  {}

  /** The protocol's half of a joint run is a run of it. */
  lemma SystemHalf(caches: seq<C.Cache>, systems: seq<S.System>, steps: seq<S.Step>, taken: seq<Option<C.Step>>)
    requires JointRun(caches, systems, steps, taken)
    ensures S.Run(systems, steps)
  {
    forall i | 0 <= i < |steps| ensures S.Next(systems[i], steps[i], systems[i + 1]) {
      JointStep(caches, systems, steps, taken, i);
    }
  }

  /** The cache's half is a run of the optimistic cache with pauses. */
  lemma {:induction false} CacheHalf(caches: seq<C.Cache>, systems: seq<S.System>, steps: seq<S.Step>,
                                     taken: seq<Option<C.Step>>, n: nat)
    requires JointRun(caches, systems, steps, taken) && n <= |steps|
    ensures C.Inv(caches[n])
    decreases n
  {
    if n == 0 {
      C.RunInv([caches[0]], [], 0);
    } else {
      CacheHalf(caches, systems, steps, taken, n - 1);
      CacheStep(caches, systems, steps, taken, n - 1);
    }
  }

  lemma CacheStep(caches: seq<C.Cache>, systems: seq<S.System>, steps: seq<S.Step>, taken: seq<Option<C.Step>>, k: nat)
    requires JointRun(caches, systems, steps, taken) && k < |steps| && C.Inv(caches[k])
    ensures C.Inv(caches[k + 1])
  {
    JointStep(caches, systems, steps, taken, k);
    if taken[k].Some? {
      C.NextInv(caches[k], taken[k].value, caches[k + 1]);
    }
  }

  lemma {:induction false} AlwaysTogether(caches: seq<C.Cache>, systems: seq<S.System>, steps: seq<S.Step>,
                                          taken: seq<Option<C.Step>>, n: nat)
    requires JointRun(caches, systems, steps, taken) && n <= |steps|
    ensures Together(caches[n], systems[n])
    decreases n
  {
    if n == 0 {
      StartTogether(caches[0], systems[0]);
    } else {
      AlwaysTogether(caches, systems, steps, taken, n - 1);
      StaysTogether(caches, systems, steps, taken, n - 1);
    }
  }

  lemma StaysTogether(caches: seq<C.Cache>, systems: seq<S.System>, steps: seq<S.Step>, taken: seq<Option<C.Step>>,
                      k: nat)
    requires JointRun(caches, systems, steps, taken) && k < |steps| && Together(caches[k], systems[k])
    ensures Together(caches[k + 1], systems[k + 1])
  {
    JointStep(caches, systems, steps, taken, k);
    SystemHalf(caches, systems, steps, taken);
    Safety.RunInv(systems, steps, k);
    NextTogether(caches[k], systems[k], steps[k], taken[k], caches[k + 1], systems[k + 1]);
  }

  lemma {:induction false} AlwaysTied(caches: seq<C.Cache>, systems: seq<S.System>, steps: seq<S.Step>,
                                      taken: seq<Option<C.Step>>, n: nat)
    requires JointRun(caches, systems, steps, taken) && n <= |steps|
    ensures Tied(caches[n], systems[n])
    decreases n
  {
    if n > 0 {
      AlwaysTied(caches, systems, steps, taken, n - 1);
      StaysTied(caches, systems, steps, taken, n - 1);
    }
  }

  lemma StaysTied(caches: seq<C.Cache>, systems: seq<S.System>, steps: seq<S.Step>, taken: seq<Option<C.Step>>, k: nat)
    requires JointRun(caches, systems, steps, taken) && k < |steps|
    ensures Tied(caches[k], systems[k]) ==> Tied(caches[k + 1], systems[k + 1])
    ensures caches[k + 1].version >= caches[k].version
    ensures caches[k].history <= caches[k + 1].history && |caches[k + 1].history| <= |caches[k].history| + 1
  {
    JointStep(caches, systems, steps, taken, k);
    var c, s, c', s' := caches[k], systems[k], caches[k + 1], systems[k + 1];
    HistoryMoves(c, s, steps[k], taken[k], c', s');
    if Tied(c, s) {
      NextTied(c, s, steps[k], taken[k], c', s');
    }
  }

  /** The protocol's server stood at the revision with the workspace. */
  ghost predicate Stood(systems: seq<S.System>, n: nat, revision: nat, w: Workspace)
    requires n < |systems|
  {
    exists k | 0 <= k <= n :: systems[k].revision == revision && systems[k].snapshot == w
  }

  lemma StoodLater(systems: seq<S.System>, n: nat, revision: nat, w: Workspace)
    requires n + 1 < |systems| && Stood(systems, n, revision, w)
    ensures Stood(systems, n + 1, revision, w)
  {
    var k :| 0 <= k <= n && systems[k].revision == revision && systems[k].snapshot == w;
    assert k <= n + 1;
  }

  /** Every workspace in the cache's history since the first read is one that the protocol's server held at
      that revision, and the cache's version is among them. */
  lemma {:induction false} HistoryIsServers(caches: seq<C.Cache>, systems: seq<S.System>, steps: seq<S.Step>,
                                            taken: seq<Option<C.Step>>, n: nat, revision: nat)
    requires JointRun(caches, systems, steps, taken) && n <= |steps|
    ensures caches[n].version >= systems[0].revision
    ensures systems[0].revision <= revision < |caches[n].history| ==>
              Stood(systems, n, revision, caches[n].history[revision])
    decreases n
  {
    AlwaysTied(caches, systems, steps, taken, n);
    if n > 0 {
      HistoryIsServers(caches, systems, steps, taken, n - 1, revision);
      StaysTied(caches, systems, steps, taken, n - 1);
      if systems[0].revision <= revision < |caches[n - 1].history| {
        StoodLater(systems, n - 1, revision, caches[n - 1].history[revision]);
      }
    }
  }

  /** In every state of every joint run, an undisturbed cached row is the last incorporated authoritative row
      under the changes of exactly the commands whose journal rows are open, in order; and a base that
      incorporates no gap is what the server held at the cached revision. */
  lemma CacheShowsOpenCommands(caches: seq<C.Cache>, systems: seq<S.System>, steps: seq<S.Step>,
                               taken: seq<Option<C.Step>>, n: nat, e: EntityKey)
    requires JointRun(caches, systems, steps, taken) && n <= |steps| && e !in caches[n].disturbed
    ensures var c, s := caches[n], systems[n];
            && Lookup(c.rows, e) == RowChain.Fold(Lookup(c.base, e), ChangesOf(On(c.pending, e), e))
            && Ids(c.pending) == (set id | id in s.journal && S.Open(s.journal, id))
            && Ids(c.log) == (set id | id in s.journal && S.In(s.journal, id, Confirmed))
            && (c.level ==> Stood(systems, n, c.version, c.base))
  {
    var c, s := caches[n], systems[n];
    CacheHalf(caches, systems, steps, taken, n);
    AlwaysTogether(caches, systems, steps, taken, n);
    HistoryIsServers(caches, systems, steps, taken, n, c.version);
    SameIds(c.pending, c.log, s.journal);
    assert C.EntitySound(c, e);
    C.LinksChanges(c.log, On(c.pending, e), e);
  }

  lemma SameIds(pending: seq<Interaction>, log: seq<Interaction>, j: Rows)
    requires Agree(pending, log, j)
    ensures Ids(pending) == set id | id in j && S.Open(j, id)
    ensures Ids(log) == set id | id in j && S.In(j, id, Confirmed)
  {
    forall id | id in Ids(pending) ensures S.Open(j, id) {
      var p :| p in pending && p.commandId == id;
      assert Same(p, j);
    }
  }

  lemma NoOpenRows(pending: seq<Interaction>, log: seq<Interaction>, j: Rows)
    requires Agree(pending, log, j) && forall id | id in j :: !S.Open(j, id)
    ensures pending == []
  {
    if pending != [] {
      assert Same(pending[0], j);
      assert S.Open(j, pending[0].commandId);
    }
  }

  /** Joint runs converge: once no journal row is open, an undisturbed cache that has incorporated everything
      up to the server's revision is the server's workspace. */
  lemma JointRunConverges(caches: seq<C.Cache>, systems: seq<S.System>, steps: seq<S.Step>,
                          taken: seq<Option<C.Step>>, n: nat)
    requires JointRun(caches, systems, steps, taken) && n <= |steps|
    requires forall id | id in systems[n].journal :: !S.Open(systems[n].journal, id)
    requires caches[n].disturbed == {} && caches[n].level && caches[n].version == systems[n].revision
    ensures caches[n].rows == systems[n].snapshot
  {
    var c, s := caches[n], systems[n];
    CacheHalf(caches, systems, steps, taken, n);
    AlwaysTogether(caches, systems, steps, taken, n);
    AlwaysTied(caches, systems, steps, taken, n);
    NoOpenRows(c.pending, c.log, s.journal);
    forall e ensures Lookup(c.rows, e) == Lookup(c.base, e) {
      CacheShowsOpenCommands(caches, systems, steps, taken, n, e);
      assert On(c.pending, e) == [];
    }
    WorkspacesEqual(c.rows, c.base);
  }

  lemma InstalledRow(c: C.Cache, revision: nat, receipts: map<string, nat>, confirmed: seq<Interaction>,
                     kept: seq<Interaction>, c': C.Cache, e: EntityKey)
    requires C.Installs(c, revision, receipts, confirmed, kept, c')
    ensures revision < |c.history|
    ensures RowChain.Rebuild(Lookup(c.history[revision], e), ChangesOf(On(c'.pending, e), e))
            == Some(Lookup(c'.rows, e))
  {
    InstalledRecords(c, revision, receipts, confirmed, kept, c');
    var mid :| C.Resets(c, revision, confirmed, mid) && C.Replays(mid, kept, c');
    C.ReplayFolds(mid, kept, c', e);
  }

  /** The cache's half of a full read. */
  lemma FullReadRow(c: C.Cache, s: S.System, step: S.Step, cs: Option<C.Step>, c': C.Cache, s': S.System, e: EntityKey)
    requires Joint(c, s, step, cs, c', s') && step.Restore? && Tied(c, s)
    ensures s.flight.Recovering?
    ensures RowChain.Rebuild(Lookup(s.flight.read.snapshot, e), ChangesOf(On(c'.pending, e), e))
            == Some(Lookup(c'.rows, e))
  {
    InstalledRow(c, cs.value.revision, cs.value.receipts, cs.value.confirmed, cs.value.kept, c', e);
  }

  /** A full read heals: whatever was cached before, each row afterwards is the row that the server held when
      it was read, with the changes of exactly the commands whose rows the read leaves open patched over it in
      order. So when it leaves none open the cache is what was read. */
  lemma FullReadHeals(caches: seq<C.Cache>, systems: seq<S.System>, steps: seq<S.Step>,
                      taken: seq<Option<C.Step>>, n: nat, e: EntityKey)
    requires JointRun(caches, systems, steps, taken) && n < |steps| && steps[n].Restore?
    ensures systems[n].flight.Recovering?
    ensures var c', s', read := caches[n + 1], systems[n + 1], systems[n].flight.read;
            && Stood(systems, n, read.revision, read.snapshot)
            && RowChain.Rebuild(Lookup(read.snapshot, e), ChangesOf(On(c'.pending, e), e)) == Some(Lookup(c'.rows, e))
            && Ids(c'.pending) == (set id | id in s'.journal && S.Open(s'.journal, id))
            && ((forall id | id in s'.journal :: !S.Open(s'.journal, id)) ==>
                  Lookup(c'.rows, e) == Lookup(read.snapshot, e))
  {
    var c', s' := caches[n + 1], systems[n + 1];
    AlwaysTied(caches, systems, steps, taken, n);
    JointStep(caches, systems, steps, taken, n);
    FullReadRow(caches[n], systems[n], steps[n], taken[n], c', s', e);
    SystemHalf(caches, systems, steps, taken);
    var k := Reads.ReadIsServers(systems, steps, n);
    AlwaysTogether(caches, systems, steps, taken, n + 1);
    SameIds(c'.pending, c'.log, s'.journal);
    if forall id | id in s'.journal :: !S.Open(s'.journal, id) {
      NoOpenRows(c'.pending, c'.log, s'.journal);
      assert On(c'.pending, e) == [];
    }
  }

  /** Once a command is settled in the journal, no later state of the cache shows its change as pending, and
      it is never sent again. */
  lemma SettledIsNeverShown(caches: seq<C.Cache>, systems: seq<S.System>, steps: seq<S.Step>,
                            taken: seq<Option<C.Step>>, i: nat, n: nat, id: string)
    requires JointRun(caches, systems, steps, taken) && i <= n <= |steps|
    requires id in systems[i].journal && Terminal(systems[i].journal[id].state)
    ensures id !in Ids(caches[n].pending)
    ensures id in Ids(caches[n].log) <==> systems[i].journal[id].state == Confirmed
    ensures |systems[i].sent| <= |systems[n].sent| && id !in systems[n].sent[|systems[i].sent|..]
  {
    SystemHalf(caches, systems, steps, taken);
    Safety.TerminalForever(systems, steps, i, n, id);
    AlwaysTogether(caches, systems, steps, taken, n);
    SameIds(caches[n].pending, caches[n].log, systems[n].journal);
  }
}
