/**
 What else holds in every state of every run of the connected protocol: dependencies follow the
 order of reservation, no reservation is lost, the checkpoint never passes unread facts, and a
 command that left the active state never becomes active again.
 */
module ConnectedOrder {
  import opened Wrappers
  import opened Interactions
  import opened WorkspaceDelta
  import opened Receiptless
  import opened ConnectedSystem
  import opened ConnectedSafety

  // ---------------------------------------------------------------------------------------
  // The order of reservation
  // ---------------------------------------------------------------------------------------

  /** The predecessor was reserved first; only a failed Undo may name something that never was. */
  predicate Follows(created: seq<string>, row: JournalRow, id: string, p: string) {
    Before(created, p, id) || (row.target == Some(p) && Terminal(row.state))
  }

  ghost predicate RowPlaced(created: seq<string>, row: JournalRow, id: string) {
    forall p | p in row.predecessors :: Follows(created, row, id, p)
  }

  ghost predicate EntryPlaced(created: seq<string>, e: Entry, y: string) {
    e.target.None? ==> forall p | p in e.predecessors :: Before(created, p, y)
  }

  ghost predicate Placed(created: seq<string>, j: map<string, JournalRow>, m: map<string, Entry>) {
    && Distinct(created)
    && (forall x | x in created :: x in j || x in m)
    && (forall y | y in m :: EntryPlaced(created, m[y], y) && (m[y].status.Quarantined? ==> m[y].status.root in j))
    && (forall id | id in j :: RowPlaced(created, j[id], id))
  }

  lemma BeforeKnown(created: seq<string>, a: string, b: string)
    requires Before(created, a, b)
    ensures a in created && b in created
  {
    var i, j :| 0 <= i < j < |created| && created[i] == a && created[j] == b;
  }

  lemma BeforeGrows(created: seq<string>, x: string, a: string, b: string)
    ensures Before(created, a, b) ==> Before(created + [x], a, b)
    ensures a in created ==> Before(created + [x], a, x)
  {
    var more := created + [x];
    if Before(created, a, b) {
      var i, j :| 0 <= i < j < |created| && created[i] == a && created[j] == b;
      assert more[i] == a && more[j] == b;
    }
    if a in created {
      var i :| 0 <= i < |created| && created[i] == a;
      assert more[i] == a && more[|created|] == x;
    }
  }

  // ---------------------------------------------------------------------------------------
  // One row through one step
  // ---------------------------------------------------------------------------------------

  /** A stored row keeps its links, and moves only forward. */
  ghost predicate Forward(row: JournalRow, row': JournalRow, id: string, receipts: map<string, nat>,
                          incorporated: set<nat>)
  {
    && row'.predecessors == row.predecessors && row'.target == row.target
    && (Terminal(row.state) ==> row' == row)
    && (row'.state == Active ==> row' == row)
    && (row'.state == ProjectionPending ==> row.state == ProjectionPending || id in receipts || row'.noOp.Some?)
    && (row'.noOp != row.noOp ==> row'.state == ProjectionPending && row'.noOp.Some?)
    && (row'.revision == row.revision || (row'.revision.Some? && row'.revision.value in incorporated))
  }

  lemma RejectForward(s: System, root: string, state: JournalState, order: seq<string>, s': System, id: string)
    requires Rejects(s, root, state, order, s') && id in s.journal
    ensures id in s'.journal && Forward(s.journal[id], s'.journal[id], id, s'.receipts, s'.incorporated)
  {
    DependentsOpen(s.journal, root);
  }

  lemma RollbackForward(s: System, root: string, marked: set<string>, rows: set<string>, s': System, id: string)
    requires RollbackFails(s, root, marked, rows, s') && id in s.journal
    ensures id in s'.journal && Forward(s.journal[id], s'.journal[id], id, s'.receipts, s'.incorporated)
  {
    DependentsOpen(s.journal, root);
  }

  lemma SettlingForward(s: System, step: Step, s': System, id: string)
    requires Next(s, step, s') && !Outward(step) && !step.Reject? && !step.RollbackFail? && !step.Restore?
             && id in s.journal
    ensures id in s'.journal && Forward(s.journal[id], s'.journal[id], id, s'.receipts, s'.incorporated)
  {}

  lemma RestoreForward(s: System, refused: set<string>, s': System, id: string)
    requires Inv(s) && Restores(s, refused, s') && id in s.journal
    ensures id in s'.journal && Forward(s.journal[id], s'.journal[id], id, s'.receipts, s'.incorporated)
  {
    RestoredAt(s, refused, s', id);
    if Open(s.journal, id) && id in s.flight.read.known {
      RestoredForward(s.journal[id], id, s.receipts, s.flight.read, Stale(s.journal, s.flight.read), refused,
                      s'.incorporated);
    }
  }

  lemma RestoredForward(row: JournalRow, id: string, receipts: map<string, nat>, read: Reading, stale: set<string>,
                        refused: set<string>, incorporated: set<nat>)
    requires Unsettled(row.state) && UpTo(read.revision) <= incorporated
    requires id in read.receipts && id in receipts ==> receipts[id] <= read.revision
    ensures Forward(row, RestoredRow(row, id, receipts, read, stale, refused), id, receipts, incorporated)
  {}

  lemma NextForward(s: System, step: Step, s': System, id: string)
    requires Inv(s) && Next(s, step, s') && id in s.journal
    ensures id in s'.journal && Forward(s.journal[id], s'.journal[id], id, s'.receipts, s'.incorporated)
  {
    if Outward(step) {
      OutwardKeepsRow(s, step, s', id);
    } else if step.Reject? {
      RejectForward(s, step.id, step.state, step.order, s', id);
    } else if step.RollbackFail? {
      RollbackForward(s, step.id, step.marked, step.rows, s', id);
    } else if step.Restore? {
      RestoreForward(s, step.refused, s', id);
    } else {
      SettlingForward(s, step, s', id);
    }
  }

  /** A row that is new was reserved before, and takes its links from there. */
  ghost predicate Fresh(s: System, row: JournalRow, id: string) {
    && row.state in {Active, Rejected} && row.noOp.None? && row.revision.None?
    && id in s.mirror && row.target == s.mirror[id].target
    && (row.state == Rejected ==> row.predecessors == s.mirror[id].predecessors)
    && (forall p | p in row.predecessors :: p in s.mirror[id].predecessors || Before(s.created, p, id))
    && (row.state == Active && row.target.Some? ==>
          row.predecessors == {row.target.value} && Before(s.created, row.target.value, id))
  }

  lemma NewRowIsFresh(s: System, step: Step, s': System, id: string)
    requires Inv(s) && Next(s, step, s') && id in s'.journal && id !in s.journal
    ensures Fresh(s, s'.journal[id], id) && s'.created == s.created
  {
    if step.RecoverMirror? {
      RecoveredIsFresh(s, step.id, step.how, s', id);
    } else if step.Journal? || step.PreparationFail? {
      assert step.id == id;
      assert EntryInv(s.mirror[id], id);
    } else {
      NoNewRows(s, step, s');
    }
  }

  lemma RecoveredIsFresh(s: System, id: string, how: MirrorOnly, s': System, x: string)
    requires MirrorInv(s.journal, s.mirror, s.preparing) && RecoversMirror(s, id, how, s') && x in s'.journal
             && x !in s.journal
    ensures Fresh(s, s'.journal[x], x) && s'.created == s.created
  {
    assert x == id;
    assert EntryInv(s.mirror[id], id);
  }

  lemma NoNewRows(s: System, step: Step, s': System)
    requires Next(s, step, s') && !step.Journal? && !step.PreparationFail? && !step.RecoverMirror?
    ensures s'.journal.Keys == s.journal.Keys
  {}

  lemma FreshPlaced(s: System, row: JournalRow, id: string)
    requires Fresh(s, row, id) && EntryPlaced(s.created, s.mirror[id], id) && EntryInv(s.mirror[id], id)
    ensures RowPlaced(s.created, row, id)
  {
    forall p | p in row.predecessors ensures Follows(s.created, row, id, p) {
      if row.target.Some? && row.state == Rejected {
        assert p == row.target.value;
      }
    }
  }

  /** A mirror keeps its links; it goes away only when its row is in the journal. */
  ghost predicate Mirrored(s: System, step: Step, s': System, y: string) {
    && (y in s.mirror && y !in s'.mirror ==> y in s.journal)
    && (y in s'.mirror && y in s.mirror ==>
          && s'.mirror[y].predecessors == s.mirror[y].predecessors && s'.mirror[y].target == s.mirror[y].target
          && (s'.mirror[y].status != s.mirror[y].status && s'.mirror[y].status.Quarantined? ==>
                s'.mirror[y].status.root in s.journal))
    && (y in s'.mirror && y !in s.mirror ==>
          step.Reserve? && step.id == y && s'.mirror[y] == Entry(Pending, step.predecessors, step.target))
  }

  lemma NextMirrored(s: System, step: Step, s': System, y: string)
    requires KnownInv(s.created, s.journal, s.mirror) && Next(s, step, s')
    ensures Mirrored(s, step, s', y)
  {
    if step.RollbackFail? {
      RollbackMirrored(s, step, s', y);
    } else if Prepares(step) {
      PreparesMirrored(s, step, s', y);
    } else if Outward(step) {
      OutwardMirrored(s, step, s', y);
    } else {
      SettlingMirrored(s, step, s', y);
    }
  }

  lemma RollbackMirrored(s: System, step: Step, s': System, y: string)
    requires Next(s, step, s') && step.RollbackFail?
    ensures Mirrored(s, step, s', y)
  {}

  lemma PreparesMirrored(s: System, step: Step, s': System, y: string)
    requires KnownInv(s.created, s.journal, s.mirror) && Next(s, step, s') && Prepares(step)
    ensures Mirrored(s, step, s', y)
  {
    if step.RecoverMirror? {
      RecoverMirrored(s, step.id, step.how, s', y);
    }
  }

  lemma RecoverMirrored(s: System, id: string, how: MirrorOnly, s': System, y: string)
    requires RecoversMirror(s, id, how, s')
    ensures Mirrored(s, RecoverMirror(id, how), s', y)
  {}

  lemma OutwardMirrored(s: System, step: Step, s': System, y: string)
    requires Next(s, step, s') && Outward(step) && !Prepares(step)
    ensures Mirrored(s, step, s', y)
  {}

  lemma SettlingMirrored(s: System, step: Step, s': System, y: string)
    requires Next(s, step, s') && !Outward(step) && !step.RollbackFail?
    ensures Mirrored(s, step, s', y)
  {}

  lemma NextCreated(s: System, step: Step, s': System)
    requires Next(s, step, s')
    ensures s'.created == if step.Reserve? then s.created + [step.id] else s.created
    ensures step.Reserve? ==> step.id !in s.created && s'.journal == s.journal && step.id in s'.mirror
    ensures step.Reserve? && step.target.None? ==> forall p | p in step.predecessors :: p in s.mirror
    ensures s.incorporated <= s'.incorporated
  {
    if Outward(step) {
      OutwardFrame(s, step, s');
    } else {
      SettlingFrame(s, step, s');
    }
  }

  lemma EntriesPlaced(s: System, step: Step, s': System, y: string)
    requires Inv(s) && Placed(s.created, s.journal, s.mirror) && Next(s, step, s') && y in s'.mirror
    ensures EntryPlaced(s'.created, s'.mirror[y], y)
    ensures s'.mirror[y].status.Quarantined? ==> s'.mirror[y].status.root in s.journal
  {
    NextMirrored(s, step, s', y);
    NextCreated(s, step, s');
    if y in s.mirror {
      assert EntryPlaced(s.created, s.mirror[y], y);
      if step.Reserve? {
        forall p | p in s.mirror[y].predecessors ensures Before(s.created, p, y) ==> Before(s'.created, p, y) {
          BeforeGrows(s.created, step.id, p, y);
        }
      }
    } else {
      forall p | p in step.predecessors && step.target.None? ensures Before(s'.created, p, y) {
        BeforeGrows(s.created, y, p, p);
      }
    }
  }

  lemma RowsPlaced(s: System, step: Step, s': System, id: string)
    requires Inv(s) && Placed(s.created, s.journal, s.mirror) && Next(s, step, s') && id in s'.journal
    ensures RowPlaced(s'.created, s'.journal[id], id)
  {
    NextCreated(s, step, s');
    if id in s.journal {
      NextForward(s, step, s', id);
      assert RowPlaced(s.created, s.journal[id], id);
      forall p | p in s.journal[id].predecessors ensures Follows(s'.created, s'.journal[id], id, p) {
        assert Follows(s.created, s.journal[id], id, p);
        if step.Reserve? {
          BeforeGrows(s.created, step.id, p, id);
        }
      }
    } else {
      NewRowIsFresh(s, step, s', id);
      FreshPlaced(s, s'.journal[id], id);
    }
  }

  lemma NextPlaced(s: System, step: Step, s': System)
    requires Inv(s) && Placed(s.created, s.journal, s.mirror) && Next(s, step, s')
    ensures Placed(s'.created, s'.journal, s'.mirror)
  {
    NextCreated(s, step, s');
    forall x | x in s'.created ensures x in s'.journal || x in s'.mirror {
      NextMirrored(s, step, s', x);
      if x in s.journal {
        NextForward(s, step, s', x);
      }
    }
    forall y | y in s'.mirror
      ensures EntryPlaced(s'.created, s'.mirror[y], y)
              && (s'.mirror[y].status.Quarantined? ==> s'.mirror[y].status.root in s'.journal)
    {
      EntriesPlaced(s, step, s', y);
      if s'.mirror[y].status.Quarantined? {
        NextForward(s, step, s', s'.mirror[y].status.root);
      }
    }
    forall id | id in s'.journal ensures RowPlaced(s'.created, s'.journal[id], id) {
      RowsPlaced(s, step, s', id);
    }
    if step.Reserve? {
      DistinctConcat(s.created, [step.id]);
    }
  }

  // ---------------------------------------------------------------------------------------
  // Facts
  // ---------------------------------------------------------------------------------------

  /** Every revision up to the checkpoint is in the cache, by a full read or by its settled receipt,
      also between the replacement of the cache and the checkpoint that follows it. */
  ghost predicate Facts(s: System) {
    && (forall r: nat | r <= s.checkpoint :: r in s.incorporated)
    && (s.flight.Replaced? ==> forall r: nat | r <= s.flight.read.revision :: r in s.incorporated)
    && (forall id | id in s.journal && s.journal[id].revision.Some? :: s.journal[id].revision.value in s.incorporated)
  }

  /** A row whose projection waits has a receipt or a receiptless acknowledgement; one that was
      acknowledged so is not active. */
  ghost predicate Answerable(j: map<string, JournalRow>, receipts: map<string, nat>) {
    forall id | id in j ::
      && (j[id].state == ProjectionPending ==> id in receipts || j[id].noOp.Some?)
      && (j[id].noOp.Some? ==> j[id].state != Active)
  }

  lemma CheckpointFacts(s: System, step: Step, s': System)
    requires Facts(s) && Next(s, step, s')
    ensures forall r: nat | r <= s'.checkpoint :: r in s'.incorporated
    ensures s'.flight.Replaced? ==> forall r: nat | r <= s'.flight.read.revision :: r in s'.incorporated
    ensures s.receipts.Keys <= s'.receipts.Keys
  {
    NextCreated(s, step, s');
    if step.Advance? {
      assert s.journal[step.id].revision == Some(s.checkpoint + 1);
    } else if !step.Finalize? {
      CheckpointStays(s, step, s');
    }
  }

  lemma CheckpointStays(s: System, step: Step, s': System)
    requires Next(s, step, s') && !step.Advance? && !step.Finalize?
    ensures s'.checkpoint == s.checkpoint && s.receipts.Keys <= s'.receipts.Keys
    ensures s'.flight.Replaced? ==>
              s'.flight == s.flight || (step.Restore? && UpTo(s'.flight.read.revision) <= s'.incorporated)
  {
    if Outward(step) {
      OutwardFrame(s, step, s');
      OutwardKeepsRead(s, step, s');
    } else {
      SettlingCheckpoint(s, step, s');
    }
  }

  /** A full read goes on beside these steps, or is over. */
  lemma OutwardKeepsRead(s: System, step: Step, s': System)
    requires Next(s, step, s') && Outward(step)
    ensures s'.flight.Replaced? || s'.flight.Recovering? ==> s'.flight == s.flight
  {}

  lemma SettlingCheckpoint(s: System, step: Step, s': System)
    requires Next(s, step, s') && !Outward(step) && !step.Advance? && !step.Finalize?
    ensures s'.checkpoint == s.checkpoint && s.receipts.Keys <= s'.receipts.Keys
    ensures s'.flight.Replaced? ==>
              s'.flight == s.flight || (step.Restore? && UpTo(s'.flight.read.revision) <= s'.incorporated)
  {}

  lemma NextFacts(s: System, step: Step, s': System)
    requires Inv(s) && Facts(s) && Answerable(s.journal, s.receipts) && Next(s, step, s')
    ensures Facts(s') && Answerable(s'.journal, s'.receipts)
  {
    CheckpointFacts(s, step, s');
    NextCreated(s, step, s');
    forall id | id in s'.journal
      ensures s'.journal[id].revision.Some? ==> s'.journal[id].revision.value in s'.incorporated
      ensures s'.journal[id].state == ProjectionPending ==> id in s'.receipts || s'.journal[id].noOp.Some?
      ensures s'.journal[id].noOp.Some? ==> s'.journal[id].state != Active
    {
      if id in s.journal {
        NextForward(s, step, s', id);
      } else {
        NewRowIsFresh(s, step, s', id);
      }
    }
  }

  // ---------------------------------------------------------------------------------------
  // Runs
  // ---------------------------------------------------------------------------------------

  ghost predicate Sound(s: System) {
    Inv(s) && Placed(s.created, s.journal, s.mirror) && Facts(s) && Answerable(s.journal, s.receipts)
  }

  lemma NextSound(s: System, step: Step, s': System)
    requires Sound(s) && Next(s, step, s')
    ensures Sound(s')
  {
    NextInv(s, step, s');
    NextPlaced(s, step, s');
    NextFacts(s, step, s');
  }

  lemma {:induction false} RunSound(states: seq<System>, steps: seq<Step>, n: nat)
    requires Run(states, steps) && n <= |steps|
    ensures Sound(states[n])
    decreases n
  {
    if n == 0 {
      RunInv(states, steps, 0);
    } else {
      RunSound(states, steps, n - 1);
      LaterStep(states, steps, n - 1);
      NextSound(states[n - 1], steps[n - 1], states[n]);
    }
  }
}
