/**
 Why a command is refused although it was never sent: in every run its preparation failed, or at some
 moment a command that it depends on was refused, waiting for its withdrawal, or shut, or it was the
 Undo of a command that had been acknowledged without a receipt.
 */
module ConnectedReasons {
  import opened Wrappers
  import opened Interactions
  import opened WorkspaceDelta
  import opened Receiptless
  import opened ConnectedSystem
  import opened ConnectedSafety
  import opened ConnectedOrder
  import opened ConnectedProgress

  predicate Withdrawn(s: System, id: string) {
    id in s.journal && (Refusal(s.journal[id].state) || s.journal[id].state == RollbackPending)
  }

  predicate Troubled(s: System, p: string) {
    Withdrawn(s, p) || ShutIn(s.mirror, p)
  }

  predicate Cause(s: System, id: string) {
    id in s.journal
    && ((exists p | p in s.journal[id].predecessors :: Troubled(s, p))
        || (s.journal[id].target.Some? && s.journal[id].target.value in s.journal
            && s.journal[s.journal[id].target.value].noOp.Some?))
  }

  predicate HeldFor(s: System, root: string) {
    exists y | y in s.mirror :: s.mirror[y].status == Quarantined(root)
  }

  predicate FailedFirst(step: Step, id: string) {
    step.PreparationFail? && step.id == id
  }

  // ---------------------------------------------------------------------------------------
  // One step
  // ---------------------------------------------------------------------------------------

  /** What a single step can refuse a command for. */
  predicate StepCause(s: System, step: Step, s': System, id: string) {
    id in s.sent || Cause(s, id) || Cause(s', id) || HeldFor(s, id) || FailedFirst(step, id)
  }

  lemma RefusableCause(s: System, root: string)
    requires FlightInv(s.flight, s.sent, s.journal, s.mirror) && Refusable(s, root)
    ensures root in s.sent || Cause(s, root) || HeldFor(s, root)
  {
    if s.flight == Idle && Refuses(s, root) {
      var p :| p in s.journal[root].predecessors && p in s.journal && Refusal(Seen(s, p));
      assert Troubled(s, p);
    }
  }

  lemma DependentOf(j: map<string, JournalRow>, root: string, x: string) returns (p: string)
    requires x in Dependents(j, root)
    ensures x in j && p in j[x].predecessors && (p == root || p in Dependents(j, root))
  {
    var n: nat :| Reaches(j, root, x, n);
    p :| p in j[x].predecessors && Reaches(j, root, p, n - 1);
    if p != root {
      assert Open(j, p);
    }
  }

  lemma RejectCause(s: System, root: string, state: JournalState, order: seq<string>, s': System, id: string)
    requires FlightInv(s.flight, s.sent, s.journal, s.mirror) && Rejects(s, root, state, order, s')
    requires id in s.journal && s'.journal[id] != s.journal[id]
    ensures StepCause(s, Reject(root, state, order), s', id)
  {
    if id == root {
      RefusableCause(s, root);
    } else {
      DependentsOpen(s.journal, root);
      var p := DependentOf(s.journal, root, id);
      assert Troubled(s', p);
    }
  }

  lemma RollbackCause(s: System, root: string, marked: set<string>, rows: set<string>, s': System, id: string)
    requires FlightInv(s.flight, s.sent, s.journal, s.mirror) && RollbackFails(s, root, marked, rows, s')
    requires forall x | Open(s.journal, x) :: x in s.mirror
    requires id in s.journal && s'.journal[id] != s.journal[id]
    ensures StepCause(s, RollbackFail(root, marked, rows), s', id)
  {
    if id == root {
      RefusableCause(s, root);
    } else {
      DependentsOpen(s.journal, root);
      var p := DependentOf(s.journal, root, id);
      assert Open(s.journal, p) && p in marked;
      assert Troubled(s', p);
    }
  }

  lemma RestoreCause(s: System, refused: set<string>, s': System, id: string)
    requires Restores(s, refused, s') && id in s.journal && !Withdrawn(s, id) && Withdrawn(s', id)
    requires s.journal[id].noOp.Some? ==> id in s.sent
    ensures StepCause(s, Restore(refused), s', id)
  {
    var read := s.flight.read;
    RestoredAt(s, refused, s', id);
    if s.journal[id].noOp.None? && id !in RefusedFirst(s.journal, read) {
      assert Behind(s.journal, read, refused, id);
      var p :| p in s.journal[id].predecessors * refused;
      RefusedRow(s, refused, s', p);
      assert Troubled(s', p) && p in s'.journal[id].predecessors;
    }
  }

  lemma RefusedRow(s: System, refused: set<string>, s': System, p: string)
    requires Restores(s, refused, s') && p in refused
    ensures Withdrawn(s', p)
  {
    var read := s.flight.read;
    assert p in RefusedFirst(s.journal, read) || p in refused - RefusedFirst(s.journal, read);
    RestoredAt(s, refused, s', p);
  }

  /** No other step withdraws a stored command. */
  lemma OtherStepsRefuseNothing(s: System, step: Step, s': System, id: string)
    requires Next(s, step, s') && !Outward(step) && !step.Reject? && !step.RollbackFail? && !step.Restore?
    requires id in s.journal && Withdrawn(s', id)
    ensures Withdrawn(s, id)
  {}

  lemma NewRowCause(s: System, step: Step, s': System, id: string)
    requires Next(s, step, s') && id !in s.journal && Withdrawn(s', id)
    ensures StepCause(s, step, s', id)
  {
    if step.RecoverMirror? {
      ArchiveCause(s, step.id, step.how, s', id);
    } else if !step.PreparationFail? && !step.Journal? {
      NoNewRows(s, step, s');
    }
  }

  lemma ArchiveCause(s: System, id: string, how: MirrorOnly, s': System, x: string)
    requires RecoversMirror(s, id, how, s') && x !in s.journal && Withdrawn(s', x)
    ensures Cause(s', x)
  {
    var p :| p in s.mirror[id].predecessors
             && ((p in s.journal && (Refusal(s.journal[p].state) || s.journal[p].state == RollbackPending))
                 || ShutIn(s.mirror, p));
    assert Troubled(s', p);
  }

  lemma StepHasCause(s: System, step: Step, s': System, id: string)
    requires Sound(s) && Next(s, step, s') && Withdrawn(s', id) && !Withdrawn(s, id)
    ensures StepCause(s, step, s', id)
  {
    if id !in s.journal {
      NewRowCause(s, step, s', id);
    } else if Outward(step) {
      OutwardKeepsRow(s, step, s', id);
    } else if step.Reject? {
      RejectCause(s, step.id, step.state, step.order, s', id);
    } else if step.RollbackFail? {
      RollbackCause(s, step.id, step.marked, step.rows, s', id);
    } else if step.Restore? {
      Receipted(s, id);
      RestoreCause(s, step.refused, s', id);
    } else {
      OtherStepsRefuseNothing(s, step, s', id);
    }
  }

  /** A mirror is held for a command only after its refusal was known. */
  lemma HoldHasCause(s: System, step: Step, s': System, root: string)
    requires FlightInv(s.flight, s.sent, s.journal, s.mirror) && Next(s, step, s') && HeldFor(s', root)
             && !HeldFor(s, root)
    ensures root in s.sent || Cause(s, root)
  {
    var y :| y in s'.mirror && s'.mirror[y].status == Quarantined(root);
    if step.RollbackFail? {
      HeldByRollback(s, step.id, step.marked, step.rows, s', y);
      RefusableCause(s, root);
    } else {
      MirrorNotHeld(s, step, s', y);
    }
  }

  lemma HeldByRollback(s: System, root: string, marked: set<string>, rows: set<string>, s': System, y: string)
    requires RollbackFails(s, root, marked, rows, s') && y in s'.mirror
    ensures y in s.mirror && (s'.mirror[y].status == s.mirror[y].status || s'.mirror[y].status == Quarantined(root))
    ensures Refusable(s, root)
  {}

  // ---------------------------------------------------------------------------------------
  // Every run
  // ---------------------------------------------------------------------------------------

  ghost predicate Reason(states: seq<System>, steps: seq<Step>, n: nat, id: string)
    requires n <= |steps| && |states| == |steps| + 1
  {
    id in states[n].sent || (exists k | 0 <= k <= n :: Cause(states[k], id))
      || (exists k | 0 <= k < n :: FailedFirst(steps[k], id))
  }

  lemma ReasonLater(states: seq<System>, steps: seq<Step>, n: nat, id: string)
    requires Run(states, steps) && n < |steps| && Reason(states, steps, n, id)
    ensures Reason(states, steps, n + 1, id)
  {
    LaterStep(states, steps, n);
    NextHistories(states[n], steps[n], states[n + 1]);
  }

  lemma ReasonNow(states: seq<System>, steps: seq<Step>, n: nat, id: string)
    requires Run(states, steps) && n < |steps| && StepCause(states[n], steps[n], states[n + 1], id)
    requires HeldFor(states[n], id) ==> Reason(states, steps, n, id)
    ensures Reason(states, steps, n + 1, id)
  {
    if Reason(states, steps, n, id) {
      ReasonLater(states, steps, n, id);
    }
  }

  predicate Refused(s: System, id: string) {
    Withdrawn(s, id) || HeldFor(s, id)
  }

  lemma RefusedHasCause(s: System, step: Step, s': System, id: string)
    requires Sound(s) && Next(s, step, s') && Refused(s', id) && !Refused(s, id)
    ensures StepCause(s, step, s', id)
  {
    if Withdrawn(s', id) {
      StepHasCause(s, step, s', id);
    } else {
      HoldHasCause(s, step, s', id);
    }
  }

  lemma RunHasCause(states: seq<System>, steps: seq<Step>, n: nat, id: string)
    requires Run(states, steps) && n < |steps| && Refused(states[n + 1], id) && !Refused(states[n], id)
    ensures StepCause(states[n], steps[n], states[n + 1], id)
  {
    RunSound(states, steps, n);
    LaterStep(states, steps, n);
    RefusedHasCause(states[n], steps[n], states[n + 1], id);
  }

  /** Whatever is withdrawn, and whatever a mirror is held for, has its reason. */
  lemma {:induction false} HasReason(states: seq<System>, steps: seq<Step>, n: nat, id: string)
    requires Run(states, steps) && n <= |steps| && Refused(states[n], id)
    ensures Reason(states, steps, n, id)
    decreases n
  {
    if n > 0 {
      if Refused(states[n - 1], id) {
        HasReason(states, steps, n - 1, id);
        ReasonLater(states, steps, n - 1, id);
      } else {
        RunHasCause(states, steps, n - 1, id);
        ReasonNow(states, steps, n - 1, id);
      }
    }
  }

  /** In every run: a command that is refused and was never sent failed to be prepared, or at some moment
      something it depends on was refused, waiting for its withdrawal, or shut, or was acknowledged
      without a receipt before this Undo of it. */
  lemma UnsentRefusalHasCause(states: seq<System>, steps: seq<Step>, n: nat, id: string)
    requires Run(states, steps) && n <= |steps| && id in states[n].journal && Refusal(states[n].journal[id].state)
    requires id !in states[n].sent
    ensures (exists k | 0 <= k <= n :: Cause(states[k], id)) || (exists k | 0 <= k < n :: FailedFirst(steps[k], id))
  {
    HasReason(states, steps, n, id);
  }
}
