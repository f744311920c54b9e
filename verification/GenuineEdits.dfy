/**
 A genuine local edit is never overwritten: from the moment a cell holds a value that no command
 put there, every step of every run either leaves that value or is about that very value, and no
 recovery starts or installs until the edit is gone.
 */
module GenuineEdits {
  import opened Wrappers
  import opened WorkspaceDelta
  import opened Interactions
  import opened RowChain
  import opened InteractionOrder
  import opened JournalViews
  import opened OptimisticCache
  import ProjectionProof
  import opened InstantClient

  /** The delta sets the cell and names this value, as what it found there or as what it puts there. */
  ghost predicate Carries(cs: seq<EntityChange>, e: EntityKey, f: Field, v: Option<Value>) {
    var c := ChangeAt(cs, e);
    c.Some? && c.value.Sets(f) && (Cell(c.value.before, f) == v || Cell(c.value.after, f) == v)
  }

  /** The deltas that a step writes to the rows and to the proof alike. */
  ghost function Written(s: Cache, step: Step): seq<seq<EntityChange>> {
    match step
    case BeginStep(r) => [r.changes]
    case AcknowledgeStep(_, _, _, _, settled, _) => [settled]
    case RejectStep(r, later) => Reversals(s.log, [r] + later)
    case _ => []
  }

  /** The cell holds a value that neither the proof, nor an outstanding recovery, nor the clearing of
      the cache knows there. */
  ghost predicate Foreign(s: Cache, e: EntityKey, f: Field, v: Option<Value>) {
    Cell(Lookup(s.rows, e), f) == v && !Known(s, e, f, v)
  }

  /** The value is what the recorded deltas, an outstanding recovery, or a cleared cache has there. */
  ghost predicate Known(s: Cache, e: EntityKey, f: Field, v: Option<Value>) {
    || (s.proof.baseline.Some? && ProjectionProof.Expected(s.proof.baseline.value, s.proof.deltas).Some?
        && Cell(Lookup(ProjectionProof.Expected(s.proof.baseline.value, s.proof.deltas).value, e), f) == v)
    || (s.proof.sample.Some? && Cell(Lookup(s.proof.sample.value.rows, e), f) == v)
    || (s.proof.cleared && v == None)
  }

  // ---------------------------------------------------------------------------------------
  // One delta
  // ---------------------------------------------------------------------------------------

  /** A committed delta that does not carry a value neither puts it into the cell nor takes it away. */
  lemma CellThrough(w: Workspace, cs: seq<EntityChange>, e: EntityKey, f: Field, v: Option<Value>)
    requires UniqueKeys(cs) && ApplyChanges(w, cs).Some? && !Carries(cs, e, f, v)
    ensures Cell(Lookup(ApplyChanges(w, cs).value, e), f) == v <==> Cell(Lookup(w, e), f) == v
  {
    ApplyFrame(w, cs, e, f);
    ApplyByKey(w, cs);
    ChangeAtMember(cs, e);
    var c := ChangeAt(cs, e);
    if c.Some? && c.value.Sets(f) && Cell(Lookup(w, e), f) == v {
      EditedFieldBlocks(w, cs, c.value, f);
    }
  }

  lemma {:induction false} CellThroughAll(w: Workspace, ds: seq<seq<EntityChange>>, e: EntityKey, f: Field,
                                          v: Option<Value>)
    requires forall d | d in ds :: UniqueKeys(d) && !Carries(d, e, f, v)
    requires ProjectionProof.Expected(w, ds).Some?
    ensures Cell(Lookup(ProjectionProof.Expected(w, ds).value, e), f) == v <==> Cell(Lookup(w, e), f) == v
    decreases |ds|
  {
    if ds != [] {
      var init, last := ds[..|ds| - 1], ds[|ds| - 1];
      assert last in ds && forall d | d in init :: d in ds;
      CellThroughAll(w, init, e, f, v);
      CellThrough(ProjectionProof.Expected(w, init).value, last, e, f, v);
    }
  }

  lemma ExpectedOne(w: Workspace, d: seq<EntityChange>)
    ensures ProjectionProof.Expected(w, [d]) == ApplyChanges(w, d)
  {
    assert [d][..0] == [];
  }

  lemma {:induction false} UnwindIsReversals(log: seq<Interaction>, w: Workspace, steps: seq<Interaction>)
    requires UnwindAll(log, w, steps).Some?
    ensures ProjectionProof.Expected(w, Reversals(log, steps)) == UnwindAll(log, w, steps)
    decreases |steps|
  {
    if steps != [] {
      var init, last := steps[..|steps| - 1], steps[|steps| - 1];
      var cs := ReversalOf(log, last).value;
      UnwindIsReversals(log, ApplyChanges(w, cs).value, init);
      ExpectedOne(w, cs);
      ProjectionProof.ExpectedConcat(w, [cs], Reversals(log, init));
    }
  }

  lemma ReversalKeys(log: seq<Interaction>, p: Interaction)
    requires UniqueKeys(p.changes) && ReversalOf(log, p).Some?
    ensures UniqueKeys(ReversalOf(log, p).value)
  {
    var cs := ReversalOf(log, p).value;
    assert forall i | 0 <= i < |cs| :: cs[i].key == p.changes[i].key;
  }

  lemma {:induction false} ReversalsKeys(log: seq<Interaction>, steps: seq<Interaction>)
    requires forall p | p in steps :: UniqueKeys(p.changes)
    ensures forall d | d in Reversals(log, steps) :: UniqueKeys(d)
    decreases |steps|
  {
    if steps != [] {
      var init, last := steps[..|steps| - 1], steps[|steps| - 1];
      assert last in steps && forall p | p in init :: p in steps;
      ReversalsKeys(log, init);
      if ReversalOf(log, last).Some? {
        ReversalKeys(log, last);
      }
    }
  }

  // ---------------------------------------------------------------------------------------
  // One step
  // ---------------------------------------------------------------------------------------

  /** Steps that move neither the baseline nor the recovery's sample, and edit nothing. */
  predicate Ordinary(step: Step) {
    step.BeginStep? || step.AcknowledgeStep? || step.ConfirmEmptyStep? || step.RejectStep? || step.HoldStep?
      || step.CommitStep?
  }

  lemma WrittenKeys(s: Cache, step: Step, s': Cache)
    requires Inv(s) && Next(s, step, s') && Ordinary(step)
    ensures forall d | d in Written(s, step) :: UniqueKeys(d)
  {
    match step
    case AcknowledgeStep(r, priors, later, accepted, settled, _) =>
      SettledKeys(r, priors, accepted, later, settled, EntityKey("", ""));
    case RejectStep(r, later) =>
      CascadeTopological(s.pending, r, later);
      ReversalsKeys(s.log, [r] + later);
    case _ =>
  }

  /** An ordinary step writes the same deltas to the rows and to the proof. */
  lemma WritesBoth(s: Cache, step: Step, s': Cache)
    requires Next(s, step, s') && Ordinary(step)
    ensures ProjectionProof.Expected(s.rows, Written(s, step)) == Some(s'.rows)
    ensures s'.proof == Recording(s.proof, Written(s, step))
  {
    assert s.proof.deltas + [] == s.proof.deltas;
    match step
    case BeginStep(r) => ExpectedOne(s.rows, r.changes);
    case AcknowledgeStep(_, _, _, _, settled, _) => ExpectedOne(s.rows, settled);
    case RejectStep(r, later) => UnwindIsReversals(s.log, s.rows, [r] + later);
    case _ =>
  }

  /** While a foreign value stands, the cache is not proved, no recovery starts and none installs. */
  lemma ForeignIsUnverified(s: Cache, e: EntityKey, f: Field, v: Option<Value>)
    requires Foreign(s, e, f, v)
    ensures !Proved(s) && !Verified(s) && s.proof.sample != Some(Sample(s.rows, Ids(s.pending)))
  {}

  lemma ProofThrough(p: Proof, ds: seq<seq<EntityChange>>, e: EntityKey, f: Field, v: Option<Value>)
    requires p.baseline.Some? && forall d | d in ds :: UniqueKeys(d) && !Carries(d, e, f, v)
    requires ProjectionProof.Expected(p.baseline.value, p.deltas).Some? ==>
               Cell(Lookup(ProjectionProof.Expected(p.baseline.value, p.deltas).value, e), f) != v
    ensures var w := ProjectionProof.Expected(p.baseline.value, p.deltas + ds); w.Some? ==>
              Cell(Lookup(w.value, e), f) != v
  {
    if ProjectionProof.Expected(p.baseline.value, p.deltas).Some? {
      ProjectionProof.ExpectedConcat(p.baseline.value, p.deltas, ds);
      var w := ProjectionProof.Expected(p.baseline.value, p.deltas).value;
      if ProjectionProof.Expected(w, ds).Some? {
        CellThroughAll(w, ds, e, f, v);
      }
    } else {
      assert (p.deltas + ds)[..|p.deltas|] == p.deltas;
      ProjectionProof.NeverExpected(p.baseline.value, p.deltas + ds, |p.deltas|);
    }
  }

  lemma ForeignThrough(s: Cache, step: Step, s': Cache, e: EntityKey, f: Field, v: Option<Value>)
    requires Inv(s) && Next(s, step, s') && Ordinary(step) && Foreign(s, e, f, v)
    requires forall d | d in Written(s, step) :: !Carries(d, e, f, v)
    ensures Foreign(s', e, f, v)
  {
    WrittenKeys(s, step, s');
    WritesBoth(s, step, s');
    CellThroughAll(s.rows, Written(s, step), e, f, v);
    if s.proof.baseline.Some? {
      ProofThrough(s.proof, Written(s, step), e, f, v);
    }
  }

  /** The step leaves the cell to others: it is no edit of the entity, no clearing of the cache, and
      writes no delta about this value of the cell. */
  ghost predicate Unaware(s: Cache, step: Step, e: EntityKey, f: Field, v: Option<Value>) {
    && !step.ClearStep? && !(step.EditStep? && step.e == e)
    && forall d | d in Written(s, step) :: !Carries(d, e, f, v)
  }

  lemma ForeignKept(s: Cache, step: Step, s': Cache, e: EntityKey, f: Field, v: Option<Value>)
    requires Inv(s) && Next(s, step, s') && Foreign(s, e, f, v) && Unaware(s, step, e, f, v)
    ensures Foreign(s', e, f, v) && !step.InstallStep? && !step.SampleStep?
  {
    ForeignIsUnverified(s, e, f, v);
    if Ordinary(step) {
      ForeignThrough(s, step, s', e, f, v);
    } else if !step.EditStep? {
      assert false;
    }
  }

  // ---------------------------------------------------------------------------------------
  // Runs
  // ---------------------------------------------------------------------------------------

  /** Over every run: while no step writes a delta about the edited value, and nobody edits that
      entity or clears the cache, the cell keeps the value, and no recovery starts or installs. */
  lemma {:induction false} EditSurvives(states: seq<Cache>, steps: seq<Step>, i: nat, n: nat, e: EntityKey, f: Field,
                                        v: Option<Value>)
    requires Run(states, steps) && i <= n <= |steps| && Foreign(states[i], e, f, v)
    requires forall k | i <= k < n :: Unaware(states[k], steps[k], e, f, v)
    ensures Foreign(states[n], e, f, v)
    ensures forall k | i <= k < n :: !steps[k].InstallStep? && !steps[k].SampleStep?
    decreases n
  {
    if i < n {
      EditSurvives(states, steps, i, n - 1, e, f, v);
      StepKeeps(states, steps, n - 1, e, f, v);
    }
  }

  lemma StepKeeps(states: seq<Cache>, steps: seq<Step>, k: nat, e: EntityKey, f: Field, v: Option<Value>)
    requires Run(states, steps) && k < |steps| && Foreign(states[k], e, f, v) && Unaware(states[k], steps[k], e, f, v)
    ensures Foreign(states[k + 1], e, f, v) && !steps[k].InstallStep? && !steps[k].SampleStep?
  {
    RunInv(states, steps, k);
    StepTaken(states, steps, k);
    ForeignKept(states[k], steps[k], states[k + 1], e, f, v);
  }

  lemma StepTaken(states: seq<Cache>, steps: seq<Step>, k: nat)
    requires Run(states, steps) && k < |steps|
    ensures Next(states[k], steps[k], states[k + 1])
  {}

  /** A genuine edit survives: from the edit on, while no step writes a delta about the edited value and
      nobody edits the entity again or clears the cache, the cell keeps what was edited into it, no
      recovery starts or installs, and the cache is not taken for a recorded one. */
  lemma GenuineEditSurvives(states: seq<Cache>, steps: seq<Step>, i: nat, n: nat, f: Field)
    requires Run(states, steps) && i < n <= |steps| && steps[i].EditStep?
    requires !Known(states[i], steps[i].e, f, Cell(steps[i].row, f))
    requires forall k | i < k < n :: Unaware(states[k], steps[k], steps[i].e, f, Cell(steps[i].row, f))
    ensures Cell(Lookup(states[n].rows, steps[i].e), f) == Cell(steps[i].row, f)
    ensures forall k | i < k <= n :: !Proved(states[k]) && !Verified(states[k])
    ensures forall k | i < k < n :: !steps[k].InstallStep? && !steps[k].SampleStep?
  {
    var e, v := steps[i].e, Cell(steps[i].row, f);
    assert Next(states[i], steps[i], states[i + 1]);
    assert Foreign(states[i + 1], e, f, v);
    EditSurvives(states, steps, i + 1, n, e, f, v);
    forall k | i < k <= n ensures !Proved(states[k]) && !Verified(states[k]) {
      EditSurvives(states, steps, i + 1, k, e, f, v);
      ForeignIsUnverified(states[k], e, f, v);
    }
  }

  /** A step that is about the cell but not about its value cannot be taken: one of its deltas is
      refused, whatever the rest of it says. */
  lemma EditRefusesDelta(w: Workspace, cs: seq<EntityChange>, e: EntityKey, f: Field)
    requires UniqueKeys(cs) && ChangeAt(cs, e).Some? && ChangeAt(cs, e).value.Sets(f)
    requires !Carries(cs, e, f, Cell(Lookup(w, e), f))
    ensures ApplyChanges(w, cs).None?
  {
    ChangeAtMember(cs, e);
    EditedFieldBlocks(w, cs, ChangeAt(cs, e).value, f);
  }

  /** A receipt whose settlement would write the edited cell is not projected: it stays with the client
      and waits for a read, and is not sent again. */
  lemma EditBlocksReceipt(rows: Workspace, pending: seq<Interaction>, log: seq<Interaction>, r: Interaction,
                          accepted: seq<EntityChange>,
                          later: seq<Interaction>, settled: seq<EntityChange>, e: EntityKey, f: Field)
    requires UniqueKeys(accepted) && Ordered(Pick(log, r.predecessors)).Some?
             && OrderedDependents(pending, r.commandId, Some(later))
    requires Settles(r, Ordered(Pick(log, r.predecessors)).value, accepted, later, settled)
    requires ChangeAt(settled, e).Some? && ChangeAt(settled, e).value.Sets(f)
             && !Carries(settled, e, f, Cell(Lookup(rows, e), f))
    ensures !CanSettle(rows, pending, log, r, accepted)
  {
    SettledKeys(r, Ordered(Pick(log, r.predecessors)).value, accepted, later, settled, e);
    EditRefusesDelta(rows, settled, e, f);
    CannotSettle(rows, pending, log, r, accepted, Some(later), Some(settled));
  }

  // ---------------------------------------------------------------------------------------
  // What the client writes itself is recorded
  // ---------------------------------------------------------------------------------------

  /** The recorded deltas lead from the recorded baseline to the cache. */
  ghost predicate UpToDate(s: Cache) {
    s.proof.baseline.Some? && ProjectionProof.Expected(s.proof.baseline.value, s.proof.deltas) == Some(s.rows)
  }

  lemma WrittenUpToDate(s: Cache, deltas: seq<seq<EntityChange>>, rows: Workspace)
    requires UpToDate(s) && ProjectionProof.Expected(s.rows, deltas) == Some(rows)
    ensures UpToDate(s.(rows := rows, proof := Recording(s.proof, deltas)))
  {
    ProjectionProof.ExpectedConcat(s.proof.baseline.value, s.proof.deltas, deltas);
  }

  lemma BeginUpToDate(s: Cache, r: Interaction, s': Cache)
    requires Begins(s, r, s') && UpToDate(s)
    ensures UpToDate(s')
  {
    ExpectedOne(s.rows, r.changes);
    WrittenUpToDate(s, [r.changes], s'.rows);
  }

  lemma {:induction false} ReplayUpToDate(s: Cache, kept: seq<Interaction>, s': Cache)
    requires Replays(s, kept, s') && UpToDate(s)
    ensures UpToDate(s')
    decreases |kept|
  {
    if kept != [] {
      var mid := ReplaySplit(s, kept, s');
      ReplayUpToDate(s, kept[..|kept| - 1], mid);
      BeginUpToDate(mid, kept[|kept| - 1], s');
    }
  }

  lemma StepUpToDate(s: Cache, step: Step, s': Cache)
    requires Next(s, step, s') && (step.InstallStep? || (UpToDate(s) && !step.EditStep? && !step.ClearStep?))
    ensures UpToDate(s')
  {
    match step {
      case BeginStep(r) => BeginUpToDate(s, r, s');
      case AcknowledgeStep(r, priors, later, accepted, settled, revision) =>
        ExpectedOne(s.rows, settled);
        WrittenUpToDate(s, [settled], s'.rows);
      case RejectStep(r, later) =>
        UnwindIsReversals(s.log, s.rows, [r] + later);
        WrittenUpToDate(s, Reversals(s.log, [r] + later), s'.rows);
      case InstallStep(revision, receipts, confirmed, kept) =>
        var mid :| Resets(s, revision, confirmed, mid) && Replays(mid, kept, s');
        ReplayUpToDate(mid, kept, s');
      case _ =>
    }
  }

  /** In every state of every run that has no edit or clearing since the last recovery, the recorded deltas lead
      from the recorded baseline to exactly the cache: a recovery may start, unless a withdrawal is unfinished. */
  lemma {:induction false} RecordsKeepUp(states: seq<Cache>, steps: seq<Step>, n: nat)
    requires Run(states, steps) && n <= |steps|
    requires forall i | 0 <= i < n && (steps[i].EditStep? || steps[i].ClearStep?) ::
               exists k | i < k < n :: steps[k].InstallStep?
    ensures var s := states[n];
            && s.proof.baseline.Some?
            && ProjectionProof.Expected(s.proof.baseline.value, s.proof.deltas) == Some(s.rows)
            && ((forall p | p in s.pending :: p.state != RollbackPending) ==> Verified(s))
    decreases n
  {
    if n > 0 {
      assert Next(states[n - 1], steps[n - 1], states[n]);
      if !steps[n - 1].InstallStep? {
        forall i | 0 <= i < n - 1 && (steps[i].EditStep? || steps[i].ClearStep?)
          ensures exists k | i < k < n - 1 :: steps[k].InstallStep?
        {
          var k :| i < k < n && steps[k].InstallStep?;
        }
        RecordsKeepUp(states, steps, n - 1);
      }
      StepUpToDate(states[n - 1], steps[n - 1], states[n]);
    }
  }
}
