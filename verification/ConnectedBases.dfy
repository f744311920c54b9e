/**
 The revision that a sent command names as its base: the greatest of the one that it was made on and
 those that its predecessors were confirmed at. A child so follows its parents, and is never held
 against a write that it stands on.
 */
module ConnectedBases {
  import opened Wrappers
  import opened Interactions
  import opened WorkspaceDelta
  import opened Receiptless
  import opened ConnectedSystem
  import opened ConnectedSafety
  import opened ConnectedOrder

  /** A row's revisions are in the past, and a confirmed one has its receipt's or its acknowledgement's. */
  predicate Dated(row: JournalRow, revision: nat) {
    && row.base <= revision && (row.noOp.Some? ==> row.noOp.value <= revision)
    && (row.state == Confirmed ==> row.revision.Some? || row.noOp.Some?)
  }

  /** The attempt names no future base, and none below a predecessor's revision. */
  predicate FollowsAll(j: map<string, JournalRow>, id: string, base: nat)
    requires id in j
  {
    forall p | p in j[id].predecessors && In(j, p, Confirmed) :: ServerRevision(j[p], base) <= base
  }

  ghost predicate BasesInv(s: System) {
    && (forall id | id in s.journal :: Dated(s.journal[id], s.revision))
    && (forall a | a in s.verdicts && s.verdicts[a].NoOp? :: s.verdicts[a].revision <= s.revision)
    && |s.bases| == |s.sent| && (forall a | 0 <= a < |s.bases| :: s.bases[a] <= s.revision)
    && forall a | 0 <= a < |s.sent| && s.sent[a] !in s.irregular ::
         s.sent[a] in s.journal && FollowsAll(s.journal, s.sent[a], s.bases[a])
  }

  lemma NextRevision(s: System, step: Step, s': System)
    requires Next(s, step, s')
    ensures s.revision <= s'.revision
  {}

  lemma NextVerdicts(s: System, step: Step, s': System, a: nat)
    requires Next(s, step, s') && a in s'.verdicts && s'.verdicts[a].NoOp?
    ensures s'.verdicts[a].revision <= s.revision || (a in s.verdicts && s.verdicts[a] == s'.verdicts[a])
  {
    if !step.Handle? {
      VerdictsStay(s, step, s');
    }
  }

  lemma VerdictsStay(s: System, step: Step, s': System)
    requires Next(s, step, s') && !step.Handle?
    ensures s'.verdicts == s.verdicts
  {}

  lemma NextBasesList(s: System, step: Step, s': System)
    requires Next(s, step, s')
    ensures s'.bases == if step.Send? then s.bases + [step.base] else s.bases
  {}

  // ---------------------------------------------------------------------------------------
  // Rows
  // ---------------------------------------------------------------------------------------

  lemma NewRowDated(s: System, step: Step, s': System, id: string)
    requires Inv(s) && Next(s, step, s') && id in s'.journal && id !in s.journal
    ensures Dated(s'.journal[id], s.revision)
  {
    NewRowIsFresh(s, step, s', id);
    if step.RecoverMirror? {
      NewMirrorBase(s, step.id, step.how, s', id);
    } else if !step.Journal? && !step.PreparationFail? {
      NoNewRows(s, step, s');
    }
  }

  lemma NewMirrorBase(s: System, id: string, how: MirrorOnly, s': System, x: string)
    requires RecoversMirror(s, id, how, s') && x in s'.journal && x !in s.journal
    ensures s'.journal[x].base == s.checkpoint
  {}

  lemma RestoredDated(s: System, refused: set<string>, s': System, id: string)
    requires Inv(s) && Restores(s, refused, s') && id in s.journal && Dated(s.journal[id], s.revision)
    ensures id in s'.journal && Dated(s'.journal[id], s.revision)
  {
    RestoredAt(s, refused, s', id);
  }

  lemma ConfirmedDated(s: System, id: string, projected: bool, s': System, x: string)
    requires Inv(s) && Confirms(s, id, projected, s') && x in s.journal && Dated(s.journal[x], s.revision)
    ensures x in s'.journal && Dated(s'.journal[x], s.revision)
  {}

  lemma AcknowledgedDated(s: System, revision: nat, s': System, x: string)
    requires BasesInv(s) && Acknowledges(s, revision, s') && x in s.journal
    ensures x in s'.journal && Dated(s'.journal[x], s.revision)
  {}

  /** A row that a receipt or an acknowledgement settles. */
  lemma RepliedDated(s: System, step: Step, s': System, id: string)
    requires Inv(s) && BasesInv(s) && Next(s, step, s') && id in s.journal
    requires step.Confirm? || step.ConfirmEmpty? || step.Acknowledge?
    ensures id in s'.journal && Dated(s'.journal[id], s.revision)
  {
    match step
    case Confirm(root, projected) => ConfirmedDated(s, root, projected, s', id);
    case Acknowledge(revision) => AcknowledgedDated(s, revision, s', id);
    case ConfirmEmpty(_) =>
  }

  lemma OthersDated(s: System, step: Step, s': System, id: string)
    requires Next(s, step, s') && !Outward(step) && !step.Restore? && id in s.journal
             && Dated(s.journal[id], s.revision)
    requires !step.Confirm? && !step.ConfirmEmpty? && !step.Acknowledge?
    ensures id in s'.journal && Dated(s'.journal[id], s.revision)
  {}

  lemma RowDated(s: System, step: Step, s': System, id: string)
    requires Inv(s) && BasesInv(s) && Next(s, step, s') && id in s'.journal
    ensures Dated(s'.journal[id], s'.revision)
  {
    NextRevision(s, step, s');
    if id !in s.journal {
      NewRowDated(s, step, s', id);
    } else if Outward(step) {
      OutwardKeepsRow(s, step, s', id);
    } else if step.Restore? {
      RestoredDated(s, step.refused, s', id);
    } else if step.Confirm? || step.ConfirmEmpty? || step.Acknowledge? {
      RepliedDated(s, step, s', id);
    } else {
      OthersDated(s, step, s', id);
    }
  }

  // ---------------------------------------------------------------------------------------
  // Sends
  // ---------------------------------------------------------------------------------------

  /** A confirmed row is known to be in by now, at its receipt's revision if it has one. */
  lemma ServerRevisionKnown(s: System, p: string, base: nat)
    requires Inv(s) && BasesInv(s) && p in s.journal && base <= s.revision
    ensures ServerRevision(s.journal[p], base) <= s.revision
    ensures In(s.journal, p, Confirmed) ==>
              var row := s.journal[p];
              if row.revision.Some? then p in s.receipts && s.receipts[p] == ServerRevision(row, base)
              else row.noOp == Some(ServerRevision(row, base))
  {
    assert RowInv(s.journal[p], p, s.receipts, PastOf(s)) && Dated(s.journal[p], s.revision);
  }

  lemma SendBounded(s: System, id: string, base: nat)
    requires Inv(s) && BasesInv(s) && id in s.journal && IsSentBase(s, id, base)
    ensures base <= s.revision && FollowsAll(s.journal, id, base)
  {
    var row := s.journal[id];
    assert Dated(row, s.revision);
    if base != row.base {
      var p :| p in row.predecessors && p in s.journal && ServerRevision(s.journal[p], row.base) == base;
      ServerRevisionKnown(s, p, row.base);
    }
  }

  lemma SendBases(s: System, id: string, base: nat, s': System)
    requires Inv(s) && BasesInv(s) && Sends(s, id, base, s')
    ensures BasesInv(s')
  {
    SendBounded(s, id, base);
  }

  // ---------------------------------------------------------------------------------------
  // Every step
  // ---------------------------------------------------------------------------------------

  lemma FollowsKept(s: System, step: Step, s': System, a: nat)
    requires Inv(s) && BasesInv(s) && Next(s, step, s') && a < |s.sent| && s.sent[a] !in s.irregular
    ensures s.sent[a] in s'.journal && FollowsAll(s'.journal, s.sent[a], s.bases[a])
  {
    var id := s.sent[a];
    assert Stands(s.journal, id);
    NextForward(s, step, s', id);
    forall p | p in s.journal[id].predecessors ensures p in s'.journal && s'.journal[p] == s.journal[p] {
      NextForward(s, step, s', p);
    }
  }

  lemma NextIrregular(s: System, step: Step, s': System)
    requires Next(s, step, s')
    ensures s.irregular <= s'.irregular
  {
    if Outward(step) {
      OutwardFrame(s, step, s');
    } else {
      SettlingFrame(s, step, s');
    }
  }

  lemma NextBases(s: System, step: Step, s': System)
    requires Inv(s) && BasesInv(s) && Next(s, step, s')
    ensures BasesInv(s')
  {
    if step.Send? {
      SendBases(s, step.id, step.base, s');
    } else {
      NextRevision(s, step, s');
      NextBasesList(s, step, s');
      NextHistories(s, step, s');
      NextIrregular(s, step, s');
      forall id | id in s'.journal ensures Dated(s'.journal[id], s'.revision) {
        RowDated(s, step, s', id);
      }
      forall a | a in s'.verdicts && s'.verdicts[a].NoOp? ensures s'.verdicts[a].revision <= s'.revision {
        NextVerdicts(s, step, s', a);
      }
      forall a | 0 <= a < |s.sent| && s.sent[a] !in s'.irregular
        ensures s.sent[a] in s'.journal && FollowsAll(s'.journal, s.sent[a], s.bases[a])
      {
        FollowsKept(s, step, s', a);
      }
    }
  }

  lemma {:induction false} RunBases(states: seq<System>, steps: seq<Step>, n: nat)
    requires Run(states, steps) && n <= |steps|
    ensures Inv(states[n]) && BasesInv(states[n])
    decreases n
  {
    RunInv(states, steps, n);
    if n > 0 {
      RunBases(states, steps, n - 1);
      LaterStep(states, steps, n - 1);
      NextBases(states[n - 1], steps[n - 1], states[n]);
    }
  }

  /** A child follows its parents: in every state of every run, every attempt of a regularly sent command
      names a base that the server has reached and that is no less than the revision of any predecessor's
      receipt, or of its acknowledgement if it has no receipt; and every predecessor has one of these. */
  lemma ChildFollowsParents(states: seq<System>, steps: seq<Step>, n: nat, a: nat, p: string)
    requires Run(states, steps) && n <= |steps| && a < |states[n].sent| && states[n].sent[a] !in states[n].irregular
    ensures var s := states[n];
            && a < |s.bases| && s.bases[a] <= s.revision && s.sent[a] in s.journal
            && (p in s.journal[s.sent[a]].predecessors ==>
                  && In(s.journal, p, Confirmed)
                  && if s.journal[p].revision.Some? then p in s.receipts && s.receipts[p] <= s.bases[a]
                     else s.journal[p].noOp.Some? && s.journal[p].noOp.value <= s.bases[a])
  {
    var s := states[n];
    RunBases(states, steps, n);
    assert FollowsAll(s.journal, s.sent[a], s.bases[a]);
    assert Stands(s.journal, s.sent[a]);
    if p in s.journal[s.sent[a]].predecessors {
      ServerRevisionKnown(s, p, s.bases[a]);
    }
  }

  /** Regular or not, a command is sent with the least base that is no less than its own and than those
      of its confirmed predecessors. */
  lemma SentBaseIsLeast(states: seq<System>, steps: seq<Step>, n: nat, other: nat)
    requires Run(states, steps) && n < |steps| && steps[n].Send?
    ensures var s, id, base := states[n], steps[n].id, steps[n].base;
            && id in s.journal && s.journal[id].base <= base <= s.revision && FollowsAll(s.journal, id, base)
            && (s.journal[id].base <= other && FollowsAll(s.journal, id, other) ==> base <= other)
            && states[n + 1].bases == s.bases + [base] && |s.bases| == |s.sent|
  {
    RunBases(states, steps, n);
    LaterStep(states, steps, n);
    SendBounded(states[n], steps[n].id, steps[n].base);
    var s, row := states[n], states[n].journal[steps[n].id];
    if steps[n].base != row.base {
      var p :| p in row.predecessors && p in s.journal && ServerRevision(s.journal[p], row.base) == steps[n].base;
    }
  }
}
