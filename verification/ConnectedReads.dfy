/**
 What full reads, receipts and receiptless acknowledgements settle in every run of the connected
 protocol, with a stop possible between any two writes.
 */
module ConnectedReads {
  import opened Wrappers
  import opened Interactions
  import opened WorkspaceDelta
  import opened Receiptless
  import opened ConnectedSystem
  import opened ConnectedSafety
  import opened ConnectedOrder

  // ---------------------------------------------------------------------------------------
  // The checkpoint
  // ---------------------------------------------------------------------------------------

  /** The step put the facts of the revision into the cache. */
  ghost predicate Brings(s: System, step: Step, r: nat) {
    || (step.Restore? && s.flight.Recovering? && r <= s.flight.read.revision)
    || (step.Confirm? && step.projected && step.id in s.receipts && s.receipts[step.id] == r)
  }

  lemma NextBrings(s: System, step: Step, s': System, r: nat)
    requires Next(s, step, s') && r in s'.incorporated && r !in s.incorporated
    ensures Brings(s, step, r)
  {
    if Outward(step) {
      OutwardFrame(s, step, s');
    } else {
      SettlingBrings(s, step, s', r);
    }
  }

  lemma SettlingBrings(s: System, step: Step, s': System, r: nat)
    requires Next(s, step, s') && !Outward(step) && r in s'.incorporated && r !in s.incorporated
    ensures Brings(s, step, r)
  {}

  lemma {:induction false} IncorporatedBy(states: seq<System>, steps: seq<Step>, n: nat, r: nat)
    requires Run(states, steps) && n <= |steps| && r in states[n].incorporated
    ensures r <= states[0].revision || exists k | 0 <= k < n :: Brings(states[k], steps[k], r)
    decreases n
  {
    if n > 0 {
      LaterStep(states, steps, n - 1);
      if r in states[n - 1].incorporated {
        IncorporatedBy(states, steps, n - 1, r);
      } else {
        NextBrings(states[n - 1], steps[n - 1], states[n], r);
      }
    }
  }

  /** The checkpoint never passes unread facts: in every state of every run, each revision up to it was
      there at the first read, or came with a full read that replaced the cache, or is the receipt of
      a command that was settled in the cache. */
  lemma CheckpointIsRead(states: seq<System>, steps: seq<Step>, n: nat, r: nat)
    requires Run(states, steps) && n <= |steps| && r <= states[n].checkpoint
    ensures r <= states[0].revision || exists k | 0 <= k < n :: Brings(states[k], steps[k], r)
  {
    RunSound(states, steps, n);
    IncorporatedBy(states, steps, n, r);
  }

  lemma Started(states: seq<System>, steps: seq<Step>, n: nat)
    requires Run(states, steps) && n <= |steps|
    ensures states[n].flight != Idle || states[n].journal != map[] ==>
              n > 0 && Next(states[n - 1], steps[n - 1], states[n])
  {
    if n > 0 {
      LaterStep(states, steps, n - 1);
    }
  }

  lemma NextReplaced(s: System, step: Step, s': System)
    requires Next(s, step, s') && s'.flight.Replaced?
    ensures s'.flight == s.flight || step.Restore?
  {}

  lemma {:induction false} ReplacedByRestore(states: seq<System>, steps: seq<Step>, n: nat) returns (k: nat)
    requires Run(states, steps) && n <= |steps| && states[n].flight.Replaced?
    ensures k < n && steps[k].Restore? && states[k + 1].flight == states[n].flight
    decreases n
  {
    Started(states, steps, n);
    NextReplaced(states[n - 1], steps[n - 1], states[n]);
    if steps[n - 1].Restore? {
      k := n - 1;
    } else {
      k := ReplacedByRestore(states, steps, n - 1);
    }
  }

  /** The checkpoint moves, upwards, only to the revision of a snapshot that this very recovery has
      already put into the cache, or to the exact next owned receipt; a receiptless acknowledgement
      never moves it. */
  lemma CheckpointMoves(states: seq<System>, steps: seq<Step>, n: nat)
    requires Run(states, steps) && n < |steps| && states[n + 1].checkpoint != states[n].checkpoint
    ensures states[n].checkpoint < states[n + 1].checkpoint
    ensures var s, s' := states[n], states[n + 1];
            || (steps[n].Finalize? && s.flight.Replaced? && s'.checkpoint == s.flight.read.revision
                && exists k | 0 <= k < n :: steps[k].Restore? && states[k + 1].flight == s.flight)
            || (steps[n].Advance? && s'.checkpoint == s.checkpoint + 1 && steps[n].id in s.journal
                && s.journal[steps[n].id].noOp.None? && steps[n].id in s.receipts
                   && s.receipts[steps[n].id] == s'.checkpoint)
  {
    RunSound(states, steps, n);
    LaterStep(states, steps, n);
    var s, s' := states[n], states[n + 1];
    if steps[n].Advance? {
      assert RowInv(s.journal[steps[n].id], steps[n].id, s.receipts, PastOf(s));
    } else if steps[n].Finalize? {
      var k := ReplacedByRestore(states, steps, n);
    } else {
      CheckpointStays(s, steps[n], s');
    }
  }

  // ---------------------------------------------------------------------------------------
  // Held commands
  // ---------------------------------------------------------------------------------------

  /** From one state to a later one the command was not sent, and is not active. */
  predicate Quiet(s: System, t: System, id: string) {
    && id in t.journal && t.journal[id].state != Active
    && |s.sent| <= |t.sent| && t.sent[..|s.sent|] == s.sent && id !in t.sent[|s.sent|..]
  }

  lemma QuietNext(s: System, t: System, step: Step, u: System, id: string)
    requires Quiet(s, t, id) && Inv(t) && Next(t, step, u)
    ensures Quiet(s, u, id)
  {
    NextForward(t, step, u, id);
    NextHistories(t, step, u);
    Tail(s.sent, t.sent, u.sent, id);
  }

  /** A command whose row is no longer active, because its receipt waits for a projection or its
      withdrawal is unfinished, is never sent again in any run; only reads and receipts settle it. */
  lemma {:induction false} HeldIsNeverSent(states: seq<System>, steps: seq<Step>, i: nat, j: nat, id: string)
    requires Run(states, steps) && i <= j <= |steps|
    requires id in states[i].journal && states[i].journal[id].state != Active
    ensures Quiet(states[i], states[j], id)
    decreases j
  {
    if i < j {
      HeldIsNeverSent(states, steps, i, j - 1, id);
      RunInv(states, steps, j - 1);
      LaterStep(states, steps, j - 1);
      QuietNext(states[i], states[j - 1], steps[j - 1], states[j], id);
    }
  }

  // ---------------------------------------------------------------------------------------
  // Receiptless acknowledgements
  // ---------------------------------------------------------------------------------------

  lemma NextRecovering(s: System, step: Step, s': System)
    requires Next(s, step, s') && s'.flight.Recovering?
    ensures s'.flight == s.flight
            || (step.Read? && s'.flight.read.revision == s.revision && s'.flight.read.snapshot == s.snapshot)
  {
    if Outward(step) {
      OutwardKeepsRead(s, step, s');
    }
  }

  /** What a recovery read is what the server held at that revision. */
  lemma {:induction false} ReadIsServers(states: seq<System>, steps: seq<Step>, n: nat) returns (k: nat)
    requires Run(states, steps) && n <= |steps| && states[n].flight.Recovering?
    ensures k <= n && states[k].revision == states[n].flight.read.revision
            && states[k].snapshot == states[n].flight.read.snapshot
    decreases n
  {
    Started(states, steps, n);
    NextRecovering(states[n - 1], steps[n - 1], states[n]);
    if states[n].flight == states[n - 1].flight {
      k := ReadIsServers(states, steps, n - 1);
    } else {
      k := n - 1;
    }
  }

  /** The acknowledgement still holds at what was read: the same revision, and every object as the
      command left it. */
  predicate StillHolds(row: JournalRow, read: Reading) {
    row.noOp == Some(read.revision) && Agrees(row.changes, read.snapshot)
  }

  lemma RestoredReceiptless(s: System, refused: set<string>, s': System, id: string)
    requires Inv(s) && Restores(s, refused, s') && id in Unreceipted(s.journal, s.flight.read)
    ensures s'.journal[id].state == if StillHolds(s.journal[id], s.flight.read) then Confirmed else Conflict
    ensures StillHolds(s.journal[id], s.flight.read) ==>
              !s'.journal[id].owned && s'.journal[id].revision == s.journal[id].revision
              && ApplyChanges(s.flight.read.snapshot, s'.journal[id].changes) == Some(s.flight.read.snapshot)
    ensures !StillHolds(s.journal[id], s.flight.read) ==> s'.journal[id].owned == s.journal[id].owned
  {
    var read := s.flight.read;
    BoundIffAgrees(s.journal[id].changes, read.snapshot);
    assert id in refused - RefusedFirst(s.journal, read) ==> Behind(s.journal, read, refused, id);
    if StillHolds(s.journal[id], read) {
      BoundIsInstalled(s.journal[id].changes, read.snapshot, true);
    }
  }

  lemma RestoredUndo(s: System, refused: set<string>, s': System, id: string, u: string)
    requires Inv(s) && Restores(s, refused, s') && id in Unreceipted(s.journal, s.flight.read)
    requires Open(s.journal, u) && u in s.flight.read.known && s.journal[u].target == Some(id)
    requires u !in s.flight.read.receipts && s.journal[u].noOp.None?
    ensures s'.journal[u].state == Rejected
  {
    assert u in RefusedFirst(s.journal, s.flight.read);
  }

  /** A full read decides every receiptless acknowledgement that it met, in every run: the command is
      confirmed if the server still stood at the acknowledged revision and still has every object as
      the command left it, and a conflict otherwise. Confirming it installs nothing that the server
      did not have, gives it no compensation either way, and an Undo of it is refused. */
  lemma ReceiptlessIsDecided(states: seq<System>, steps: seq<Step>, n: nat, id: string)
    requires Run(states, steps) && n < |steps| && steps[n].Restore?
    requires states[n].flight.Recovering? && id in Unreceipted(states[n].journal, states[n].flight.read)
    ensures var s, s', read := states[n], states[n + 1], states[n].flight.read;
            && (exists k | 0 <= k <= n :: states[k].revision == read.revision && states[k].snapshot == read.snapshot)
            && s'.journal[id].state == (if StillHolds(s.journal[id], read) then Confirmed else Conflict)
            && (StillHolds(s.journal[id], read) ==>
                  ApplyChanges(read.snapshot, s'.journal[id].changes) == Some(read.snapshot))
            && (id !in s.receipts ==> !s'.journal[id].owned)
            && forall u | Open(s.journal, u) && u in read.known && s.journal[u].target == Some(id)
               && u !in read.receipts && s.journal[u].noOp.None? ::
                 s'.journal[u].state == Rejected
  {
    RunInv(states, steps, n);
    LaterStep(states, steps, n);
    var s, s', read := states[n], states[n + 1], states[n].flight.read;
    var k := ReadIsServers(states, steps, n);
    RestoredReceiptless(s, steps[n].refused, s', id);
    assert RowInv(s.journal[id], id, s.receipts, PastOf(s));
    forall u | Open(s.journal, u) && u in read.known && s.journal[u].target == Some(id) && u !in read.receipts
      && s.journal[u].noOp.None?
      ensures s'.journal[u].state == Rejected
    {
      RestoredUndo(s, steps[n].refused, s', id, u);
    }
  }

  /** The step confirms a receiptless acknowledgement for a reason. */
  ghost predicate Vouches(s: System, step: Step, id: string) {
    && id in s.journal
    && ((step == ConfirmEmpty(id) && s.journal[id].changes == [] && s.journal[id].noOp == Some(s.checkpoint))
        || (step.Restore? && s.flight.Recovering? && StillHolds(s.journal[id], s.flight.read)))
  }

  lemma RestoreVouches(s: System, refused: set<string>, s': System, id: string)
    requires Inv(s) && Restores(s, refused, s') && id in s.journal && In(s'.journal, id, Confirmed)
    requires s'.journal[id].noOp.Some? && s'.journal[id].revision.None?
    ensures s'.journal[id] == s.journal[id] || StillHolds(s.journal[id], s.flight.read)
  {
    var read := s.flight.read;
    if Open(s.journal, id) && id in read.known {
      if id in Unreceipted(s.journal, read) {
        RestoredReceiptless(s, refused, s', id);
      } else {
        assert false;
      }
    }
  }

  lemma NextVouches(s: System, step: Step, s': System, id: string)
    requires Inv(s) && Next(s, step, s') && In(s'.journal, id, Confirmed)
    requires s'.journal[id].noOp.Some? && s'.journal[id].revision.None?
    ensures id in s.journal && (s'.journal[id] == s.journal[id] || Vouches(s, step, id))
  {
    if id !in s.journal {
      NewRowIsFresh(s, step, s', id);
    } else if step.Restore? {
      RestoreVouches(s, step.refused, s', id);
    } else if step.ConfirmEmpty? {
      if s'.journal[id] != s.journal[id] {
        EmptyVouches(s, step.id, s', id);
      }
    } else if s'.journal[id] != s.journal[id] {
      OnlyReceiptsConfirm(s, step, s', id);
    }
  }

  lemma EmptyVouches(s: System, root: string, s': System, id: string)
    requires ConfirmsEmpty(s, root, s') && id in s.journal && s'.journal[id] != s.journal[id]
    ensures root == id
  {}

  lemma OnlyReceiptsConfirm(s: System, step: Step, s': System, id: string)
    requires Inv(s) && Next(s, step, s') && id in s.journal && In(s'.journal, id, Confirmed)
             && s'.journal[id] != s.journal[id]
    requires !step.Restore? && !step.ConfirmEmpty?
    ensures s'.journal[id].revision.Some?
  {
    if Outward(step) {
      OutwardKeepsRow(s, step, s', id);
    } else {
      SettlingConfirms(s, step, s', id);
    }
  }

  lemma SettlingConfirms(s: System, step: Step, s': System, id: string)
    requires Next(s, step, s') && !Outward(step) && !step.Restore? && !step.ConfirmEmpty?
    requires id in s.journal && In(s'.journal, id, Confirmed) && s'.journal[id] != s.journal[id]
    ensures s'.journal[id].revision.Some?
  {}

  /** Conversely, in every run, a command that counts as confirmed without any receipt was confirmed by
      a step that vouches for it: at the acknowledged revision, by a read that agrees or because it
      had changed nothing. */
  lemma {:induction false} ConfirmedIsVouchedFor(states: seq<System>, steps: seq<Step>, n: nat, id: string)
    requires Run(states, steps) && n <= |steps| && In(states[n].journal, id, Confirmed)
    requires states[n].journal[id].noOp.Some? && states[n].journal[id].revision.None?
    ensures exists k | 0 <= k < n :: Vouches(states[k], steps[k], id)
    decreases n
  {
    Started(states, steps, n);
    RunInv(states, steps, n - 1);
    NextVouches(states[n - 1], steps[n - 1], states[n], id);
    if states[n].journal[id] == states[n - 1].journal[id] {
      ConfirmedIsVouchedFor(states, steps, n - 1, id);
    }
  }

  // ---------------------------------------------------------------------------------------
  // Predecessors of a sent command
  // ---------------------------------------------------------------------------------------

  /** The predecessor was refused, its withdrawal is unfinished, and its mirror no longer says so. */
  predicate Released(s: System, p: string) {
    In(s.journal, p, RollbackPending) && !ShutIn(s.mirror, p)
  }

  /** The predecessor is only reserved: it has no row yet, and was never sent. */
  predicate Reserved(s: System, p: string) {
    p !in s.journal && p in s.mirror && p !in s.sent && p !in s.receipts
  }

  lemma SentPredecessor(s: System, id: string, base: nat, s': System, p: string)
    requires Sound(s) && Sends(s, id, base, s') && p in s.journal[id].predecessors
    ensures In(s.journal, p, Confirmed) || Released(s, p) || Reserved(s, p)
  {
    if p in s.journal {
      assert !Refusal(Seen(s, p)) && !Live(Seen(s, p));
    } else {
      assert RowPlaced(s.created, s.journal[id], id) && Follows(s.created, s.journal[id], id, p);
      BeforeKnown(s.created, p, id);
      assert p in s.receipts ==> CommittedBy(PastOf(s), p);
    }
  }

  /** In every run, each predecessor of a command that is sent is confirmed, or was refused and released
      without being rolled back, or is only reserved. So the command stands on confirmed predecessors
      if and only if all of them have rows and none has an unfinished withdrawal. */
  lemma SentOnConfirmedPredecessors(states: seq<System>, steps: seq<Step>, n: nat, id: string)
    requires Run(states, steps) && n < |steps| && steps[n].Send? && steps[n].id == id
    ensures var s := states[n];
            && In(s.journal, id, Active)
            && (forall p | p in s.journal[id].predecessors ::
                  In(s.journal, p, Confirmed) || Released(s, p) || Reserved(s, p))
            && ((forall p | p in s.journal[id].predecessors :: In(s.journal, p, Confirmed))
                <==> forall p | p in s.journal[id].predecessors ::
                    p in s.journal && s.journal[p].state != RollbackPending)
  {
    var s := states[n];
    RunSound(states, steps, n);
    LaterStep(states, steps, n);
    forall p | p in s.journal[id].predecessors
      ensures In(s.journal, p, Confirmed) || Released(s, p) || Reserved(s, p)
    {
      SentPredecessor(s, id, steps[n].base, states[n + 1], p);
    }
  }
}
