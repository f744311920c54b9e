/**
 The client's plan for a full read and the protocol's full read settle the same commands: what the
 plan refuses, by passes over its records, is what the protocol refuses, and what it confirms and
 keeps are the records whose rows the protocol confirms and leaves open.
 */
module JointRecovery {
  import opened Wrappers
  import opened Interactions
  import opened InteractionOrder
  import opened JournalViews
  import opened Receiptless
  import opened JointJournal
  import P = RecoveryPlan
  import S = ConnectedSystem
  import Safety = ConnectedSafety
  import Reads = ConnectedReads

  /** The read vouches for the command: it found its receipt, or agrees with its receiptless acknowledgement. */
  predicate VouchedFor(j: Rows, read: S.Reading, id: string)
    requires id in j
  {
    id in read.receipts || (j[id].noOp.Some? && Reads.StillHolds(j[id], read))
  }

  /** The plan is about this read: nothing was journaled since it began, its receipts are those that the read
      vouches for, and it has no voucher for a stale acknowledgement and for an Undo of an unreceipted command. */
  ghost predicate About(j: Rows, read: S.Reading, receipts: map<string, P.Reply>, unvouched: set<string>) {
    forall id | S.Open(j, id) ::
      && id in read.known
      && (id in receipts <==> VouchedFor(j, read, id))
      && (id in unvouched <==>
            id in S.Stale(j, read) || (j[id].target.Some? && j[id].target.value in S.Unreceipted(j, read)))
  }

  lemma FirstAlike(pending: seq<Interaction>, log: seq<Interaction>, j: Rows, read: S.Reading,
                   receipts: map<string, P.Reply>, unvouched: set<string>)
    requires Agree(pending, log, j) && About(j, read, receipts, unvouched)
    ensures P.RefusedFirst(pending, receipts, unvouched) == S.RefusedFirst(j, read)
    ensures forall id | S.Open(j, id) && id !in receipts && j[id].noOp.Some? :: id in S.RefusedFirst(j, read)
  {
    forall id | S.Open(j, id) && j[id].noOp.Some? ensures id in receipts <==> id !in S.Stale(j, read) {
      BoundIffAgrees(j[id].changes, read.snapshot);
    }
    forall id ensures id in P.RefusedFirst(pending, receipts, unvouched) <==> id in S.RefusedFirst(j, read) {
      if id in P.RefusedFirst(pending, receipts, unvouched) {
        var p :| p in pending && p.commandId == id && id !in receipts
            && (id in unvouched || p.state == RollbackPending);
        assert Same(p, j);
      }
      if id in S.RefusedFirst(j, read) {
        var p := RecordOf(pending, log, j, id);
      }
    }
  }

  lemma BehindAlike(pending: seq<Interaction>, log: seq<Interaction>, j: Rows, read: S.Reading,
                    receipts: map<string, P.Reply>, unvouched: set<string>, refused: set<string>)
    requires Agree(pending, log, j) && About(j, read, receipts, unvouched) && S.RefusedSet(j, read, refused)
    ensures P.Behind(pending, receipts, refused) <= refused
  {
    FirstAlike(pending, log, j, read, receipts, unvouched);
    forall p | p in pending && p.commandId !in receipts && p.predecessors * refused != {}
      ensures p.commandId in refused
    {
      assert Same(p, j);
      assert p.commandId in S.RefusedFirst(j, read) || S.Behind(j, read, refused, p.commandId);
    }
  }

  /** A row that the protocol refuses and the plan does not would wait for another such row. */
  lemma NothingElse(pending: seq<Interaction>, log: seq<Interaction>, j: Rows, read: S.Reading,
                    receipts: map<string, P.Reply>, unvouched: set<string>, refused: set<string>)
    requires Agree(pending, log, j) && Acyclic(pending)
    requires About(j, read, receipts, unvouched) && S.RefusedSet(j, read, refused)
    ensures refused <= P.Refused(pending, receipts, P.RefusedFirst(pending, receipts, unvouched))
  {
    var first := P.RefusedFirst(pending, receipts, unvouched);
    var all := P.Refused(pending, receipts, first);
    FirstAlike(pending, log, j, read, receipts, unvouched);
    P.RefusedIsLeast(pending, receipts, first, all);
    var s := set p | p in pending && p.commandId in refused && p.commandId !in all;
    forall p | p in s ensures Waits(p, s) {
      assert Same(p, j);
      assert S.Behind(j, read, refused, p.commandId);
      var q :| q in p.predecessors * refused;
      assert q in S.RefusedFirst(j, read) || S.Behind(j, read, refused, q);
      var y := RecordOf(pending, log, j, q);
      assert p.predecessors * all != {} ==> p.commandId in P.Behind(pending, receipts, all);
      assert q !in p.predecessors * all;
      assert y in s;
    }
    if s != {} {
      assert Stuck(s) && Within(s, pending);
    }
    forall id | id in refused ensures id in all {
      assert id in S.RefusedFirst(j, read) || S.Behind(j, read, refused, id);
      var p := RecordOf(pending, log, j, id);
      assert p !in s;
    }
  }

  /** The plan refuses exactly the rows that the protocol refuses. */
  lemma PlanRefusesAlike(pending: seq<Interaction>, log: seq<Interaction>, j: Rows, read: S.Reading,
                         receipts: map<string, P.Reply>, unvouched: set<string>, refused: set<string>)
    requires Agree(pending, log, j) && Acyclic(pending)
    requires About(j, read, receipts, unvouched) && S.RefusedSet(j, read, refused)
    ensures P.Refused(pending, receipts, P.RefusedFirst(pending, receipts, unvouched)) == refused
  {
    var first := P.RefusedFirst(pending, receipts, unvouched);
    FirstAlike(pending, log, j, read, receipts, unvouched);
    BehindAlike(pending, log, j, read, receipts, unvouched, refused);
    P.RefusedIsLeast(pending, receipts, first, refused);
    NothingElse(pending, log, j, read, receipts, unvouched, refused);
  }

  /** Where a full read puts an open row that it knew. */
  lemma RestoredState(s: S.System, refused: set<string>, s': S.System, id: string)
    requires Safety.Inv(s) && S.Restores(s, refused, s') && S.Open(s.journal, id) && id in s.flight.read.known
    ensures VouchedFor(s.journal, s.flight.read, id) ==> S.In(s'.journal, id, Confirmed)
    ensures !VouchedFor(s.journal, s.flight.read, id) ==>
              (S.Open(s'.journal, id) <==> id !in refused) && !S.In(s'.journal, id, Confirmed)
  {
    var read := s.flight.read;
    Safety.RestoredAt(s, refused, s', id);
    BoundIffAgrees(s.journal[id].changes, read.snapshot);
    assert id in refused ==> id in S.RefusedFirst(s.journal, read) || S.Behind(s.journal, read, refused, id);
  }

  /** Where every record goes: confirmed with a receipt, gone when refused, and otherwise still open. */
  ghost predicate Goes(pending: seq<Interaction>, receipts: map<string, P.Reply>, refused: set<string>, j': Rows) {
    forall p | p in pending ::
      if p.commandId in receipts then S.In(j', p.commandId, Confirmed)
      else (S.Open(j', p.commandId) <==> p.commandId !in refused) && !S.In(j', p.commandId, Confirmed)
  }

  lemma RecordsGo(pending: seq<Interaction>, log: seq<Interaction>, s: S.System, refused: set<string>, s': S.System,
                  receipts: map<string, P.Reply>, unvouched: set<string>)
    requires Agree(pending, log, s.journal) && Safety.Inv(s) && S.Restores(s, refused, s')
    requires About(s.journal, s.flight.read, receipts, unvouched)
    ensures Goes(pending, receipts, refused, s'.journal)
  {
    forall p | p in pending
      ensures if p.commandId in receipts then S.In(s'.journal, p.commandId, Confirmed)
              else
                && (S.Open(s'.journal, p.commandId) <==> p.commandId !in refused)
                && !S.In(s'.journal, p.commandId, Confirmed)
    {
      assert Same(p, s.journal);
      RestoredState(s, refused, s', p.commandId);
    }
  }

  lemma {:induction false} ConfirmedFrom(pending: seq<Interaction>, receipts: map<string, P.Reply>, x: Interaction)
    returns (p: Interaction)
    requires x in P.Confirming(pending, receipts)
    ensures p in pending && p.commandId in receipts && Renewed(x, p, Confirmed)
    decreases |pending|
  {
    var init, last := pending[..|pending| - 1], pending[|pending| - 1];
    if x in P.Confirming(init, receipts) {
      p := ConfirmedFrom(init, receipts, x);
    } else {
      p := last;
    }
  }

  lemma KeptPair(order: seq<Interaction>, pending: seq<Interaction>, log: seq<Interaction>, confirmed: seq<Interaction>,
                 k: Interaction)
    requires P.Retain(order, pending, log, confirmed).Some? && k in P.Retain(order, pending, log, confirmed).value
    ensures exists p | p in order :: Renewed(k, p, p.state)
  {
    var kept := P.Retain(order, pending, log, confirmed).value;
    var i :| 0 <= i < |kept| && kept[i] == k;
    P.RetainAlike(order, pending, log, confirmed, i);
    assert order[i] in order && Renewed(k, order[i], order[i].state);
  }

  lemma PairsAsTheyGo(order: seq<Interaction>, pending: seq<Interaction>, log: seq<Interaction>,
                      receipts: map<string, P.Reply>, refused: set<string>, j': Rows)
    requires Goes(pending, receipts, refused, j') && UniqueIds(pending)
    requires forall p :: p in order <==> p in pending && p.commandId !in receipts && p.commandId !in refused
    requires P.Retain(order, pending, log, P.Confirming(pending, receipts)).Some?
    ensures var confirmed := P.Confirming(pending, receipts);
            Paired(pending, confirmed, P.Retain(order, pending, log, confirmed).value, j')
  {
    var confirmed := P.Confirming(pending, receipts);
    var kept := P.Retain(order, pending, log, confirmed).value;
    forall k | k in kept ensures S.Open(j', k.commandId) && exists p | p in pending :: Renewed(k, p, p.state) {
      KeptPair(order, pending, log, confirmed, k);
      var p :| p in order && Renewed(k, p, p.state);
    }
    forall x | x in confirmed
      ensures S.In(j', x.commandId, Confirmed) && exists p | p in pending :: Renewed(x, p, Confirmed)
    {
      var p := ConfirmedFrom(pending, receipts, x);
    }
    P.ConfirmedMembers(pending, receipts);
    P.KeptIds(order, pending, log, confirmed);
  }

  /** What the plan confirms and keeps, record by record, is what the protocol confirms and leaves open: the
      client's plan is a step that the joint machine allows. */
  lemma PlanPairs(pending: seq<Interaction>, log: seq<Interaction>, s: S.System, refused: set<string>, s': S.System,
                  receipts: map<string, P.Reply>, unvouched: set<string>)
    requires Agree(pending, log, s.journal) && Safety.Inv(s) && S.Restores(s, refused, s')
    requires P.Recoverable(pending, log, receipts) && About(s.journal, s.flight.read, receipts, unvouched)
    requires P.PlanOf(pending, log, receipts, unvouched).Some?
    ensures var plan := P.PlanOf(pending, log, receipts, unvouched).value;
            Paired(pending, plan.confirmed, plan.kept, s'.journal)
  {
    PlanRefusesAlike(pending, log, s.journal, s.flight.read, receipts, unvouched, refused);
    RecordsGo(pending, log, s, refused, s', receipts, unvouched);
    P.KeptExactly(pending, log, receipts, unvouched, refused);
    PairsAsTheyGo(P.Keeping(pending, receipts, unvouched).value, pending, log, receipts, refused, s'.journal);
  }
}
