/**
 What holds in every state of every run of the connected protocol: effects happen once, terminal
 rows stay, reversals happen once, and what is withdrawn was not committed.
 */
module ConnectedSafety {
  import opened Wrappers
  import opened Interactions
  import opened WorkspaceDelta
  import opened Receiptless
  import opened ConnectedSystem

  // ---------------------------------------------------------------------------------------
  // The invariant, part by part
  // ---------------------------------------------------------------------------------------

  /** What the sends and their verdicts say about the past. */
  datatype Past = Past(verdicts: map<nat, Verdict>, sent: seq<string>, irregular: set<string>)

  function PastOf(s: System): Past {
    Past(s.verdicts, s.sent, s.irregular)
  }

  /** Some attempt of the command was answered without a commit. */
  ghost predicate Spent(p: Past, id: string) {
    exists a :: a in p.verdicts && a < |p.sent| && p.sent[a] == id && (p.verdicts[a].Refused? || p.verdicts[a].NoOp?)
  }

  ghost predicate CommittedBy(p: Past, id: string) {
    exists a :: a in p.verdicts && a < |p.sent| && p.sent[a] == id && p.verdicts[a].Committed?
  }

  /** Withdrawing the command cannot contradict its first and only attempt. */
  ghost predicate Excused(p: Past, id: string) {
    id !in p.sent || id in p.irregular || Spent(p, id)
  }

  ghost predicate ServerInv(revision: nat, receipts: map<string, nat>, effects: seq<string>, wire: set<nat>, p: Past) {
    && Distinct(effects) && (forall id :: id in effects <==> id in receipts)
    && (forall id | id in receipts :: 0 < receipts[id] <= revision && CommittedBy(p, id))
    && (forall a | a in wire :: a < |p.sent| && a !in p.verdicts)
    && (forall a | a in p.verdicts :: a < |p.sent|)
  }

  ghost predicate FlightInv(flight: Flight, sent: seq<string>, j: map<string, JournalRow>, m: map<string, Entry>) {
    flight.Waiting? ==>
      flight.attempt < |sent| && sent[flight.attempt] == flight.id && In(j, flight.id, Active) && !ShutIn(m, flight.id)
  }

  ghost predicate RowInv(row: JournalRow, id: string, receipts: map<string, nat>, p: Past) {
    && id !in row.predecessors
    && (row.target.Some? ==> row.predecessors == {row.target.value})
    && (row.state == RollbackPending || Refusal(row.state) ==> Excused(p, id))
    && (row.noOp.Some? ==> Spent(p, id) && (id !in receipts ==> !row.owned))
    && (row.state == Confirmed && row.noOp.None? ==> id in receipts)
    && (row.revision.Some? ==> row.state == Confirmed && id in receipts && row.revision == Some(receipts[id]))
  }

  ghost predicate RowsInv(j: map<string, JournalRow>, receipts: map<string, nat>, p: Past) {
    forall id | id in j :: RowInv(j[id], id, receipts, p)
  }

  predicate Stands(j: map<string, JournalRow>, id: string)
    requires id in j
  {
    forall p | p in j[id].predecessors :: In(j, p, Confirmed)
  }

  /** Once regularly sent, a command stands on confirmed predecessors. */
  ghost predicate SentInv(j: map<string, JournalRow>, p: Past) {
    && (forall id | id in p.sent :: id in j)
    && forall id | id in j && id in p.sent && id !in p.irregular :: Stands(j, id)
  }

  /** An Undo waits for its target and for nothing else. */
  predicate EntryInv(e: Entry, id: string) {
    id !in e.predecessors && (e.target.Some? ==> e.predecessors == {e.target.value})
  }

  /** A predecessor's leftover quarantine holds the command back too. */
  predicate HeldBack(m: map<string, Entry>, predecessors: set<string>, id: string) {
    forall p | p in predecessors && p in m && Shut(m[p].status) ::
      m[p].status != Closed && id in m && m[id].status in {m[p].status, Closed, Quarantined(id)}
  }

  ghost predicate HeldInv(j: map<string, JournalRow>, m: map<string, Entry>, p: Past) {
    forall id | Open(j, id) && id in p.sent && id !in p.irregular :: HeldBack(m, j[id].predecessors, id)
  }

  ghost predicate RootsInv(j: map<string, JournalRow>, m: map<string, Entry>, p: Past) {
    forall y | y in m && m[y].status.Quarantined? && Open(j, m[y].status.root) :: Excused(p, m[y].status.root)
  }

  /** No original intent is lost: an open row has its mirror, and a command in preparation too. */
  ghost predicate MirrorInv(j: map<string, JournalRow>, m: map<string, Entry>, preparing: set<string>) {
    && (forall y | y in m :: EntryInv(m[y], y))
    && (forall id | Open(j, id) :: id in m)
    && (forall id | id in preparing :: id in m && id !in j)
  }

  /** Whatever is stored was reserved once. */
  predicate KnownInv(created: seq<string>, j: map<string, JournalRow>, m: map<string, Entry>) {
    (forall id | id in j :: id in created) && forall id | id in m :: id in created
  }

  /** A recovery reads no future, and its snapshot includes the receipts that it found. */
  predicate ReadInv(flight: Flight, revision: nat, receipts: map<string, nat>) {
    flight.Recovering? || flight.Replaced? ==>
      && flight.read.revision <= revision
      && forall id | id in flight.read.receipts :: id in receipts && receipts[id] <= flight.read.revision
  }

  ghost predicate ReversalInv(reversals: seq<string>, j: map<string, JournalRow>) {
    Distinct(reversals) && forall id | id in reversals :: id in j && Refusal(j[id].state)
  }

  ghost predicate Inv(s: System) {
    && ServerInv(s.revision, s.receipts, s.effects, s.wire, PastOf(s))
    && s.checkpoint <= s.revision && |s.bases| == |s.sent|
    && FlightInv(s.flight, s.sent, s.journal, s.mirror)
    && RowsInv(s.journal, s.receipts, PastOf(s))
    && SentInv(s.journal, PastOf(s))
    && HeldInv(s.journal, s.mirror, PastOf(s))
    && RootsInv(s.journal, s.mirror, PastOf(s))
    && MirrorInv(s.journal, s.mirror, s.preparing)
    && ReversalInv(s.reversals, s.journal)
    && KnownInv(s.created, s.journal, s.mirror)
    && ReadInv(s.flight, s.revision, s.receipts)
  }

  // ---------------------------------------------------------------------------------------
  // Authority and network
  // ---------------------------------------------------------------------------------------

  /** A verdict on a fresh attempt adds to the past and takes nothing away. */
  lemma VerdictAdds(p: Past, attempt: nat, v: Verdict, id: string)
    requires attempt !in p.verdicts
    ensures var p' := p.(verdicts := p.verdicts[attempt := v]);
            && (Spent(p, id) ==> Spent(p', id)) && (CommittedBy(p, id) ==> CommittedBy(p', id))
               && (Excused(p, id) ==> Excused(p', id))
  {
    var p' := p.(verdicts := p.verdicts[attempt := v]);
    if Spent(p, id) {
      var a :| a in p.verdicts && a < |p.sent| && p.sent[a] == id && (p.verdicts[a].Refused? || p.verdicts[a].NoOp?);
      assert p'.verdicts[a] == p.verdicts[a];
    }
    if CommittedBy(p, id) {
      var a :| a in p.verdicts && a < |p.sent| && p.sent[a] == id && p.verdicts[a].Committed?;
      assert p'.verdicts[a] == p.verdicts[a];
    }
  }

  lemma HandleServer(s: System, attempt: nat, v: Verdict, w: Workspace, s': System)
    requires ServerInv(s.revision, s.receipts, s.effects, s.wire, PastOf(s)) && Handles(s, attempt, v, w, s')
    ensures ServerInv(s'.revision, s'.receipts, s'.effects, s'.wire, PastOf(s'))
  {
    var p, p' := PastOf(s), PastOf(s');
    assert p' == p.(verdicts := p.verdicts[attempt := v]);
    forall id | id in s'.receipts ensures CommittedBy(p', id) && 0 < s'.receipts[id] <= s'.revision {
      if v.Committed? && id == s.sent[attempt] {
        assert p'.verdicts[attempt].Committed?;
      } else {
        VerdictAdds(p, attempt, v, id);
      }
    }
  }

  lemma HandleInv(s: System, attempt: nat, v: Verdict, w: Workspace, s': System)
    requires Inv(s) && Handles(s, attempt, v, w, s')
    ensures Inv(s')
  {
    var p, p' := PastOf(s), PastOf(s');
    HandleServer(s, attempt, v, w, s');
    forall id ensures Spent(p, id) ==> Spent(p', id) {
      VerdictAdds(p, attempt, v, id);
    }
    assert forall id :: Excused(p, id) ==> Excused(p', id);
    forall id | id in s.journal ensures RowInv(s.journal[id], id, s'.receipts, p') {
      assert RowInv(s.journal[id], id, s.receipts, p);
    }
  }

  lemma LoseInv(s: System, attempt: nat, s': System)
    requires Inv(s) && Loses(s, attempt, s')
    ensures Inv(s')
  {}

  lemma OtherWriteInv(s: System, w: Workspace, s': System)
    requires Inv(s) && OtherWrites(s, w, s')
    ensures Inv(s')
  {}

  lemma RestartInv(s: System, s': System)
    requires Inv(s) && Restarts(s, s')
    ensures Inv(s')
  {}

  // ---------------------------------------------------------------------------------------
  // Steps that move open rows
  // ---------------------------------------------------------------------------------------

  /** Terminal rows are the same, links are the same, and no closed row opens again. */
  predicate Progress(j: map<string, JournalRow>, j': map<string, JournalRow>) {
    && j'.Keys == j.Keys
    && (forall id | id in j :: j'[id].predecessors == j[id].predecessors && j'[id].target == j[id].target)
    && (forall id | id in j && Terminal(j[id].state) :: j'[id] == j[id])
  }

  /** One invariant per store survives a step that only moves open rows. */
  lemma ProgressInv(s: System, s': System)
    requires Inv(s) && Progress(s.journal, s'.journal)
    requires s' == s.(journal := s'.journal, flight := s'.flight, incorporated := s'.incorporated)
    requires !s'.flight.Waiting? && ReadInv(s'.flight, s'.revision, s'.receipts)
    requires RowsInv(s'.journal, s'.receipts, PastOf(s))
    ensures Inv(s')
  {
    var p := PastOf(s);
    assert PastOf(s') == p;
    forall id | id in s'.journal && id in p.sent && id !in p.irregular ensures Stands(s'.journal, id) {
      assert Stands(s.journal, id);
    }
    forall id | Open(s'.journal, id) ensures Open(s.journal, id) {}
    forall id | Open(s'.journal, id) && id in p.sent && id !in p.irregular
      ensures HeldBack(s.mirror, s'.journal[id].predecessors, id)
    {
      assert HeldBack(s.mirror, s.journal[id].predecessors, id);
    }
  }

  lemma ConfirmInv(s: System, id: string, s': System)
    requires Inv(s) && Confirms(s, id, true, s')
    ensures Inv(s')
  {
    var p := PastOf(s);
    forall x | x in s'.journal ensures RowInv(s'.journal[x], x, s'.receipts, p) {
      assert RowInv(s.journal[x], x, s.receipts, p);
    }
    ProgressInv(s, s');
  }

  lemma AcknowledgeInv(s: System, revision: nat, s': System)
    requires Inv(s) && Acknowledges(s, revision, s')
    ensures Inv(s')
  {
    var p := PastOf(s);
    assert Spent(p, s.flight.id);
    forall x | x in s'.journal ensures RowInv(s'.journal[x], x, s'.receipts, p) {
      assert RowInv(s.journal[x], x, s.receipts, p);
    }
    ProgressInv(s, s');
  }

  lemma ConfirmEmptyInv(s: System, id: string, s': System)
    requires Inv(s) && ConfirmsEmpty(s, id, s')
    ensures Inv(s')
  {
    var p := PastOf(s);
    forall x | x in s'.journal ensures RowInv(s'.journal[x], x, s'.receipts, p) {
      assert RowInv(s.journal[x], x, s.receipts, p);
    }
    ProgressInv(s, s');
  }

  lemma AdvanceInv(s: System, id: string, s': System)
    requires Inv(s) && Advances(s, id, s')
    ensures Inv(s')
  {
    assert RowInv(s.journal[id], id, s.receipts, PastOf(s));
  }

  /** Moving excused open rows to states that need an excuse. */
  lemma RefuseRows(s: System, ids: set<string>, s': System)
    requires Inv(s) && (forall id | id in ids :: Open(s.journal, id) && Excused(PastOf(s), id))
    requires s' == s.(journal := s'.journal, flight := Idle) && s'.journal.Keys == s.journal.Keys
    requires forall id | id in s.journal ::
               if id !in ids then s'.journal[id] == s.journal[id]
               else exists state :: (Refusal(state) || state == RollbackPending)
                                    && s'.journal[id] == s.journal[id].(state := state)
    ensures Inv(s')
  {
    var p := PastOf(s);
    forall id | id in s'.journal ensures RowInv(s'.journal[id], id, s'.receipts, p) {
      assert RowInv(s.journal[id], id, s.receipts, p);
    }
    ProgressInv(s, s');
  }

  // ---------------------------------------------------------------------------------------
  // Steps that move mirrors
  // ---------------------------------------------------------------------------------------

  /** Mirrors go away or change status, and every open command keeps one. */
  predicate Restatus(m: map<string, Entry>, m': map<string, Entry>) {
    m'.Keys <= m.Keys && forall y | y in m' :: m'[y].predecessors == m[y].predecessors && m'[y].target == m[y].target
  }

  lemma RestatusInv(s: System, s': System)
    requires Inv(s) && Restatus(s.mirror, s'.mirror)
    requires s' == s.(mirror := s'.mirror, flight := s'.flight, preparing := s'.preparing)
             && s'.preparing <= s.preparing
    requires FlightInv(s'.flight, s.sent, s.journal, s'.mirror) && ReadInv(s'.flight, s.revision, s.receipts)
    requires HeldInv(s.journal, s'.mirror, PastOf(s)) && RootsInv(s.journal, s'.mirror, PastOf(s))
    requires forall y | y in s.mirror && y !in s'.mirror :: y in s.journal && Terminal(s.journal[y].state)
    ensures Inv(s')
  {
    forall y | y in s'.mirror ensures EntryInv(s'.mirror[y], y) {
      assert EntryInv(s.mirror[y], y);
    }
  }

  /** Closing the mirror of a command without a terminal row. */
  lemma CloseInv(s: System, id: string, s': System)
    requires Inv(s) && id in s.mirror && !(id in s.journal && Terminal(s.journal[id].state))
    requires s.flight.Waiting? ==> s.flight.id != id
    requires s' == s.(mirror := WithStatus(s.mirror, {id}, Closed), preparing := s'.preparing)
             && s'.preparing <= s.preparing
    ensures Inv(s')
  {
    var p := PastOf(s);
    forall x | Open(s.journal, x) && x in p.sent && x !in p.irregular
      ensures HeldBack(s'.mirror, s.journal[x].predecessors, x)
    {
      assert HeldBack(s.mirror, s.journal[x].predecessors, x) && Stands(s.journal, x);
    }
    RestatusInv(s, s');
  }

  /** Giving unshut mirrors another status that does not shut them. */
  lemma StatusInv(s: System, ids: set<string>, status: Status, s': System)
    requires Inv(s) && !Shut(status) && forall id | id in ids :: !ShutIn(s.mirror, id)
    requires s' == s.(mirror := WithStatus(s.mirror, ids, status), flight := Idle)
    ensures Inv(s')
  {
    var p := PastOf(s);
    forall x | Open(s.journal, x) && x in p.sent && x !in p.irregular
      ensures HeldBack(s'.mirror, s.journal[x].predecessors, x)
    {
      assert HeldBack(s.mirror, s.journal[x].predecessors, x);
    }
    RestatusInv(s, s');
  }

  lemma TimeOutInv(s: System, noted: Option<Status>, s': System)
    requires Inv(s) && TimesOut(s, noted, s')
    ensures Inv(s')
  {
    if noted.Some? {
      StatusInv(s, {s.flight.id}, noted.value, s');
    }
  }

  lemma WaitingRows(s: System, id: string, mid: System)
    requires Inv(s) && Open(s.journal, id) && Live(s.journal[id].state)
    requires mid == s.(journal := s.journal[id := s.journal[id].(state := ProjectionPending)], flight := Idle)
    ensures Inv(mid)
  {
    forall x | x in mid.journal ensures RowInv(mid.journal[x], x, s.receipts, PastOf(s)) {
      assert RowInv(s.journal[x], x, s.receipts, PastOf(s));
    }
    ProgressInv(s, mid);
  }

  /** The receipt is durable even when its projection waits. */
  lemma ProjectionWaitsInv(s: System, id: string, s': System)
    requires Inv(s) && Confirms(s, id, false, s')
    ensures Inv(s')
  {
    var mid := s.(journal := s'.journal, flight := Idle);
    WaitingRows(s, id, mid);
    StatusInv(mid, {id}, Blocked, s');
  }

  lemma RetireInv(s: System, id: string, s': System)
    requires Inv(s) && Retires(s, id, s')
    ensures Inv(s')
  {
    var p := PastOf(s);
    forall x | Open(s.journal, x) && x in p.sent && x !in p.irregular
      ensures HeldBack(s'.mirror, s.journal[x].predecessors, x)
    {
      assert HeldBack(s.mirror, s.journal[x].predecessors, x) && Stands(s.journal, x);
    }
    RestatusInv(s, s');
  }

  lemma EndedHeld(s: System, root: string, m: map<string, Entry>, x: string)
    requires Inv(s) && root in s.journal && Refusal(s.journal[root].state)
    requires m == Ended(s.journal, Retired(s.journal, s.mirror, {root}), QuarantinedBy(s.mirror, {root}) - {root})
    requires Open(s.journal, x) && x in s.sent && x !in s.irregular
    ensures HeldBack(m, s.journal[x].predecessors, x)
  {
    assert HeldBack(s.mirror, s.journal[x].predecessors, x) && Stands(s.journal, x);
    forall q | q in s.journal[x].predecessors && q in m && Shut(m[q].status)
      ensures m[q].status != Closed && x in m && m[x].status in {m[q].status, Closed, Quarantined(x)}
    {
      assert In(s.journal, q, Confirmed) && q in s.mirror;
    }
  }

  lemma EndQuarantineInv(s: System, root: string, s': System)
    requires Inv(s) && EndsQuarantine(s, root, s')
    ensures Inv(s')
  {
    var p := PastOf(s);
    forall x | Open(s.journal, x) && x in p.sent && x !in p.irregular
      ensures HeldBack(s'.mirror, s.journal[x].predecessors, x)
    {
      EndedHeld(s, root, s'.mirror, x);
    }
    RestatusInv(s, s');
  }

  // ---------------------------------------------------------------------------------------
  // Beginning and sending
  // ---------------------------------------------------------------------------------------

  lemma ReserveInv(s: System, id: string, predecessors: set<string>, target: Option<string>, s': System)
    requires Inv(s) && Reserves(s, id, predecessors, target, s')
    ensures Inv(s')
  {
    var p := PastOf(s);
    forall y | y in s'.mirror ensures EntryInv(s'.mirror[y], y) {
      assert y != id ==> EntryInv(s.mirror[y], y);
    }
    forall x | Open(s.journal, x) && x in p.sent && x !in p.irregular
      ensures HeldBack(s'.mirror, s.journal[x].predecessors, x)
    {
      assert HeldBack(s.mirror, s.journal[x].predecessors, x);
    }
  }

  /** A new journal row that was never sent. */
  lemma NewRowInv(s: System, id: string, row: JournalRow, s': System)
    requires Inv(s) && id in s.mirror && id !in s.journal
    requires row.state in {Active, Rejected} && row.noOp.None? && row.revision.None?
    requires id !in row.predecessors && (row.target.Some? ==> row.predecessors == {row.target.value})
    requires s' == s.(journal := s.journal[id := row], preparing := s'.preparing) && s'.preparing <= s.preparing - {id}
    ensures Inv(s')
  {
    var p := PastOf(s);
    assert id !in p.sent && PastOf(s') == p;
    forall x | x in s'.journal ensures RowInv(s'.journal[x], x, s.receipts, p) {
      assert x != id ==> RowInv(s.journal[x], x, s.receipts, p);
    }
    forall x | x in s'.journal && x in p.sent && x !in p.irregular ensures Stands(s'.journal, x) {
      assert Stands(s.journal, x);
    }
    forall x | Open(s'.journal, x) && x in p.sent && x !in p.irregular
      ensures HeldBack(s.mirror, s'.journal[x].predecessors, x)
    {
      assert HeldBack(s.mirror, s.journal[x].predecessors, x);
    }
  }

  lemma PrepareInv(s: System, id: string, predecessors: set<string>, changes: seq<EntityChange>, archived: bool,
                   s': System)
    requires Inv(s) && (Journals(s, id, predecessors, changes, s') || PreparationFails(s, id, archived, s'))
    ensures Inv(s')
  {
    assert EntryInv(s.mirror[id], id);
    if id in s'.journal {
      NewRowInv(s, id, s'.journal[id], s');
    } else {
      CloseInv(s, id, s');
    }
  }

  lemma RecoverMirrorInv(s: System, id: string, how: MirrorOnly, s': System)
    requires Inv(s) && RecoversMirror(s, id, how, s')
    ensures Inv(s')
  {
    assert EntryInv(s.mirror[id], id);
    if how == Close {
      CloseInv(s, id, s');
    } else {
      NewRowInv(s, id, s'.journal[id], s');
    }
  }

  lemma LookUpInv(s: System, id: string, s': System)
    requires Inv(s) && LooksUp(s, id, s')
    ensures Inv(s')
  {}

  /** One more send, by a command that is still active. */
  lemma SendAdds(p: Past, id: string, irregular: bool, x: string)
    ensures var p' := Past(p.verdicts, p.sent + [id], if irregular then p.irregular + {id} else p.irregular);
            && (Spent(p, x) ==> Spent(p', x)) && (CommittedBy(p, x) ==> CommittedBy(p', x))
            && (x != id && Excused(p, x) ==> Excused(p', x))
  {
    var p' := Past(p.verdicts, p.sent + [id], if irregular then p.irregular + {id} else p.irregular);
    if Spent(p, x) {
      var a :| a in p.verdicts && a < |p.sent| && p.sent[a] == x && (p.verdicts[a].Refused? || p.verdicts[a].NoOp?);
      assert p'.sent[a] == x;
    }
    if CommittedBy(p, x) {
      var a :| a in p.verdicts && a < |p.sent| && p.sent[a] == x && p.verdicts[a].Committed?;
      assert p'.sent[a] == x;
    }
  }

  lemma SendStands(s: System, id: string, base: nat, s': System)
    requires Inv(s) && Sends(s, id, base, s') && !Irregular(s, id)
    ensures Stands(s.journal, id) && HeldBack(s.mirror, s.journal[id].predecessors, id)
  {
    forall q | q in s.journal[id].predecessors ensures In(s.journal, q, Confirmed) && !ShutIn(s.mirror, q) {
      assert !Refusal(Seen(s, q)) && !Live(Seen(s, q));
    }
  }

  lemma SendInv(s: System, id: string, base: nat, s': System)
    requires Inv(s) && Sends(s, id, base, s')
    ensures Inv(s')
  {
    var p, p' := PastOf(s), PastOf(s');
    assert p' == Past(p.verdicts, p.sent + [id], if Irregular(s, id) then p.irregular + {id} else p.irregular);
    forall x ensures (Spent(p, x) ==> Spent(p', x)) && (CommittedBy(p, x) ==> CommittedBy(p', x))
                     && (x != id && Excused(p, x) ==> Excused(p', x))
    {
      SendAdds(p, id, Irregular(s, id), x);
    }
    forall x | x in s.journal ensures RowInv(s.journal[x], x, s.receipts, p') {
      assert RowInv(s.journal[x], x, s.receipts, p);
    }
    if !Irregular(s, id) {
      SendStands(s, id, base, s');
    }
    SendRoots(s, id, p');
  }

  lemma SendRoots(s: System, id: string, p': Past)
    requires Inv(s) && id in s.journal
    requires p' == Past(s.verdicts, s.sent + [id], if Irregular(s, id) then s.irregular + {id} else s.irregular)
    ensures RootsInv(s.journal, s.mirror, p')
  {
    forall y | y in s.mirror && s.mirror[y].status.Quarantined? && Open(s.journal, s.mirror[y].status.root)
      ensures Excused(p', s.mirror[y].status.root)
    {
      var root := s.mirror[y].status.root;
      SendAdds(PastOf(s), id, Irregular(s, id), root);
      if root == id {
        assert s.mirror[y].status == Quarantined(id);
      }
    }
  }

  // ---------------------------------------------------------------------------------------
  // Rejecting
  // ---------------------------------------------------------------------------------------

  /** Whatever is refused was not committed by its only attempt. */
  lemma RefusableExcused(s: System, root: string)
    requires Inv(s) && Refusable(s, root)
    ensures Excused(PastOf(s), root)
  {
    var p := PastOf(s);
    if Answered(s, Refused) && s.flight.id == root {
      assert Spent(p, root);
    } else if y: string :| y in s.mirror && s.mirror[y].status == Quarantined(root) {
      assert Excused(p, s.mirror[y].status.root);
    } else {
      var q :| q in s.journal[root].predecessors && q in s.journal && Refusal(Seen(s, q));
    }
  }

  lemma DependentExcused(s: System, root: string, id: string)
    requires Inv(s) && Open(s.journal, root) && id in Dependents(s.journal, root)
    ensures Open(s.journal, id) && (id !in s.sent || id in s.irregular)
  {
    var n: nat :| Reaches(s.journal, root, id, n);
    var p :| p in s.journal[id].predecessors && Reaches(s.journal, root, p, n - 1);
    assert Open(s.journal, p);
  }

  lemma DependentsOpen(j: map<string, JournalRow>, root: string)
    ensures forall id | id in Dependents(j, root) :: Open(j, id)
  {
    forall id | id in Dependents(j, root) ensures Open(j, id) {
      var n: nat :| Reaches(j, root, id, n);
    }
  }

  lemma RejectOpen(s: System, root: string, ids: set<string>)
    requires Inv(s) && Open(s.journal, root) && ids <= {root} + Dependents(s.journal, root)
    ensures forall id | id in ids :: Open(s.journal, id)
    ensures Excused(PastOf(s), root) ==> forall id | id in ids :: Excused(PastOf(s), id)
  {
    forall id | id in ids ensures Open(s.journal, id) && (Excused(PastOf(s), root) ==> Excused(PastOf(s), id)) {
      if id != root {
        DependentExcused(s, root, id);
      }
    }
  }

  lemma DistinctConcat(a: seq<string>, b: seq<string>)
    requires Distinct(a) && Distinct(b) && forall id | id in a :: id !in b
    ensures Distinct(a + b)
  {
    forall i, j | 0 <= i < j < |a + b| ensures (a + b)[i] != (a + b)[j] {
      if i < |a| <= j {
        assert a[i] in a && b[j - |a|] in b;
      }
    }
  }

  lemma RejectedRows(s: System, root: string, state: JournalState, order: seq<string>, s': System, mid: System)
    requires Inv(s) && Rejects(s, root, state, order, s')
    requires mid == s.(journal := s'.journal, flight := Idle)
    ensures Inv(mid)
  {
    var ids := {root} + Dependents(s.journal, root);
    RefusableExcused(s, root);
    RejectOpen(s, root, ids);
    forall id | id in s.journal
      ensures if id in ids then exists st ::
                (Refusal(st) || st == RollbackPending) && mid.journal[id] == s.journal[id].(state := st)
              else mid.journal[id] == s.journal[id]
    {
      if id in ids {
        assert mid.journal[id] == s.journal[id].(state := if id == root then state else Rejected);
      }
    }
    RefuseRows(s, ids, mid);
  }

  lemma RejectInv(s: System, root: string, state: JournalState, order: seq<string>, s': System)
    requires Inv(s) && Rejects(s, root, state, order, s')
    ensures Inv(s')
  {
    var mid := s.(journal := s'.journal, flight := Idle);
    RejectedRows(s, root, state, order, s', mid);
    RejectOpen(s, root, {root} + Dependents(s.journal, root));
    forall id | id in s.reversals ensures id !in order {
      assert Refusal(s.journal[id].state);
    }
    DistinctConcat(s.reversals, order);
  }

  lemma RollbackFailRows(s: System, root: string, rows: set<string>, s': System)
    requires Inv(s) && Open(s.journal, root) && Excused(PastOf(s), root)
    requires rows <= {root} + Dependents(s.journal, root)
    requires s' == s.(journal := WithState(s.journal, rows, RollbackPending), flight := Idle)
    ensures Inv(s')
  {
    RejectOpen(s, root, rows);
    RefuseRows(s, rows, s');
  }

  lemma QuarantineHeld(s: System, root: string, marked: set<string>, m: map<string, Entry>, x: string)
    requires Inv(s) && Open(s.journal, root) && m == WithStatus(s.mirror, marked, Quarantined(root))
    requires marked == {root} + Dependents(s.journal, root) || marked == s.mirror.Keys
    requires Open(s.journal, x) && x in s.sent && x !in s.irregular
    ensures HeldBack(m, s.journal[x].predecessors, x)
  {
    assert HeldBack(s.mirror, s.journal[x].predecessors, x) && Stands(s.journal, x);
    if marked == {root} + Dependents(s.journal, root) {
      forall id | id in marked ensures Open(s.journal, id) && (id == x ==> x == root) {
        if id != root {
          DependentExcused(s, root, id);
        }
      }
    }
  }

  lemma QuarantineInv(s: System, root: string, marked: set<string>, s': System)
    requires Inv(s) && Open(s.journal, root) && Excused(PastOf(s), root)
    requires marked == {root} + Dependents(s.journal, root) || marked == s.mirror.Keys
    requires s' == s.(mirror := WithStatus(s.mirror, marked, Quarantined(root)), flight := Idle)
    ensures Inv(s')
  {
    var p := PastOf(s);
    forall x | Open(s.journal, x) && x in p.sent && x !in p.irregular
      ensures HeldBack(s'.mirror, s.journal[x].predecessors, x)
    {
      QuarantineHeld(s, root, marked, s'.mirror, x);
    }
    RestatusInv(s, s');
  }

  lemma RollbackFailInv(s: System, root: string, marked: set<string>, rows: set<string>, s': System)
    requires Inv(s) && RollbackFails(s, root, marked, rows, s')
    ensures Inv(s')
  {
    RefusableExcused(s, root);
    var mid := s.(mirror := WithStatus(s.mirror, marked, Quarantined(root)), flight := Idle);
    QuarantineInv(s, root, marked, mid);
    RollbackFailRows(mid, root, rows, s');
  }

  // ---------------------------------------------------------------------------------------
  // Restoring
  // ---------------------------------------------------------------------------------------

  /** Nothing a full read refuses was committed by its only attempt. */
  lemma RefusedSetExcused(s: System, read: Reading, refused: set<string>, id: string)
    requires Inv(s) && id in refused && RefusedSet(s.journal, read, refused)
    ensures Open(s.journal, id) && Excused(PastOf(s), id)
  {
    var first := RefusedFirst(s.journal, read);
    if id in first {
      assert RowInv(s.journal[id], id, s.receipts, PastOf(s));
      if id in s.sent && id !in s.irregular {
        assert Stands(s.journal, id);
      }
    } else {
      assert id in refused - first;
      var p :| p in s.journal[id].predecessors * refused;
      assert p in first || Behind(s.journal, read, refused, p);
    }
  }

  lemma RestoredRowInv(row: JournalRow, id: string, receipts: map<string, nat>, p: Past, read: Reading,
                       stale: set<string>, refused: set<string>)
    requires RowInv(row, id, receipts, p) && Unsettled(row.state) && stale <= refused
    requires id in refused ==> Excused(p, id)
    requires id in read.receipts ==> id in receipts && receipts[id] > 0
    requires row.state == RollbackPending && id !in read.receipts && row.noOp.None? ==> id in refused
    ensures RowInv(RestoredRow(row, id, receipts, read, stale, refused), id, receipts, p)
  {}

  lemma RestoredRows(s: System, refused: set<string>, s': System)
    requires Inv(s) && Restores(s, refused, s')
    ensures RowsInv(s'.journal, s.receipts, PastOf(s))
  {
    var p, read := PastOf(s), s.flight.read;
    forall id | id in s'.journal ensures RowInv(s'.journal[id], id, s.receipts, p) {
      assert RowInv(s.journal[id], id, s.receipts, p);
      if Open(s.journal, id) && id in read.known {
        if id in refused {
          RefusedSetExcused(s, read, refused, id);
        }
        assert s.journal[id].state == RollbackPending && id !in read.receipts && s.journal[id].noOp.None?
               ==> id in RefusedFirst(s.journal, read);
        RestoredRowInv(s.journal[id], id, s.receipts, p, read, Stale(s.journal, read), refused);
      }
    }
  }

  lemma RestoreProgress(s: System, refused: set<string>, s': System)
    requires Restores(s, refused, s')
    ensures Progress(s.journal, s'.journal)
  {
    forall id | id in s.journal
      ensures s'.journal[id].predecessors == s.journal[id].predecessors && s'.journal[id].target == s.journal[id].target
      ensures Terminal(s.journal[id].state) ==> s'.journal[id] == s.journal[id]
    {
      RestoredAt(s, refused, s', id);
    }
  }

  /** One row after a full read. */
  lemma RestoredAt(s: System, refused: set<string>, s': System, id: string)
    requires Restores(s, refused, s') && id in s.journal
    ensures s'.journal.Keys == s.journal.Keys
    ensures var read := s.flight.read;
            s'.journal[id] == if Open(s.journal, id) && id in read.known
                              then RestoredRow(s.journal[id], id, s.receipts, read, Stale(s.journal, read), refused)
                              else s.journal[id]
  {}

  lemma RestoreInv(s: System, refused: set<string>, s': System)
    requires Inv(s) && Restores(s, refused, s')
    ensures Inv(s')
  {
    RestoredRows(s, refused, s');
    RestoreProgress(s, refused, s');
    ProgressInv(s, s');
  }

  lemma FlightOnly(s: System, flight: Flight, checkpoint: nat)
    requires Inv(s) && !flight.Waiting? && ReadInv(flight, s.revision, s.receipts) && checkpoint <= s.revision
    ensures Inv(s.(flight := flight, checkpoint := checkpoint))
  {
    assert PastOf(s.(flight := flight, checkpoint := checkpoint)) == PastOf(s);
  }

  lemma ReadingInv(s: System, receipts: set<string>, s': System)
    requires Inv(s) && (Reads(s, receipts, s') || Finalizes(s, s') || GivesUp(s, s'))
    ensures Inv(s')
  {
    FlightOnly(s, s'.flight, s'.checkpoint);
  }

  // ---------------------------------------------------------------------------------------
  // Every step
  // ---------------------------------------------------------------------------------------

  /** Steps of the authority, the network, preparation and sending. */
  predicate Outward(step: Step) {
    step.Handle? || step.Lose? || step.OtherWrite? || step.Restart? || step.Reserve? || step.Journal?
      || step.PreparationFail?
    || step.LookUp? || step.Send? || step.TimeOut? || step.RecoverMirror?
  }

  /** Of these, the ones that reserve or journal a command. */
  predicate Prepares(step: Step) {
    step.Reserve? || step.Journal? || step.PreparationFail? || step.RecoverMirror?
  }

  lemma PreparesInv(s: System, step: Step, s': System)
    requires Inv(s) && Next(s, step, s') && Prepares(step)
    ensures Inv(s')
  {
    match step
    case Reserve(id, predecessors, target) => ReserveInv(s, id, predecessors, target, s');
    case Journal(id, predecessors, changes) => PrepareInv(s, id, predecessors, changes, false, s');
    case PreparationFail(id, archived) => PrepareInv(s, id, {}, [], archived, s');
    case RecoverMirror(id, how) => RecoverMirrorInv(s, id, how, s');
  }

  lemma OutwardInv(s: System, step: Step, s': System)
    requires Inv(s) && Next(s, step, s') && Outward(step) && !Prepares(step)
    ensures Inv(s')
  {
    match step
    case Handle(attempt, v, w) => HandleInv(s, attempt, v, w, s');
    case Lose(attempt) => LoseInv(s, attempt, s');
    case OtherWrite(w) => OtherWriteInv(s, w, s');
    case Restart => RestartInv(s, s');
    case LookUp(id) => LookUpInv(s, id, s');
    case Send(id, base) => SendInv(s, id, base, s');
    case TimeOut(noted) => TimeOutInv(s, noted, s');
  }

  /** What the steps outward leave alone, and what they add. */
  lemma OutwardFrame(s: System, step: Step, s': System)
    requires Next(s, step, s') && Outward(step)
    ensures s'.reversals == s.reversals && s'.incorporated == s.incorporated && s'.checkpoint == s.checkpoint
    ensures s'.sent == if step.Send? then s.sent + [step.id] else s.sent
    ensures s'.created == if step.Reserve? then s.created + [step.id] else s.created
    ensures s.irregular <= s'.irregular && s.receipts.Keys <= s'.receipts.Keys
  {}

  /** The same for the other steps. */
  lemma SettlingFrame(s: System, step: Step, s': System)
    requires Next(s, step, s') && !Outward(step)
    ensures s'.sent == s.sent && s'.effects == s.effects && s'.irregular == s.irregular
    ensures s'.created == s.created && s'.receipts == s.receipts && s.incorporated <= s'.incorporated
    ensures s'.reversals == if step.Reject? then s.reversals + step.order else s.reversals
  {}

  lemma OutwardKeepsRow(s: System, step: Step, s': System, id: string)
    requires Next(s, step, s') && Outward(step) && id in s.journal
    ensures id in s'.journal && s'.journal[id] == s.journal[id]
  {
    if Prepares(step) {
      PreparesKeepsRow(s, step, s', id);
    }
  }

  lemma PreparesKeepsRow(s: System, step: Step, s': System, id: string)
    requires Next(s, step, s') && Prepares(step) && id in s.journal
    ensures id in s'.journal && s'.journal[id] == s.journal[id]
  {
    if step.RecoverMirror? {
      RecoverKeepsRow(s, step.id, step.how, s', id);
    }
  }

  lemma RecoverKeepsRow(s: System, id: string, how: MirrorOnly, s': System, x: string)
    requires RecoversMirror(s, id, how, s') && x in s.journal
    ensures x in s'.journal && s'.journal[x] == s.journal[x]
  {}

  lemma SettlingInv(s: System, step: Step, s': System)
    requires Inv(s) && Next(s, step, s') && !Outward(step) && !Recovers(step)
    ensures Inv(s')
  {
    if step.Confirm? || step.ConfirmEmpty? || step.Acknowledge? {
      RepliesInv(s, step, s');
    } else {
      RetiresInv(s, step, s');
    }
  }

  lemma RepliesInv(s: System, step: Step, s': System)
    requires Inv(s) && Next(s, step, s') && (step.Confirm? || step.ConfirmEmpty? || step.Acknowledge?)
    ensures Inv(s')
  {
    match step
    case Confirm(id, projected) =>
      if projected {
        ConfirmInv(s, id, s');
      } else {
        ProjectionWaitsInv(s, id, s');
      }
    case ConfirmEmpty(id) => ConfirmEmptyInv(s, id, s');
    case Acknowledge(revision) => AcknowledgeInv(s, revision, s');
  }

  lemma RetiresInv(s: System, step: Step, s': System)
    requires Inv(s) && Next(s, step, s') && !Outward(step) && !Recovers(step)
    requires !step.Confirm? && !step.ConfirmEmpty? && !step.Acknowledge?
    ensures Inv(s')
  {
    match step
    case Reject(id, state, order) => RejectInv(s, id, state, order, s');
    case RollbackFail(id, marked, rows) => RollbackFailInv(s, id, marked, rows, s');
    case Retire(id) => RetireInv(s, id, s');
    case EndQuarantine(id) => EndQuarantineInv(s, id, s');
    case CloseQuarantine(id) => CloseInv(s, id, s');
    case Advance(id) => AdvanceInv(s, id, s');
  }

  /** The steps of a full read. */
  predicate Recovers(step: Step) {
    step.Read? || step.Restore? || step.Finalize? || step.GiveUp?
  }

  lemma RecoversInv(s: System, step: Step, s': System)
    requires Inv(s) && Next(s, step, s') && Recovers(step)
    ensures Inv(s')
  {
    match step
    case Read(receipts) => ReadingInv(s, receipts, s');
    case Restore(refused) => RestoreInv(s, refused, s');
    case Finalize => ReadingInv(s, {}, s');
    case GiveUp => ReadingInv(s, {}, s');
  }

  lemma NextInv(s: System, step: Step, s': System)
    requires Inv(s) && Next(s, step, s')
    ensures Inv(s')
  {
    if Prepares(step) {
      PreparesInv(s, step, s');
    } else if Outward(step) {
      OutwardInv(s, step, s');
    } else if Recovers(step) {
      RecoversInv(s, step, s');
    } else {
      SettlingInv(s, step, s');
    }
  }

  lemma {:induction false} RunInv(states: seq<System>, steps: seq<Step>, n: nat)
    requires Run(states, steps) && n <= |steps|
    ensures Inv(states[n])
    decreases n
  {
    if n > 0 {
      RunInv(states, steps, n - 1);
      NextInv(states[n - 1], steps[n - 1], states[n]);
    }
  }

  // ---------------------------------------------------------------------------------------
  // Safety of every run
  // ---------------------------------------------------------------------------------------

  /** Every intent keeps one identity and changes the server at most once, however often it is sent
      and whatever is lost; nothing is committed that was not sent. */
  lemma CommittedAtMostOnce(states: seq<System>, steps: seq<Step>, n: nat)
    requires Run(states, steps) && n <= |steps|
    ensures var s := states[n];
            && (forall i, j | 0 <= i < j < |s.effects| :: s.effects[i] != s.effects[j])
            && (forall id | id in s.effects :: id in s.sent && id in s.journal)
  {
    RunInv(states, steps, n);
    var s := states[n];
    forall id | id in s.effects ensures id in s.sent && id in s.journal {
      assert CommittedBy(PastOf(s), id);
    }
  }

  lemma RejectKeepsTerminal(s: System, root: string, state: JournalState, order: seq<string>, s': System, id: string)
    requires Inv(s) && Rejects(s, root, state, order, s') && id in s.journal && Terminal(s.journal[id].state)
    ensures id in s'.journal && s'.journal[id] == s.journal[id] && id !in order
  {
    RejectOpen(s, root, {root} + Dependents(s.journal, root));
  }

  lemma RollbackFailKeepsTerminal(s: System, root: string, marked: set<string>, rows: set<string>, s': System,
                                  id: string)
    requires Inv(s) && RollbackFails(s, root, marked, rows, s') && id in s.journal && Terminal(s.journal[id].state)
    ensures id in s'.journal && s'.journal[id] == s.journal[id]
  {
    RejectOpen(s, root, rows);
  }

  lemma SettlingKeepsTerminal(s: System, step: Step, s': System, id: string)
    requires Next(s, step, s') && !Outward(step) && !step.Reject? && !step.RollbackFail?
    requires id in s.journal && Terminal(s.journal[id].state)
    ensures id in s'.journal && s'.journal[id] == s.journal[id]
  {}

  lemma NextKeepsTerminalRow(s: System, step: Step, s': System, id: string)
    requires Inv(s) && Next(s, step, s') && id in s.journal && Terminal(s.journal[id].state)
    ensures id in s'.journal && s'.journal[id] == s.journal[id]
    ensures step.Reject? ==> id !in step.order
  {
    if Outward(step) {
      OutwardKeepsRow(s, step, s', id);
    } else if step.Reject? {
      RejectKeepsTerminal(s, step.id, step.state, step.order, s', id);
    } else if step.RollbackFail? {
      RollbackFailKeepsTerminal(s, step.id, step.marked, step.rows, s', id);
    } else {
      SettlingKeepsTerminal(s, step, s', id);
    }
  }

  /** Only sending extends the sends and only rejecting extends the reversals. */
  lemma NextHistories(s: System, step: Step, s': System)
    requires Next(s, step, s')
    ensures s'.sent == if step.Send? then s.sent + [step.id] else s.sent
    ensures s'.reversals == if step.Reject? then s.reversals + step.order else s.reversals
    ensures step.Send? ==> In(s.journal, step.id, Active)
  {
    if Outward(step) {
      OutwardFrame(s, step, s');
    } else {
      SettlingFrame(s, step, s');
    }
  }

  /** From one state to a later one the command's row is the same, and it was neither sent nor
      reversed in between. */
  predicate Settled(s: System, t: System, id: string) {
    && id in s.journal && id in t.journal && t.journal[id] == s.journal[id]
    && |s.sent| <= |t.sent| && t.sent[..|s.sent|] == s.sent && id !in t.sent[|s.sent|..]
    && |s.reversals| <= |t.reversals| && t.reversals[..|s.reversals|] == s.reversals
       && id !in t.reversals[|s.reversals|..]
  }

  lemma Tail(a: seq<string>, b: seq<string>, c: seq<string>, id: string)
    requires |a| <= |b| <= |c| && b[..|a|] == a && c[..|b|] == b && id !in b[|a|..] && id !in c[|b|..]
    ensures c[..|a|] == a && id !in c[|a|..]
  {
    assert c == b + c[|b|..];
    assert c[|a|..] == b[|a|..] + c[|b|..];
  }

  lemma SettledSame(s: System, id: string)
    requires id in s.journal
    ensures Settled(s, s, id)
  {}

  lemma SettledFurther(s: System, t: System, u: System, id: string)
    requires Settled(s, t, id) && Settled(t, u, id)
    ensures Settled(s, u, id)
  {
    Tail(s.sent, t.sent, u.sent, id);
    Tail(s.reversals, t.reversals, u.reversals, id);
  }

  lemma NextKeepsTerminal(s: System, step: Step, s': System, id: string)
    requires Inv(s) && Next(s, step, s') && id in s.journal && Terminal(s.journal[id].state)
    ensures Settled(s, s', id)
  {
    NextKeepsTerminalRow(s, step, s', id);
    NextHistories(s, step, s');
  }

  lemma LaterStep(states: seq<System>, steps: seq<Step>, n: nat)
    requires Run(states, steps) && n < |steps|
    ensures Next(states[n], steps[n], states[n + 1])
  {}

  lemma RunKeepsTerminal(states: seq<System>, steps: seq<Step>, n: nat, id: string)
    requires Run(states, steps) && n < |steps| && id in states[n].journal && Terminal(states[n].journal[id].state)
    ensures Settled(states[n], states[n + 1], id)
  {
    RunInv(states, steps, n);
    LaterStep(states, steps, n);
    NextKeepsTerminal(states[n], steps[n], states[n + 1], id);
  }

  /** A terminal row is never rewritten, its command is never sent again and its delta is never
      reversed again, whichever store was behind when the tab stopped. */
  lemma {:induction false} TerminalForever(states: seq<System>, steps: seq<Step>, i: nat, j: nat, id: string)
    requires Run(states, steps) && i <= j <= |steps|
    requires id in states[i].journal && Terminal(states[i].journal[id].state)
    ensures Settled(states[i], states[j], id)
    decreases j
  {
    if i == j {
      SettledSame(states[i], id);
    } else {
      TerminalForever(states, steps, i, j - 1, id);
      RunKeepsTerminal(states, steps, j - 1, id);
      SettledFurther(states[i], states[j - 1], states[j], id);
    }
  }

  /** No delta is reversed twice, and only a command that ends refused is reversed at all. */
  lemma ReversedAtMostOnce(states: seq<System>, steps: seq<Step>, n: nat)
    requires Run(states, steps) && n <= |steps|
    ensures var s := states[n];
            && (forall i, j | 0 <= i < j < |s.reversals| :: s.reversals[i] != s.reversals[j])
            && forall id | id in s.reversals :: id in s.journal && Refusal(s.journal[id].state)
  {
    RunInv(states, steps, n);
  }

  /** Commits respect dependency: the receipts of a command's predecessors come before its own. */
  ghost predicate CommitOrder(s: System) {
    forall j | 0 <= j < |s.effects| && s.effects[j] in s.journal && s.effects[j] !in s.irregular ::
      forall p | p in s.journal[s.effects[j]].predecessors ::
        p in s.journal && s.journal[p].state == Confirmed && (s.journal[p].noOp.None? ==> p in s.effects[..j])
  }

  lemma NextEffects(s: System, step: Step, s': System)
    requires Next(s, step, s')
    ensures s'.effects == s.effects ||
            (step.Handle? && |s'.effects| == |s.effects| + 1 && s'.effects[..|s.effects|] == s.effects
             && s'.journal == s.journal
             && s'.irregular == s.irregular)
    ensures s.irregular <= s'.irregular
  {
    if Outward(step) {
      OutwardFrame(s, step, s');
    } else {
      SettlingFrame(s, step, s');
    }
  }

  lemma SettlingLinks(s: System, step: Step, s': System, id: string)
    requires Next(s, step, s') && !Outward(step) && id in s.journal
    ensures id in s'.journal && s'.journal[id].predecessors == s.journal[id].predecessors
  {}

  lemma NextLinks(s: System, step: Step, s': System)
    requires Next(s, step, s')
    ensures forall id | id in s.journal :: id in s'.journal && s'.journal[id].predecessors == s.journal[id].predecessors
  {
    forall id | id in s.journal ensures id in s'.journal && s'.journal[id].predecessors == s.journal[id].predecessors {
      if Outward(step) {
        OutwardKeepsRow(s, step, s', id);
      } else {
        SettlingLinks(s, step, s', id);
      }
    }
  }

  lemma NextCommits(s: System, step: Step, s': System)
    requires Next(s, step, s')
    ensures s'.effects == s.effects ||
            (step.Handle? && |s'.effects| == |s.effects| + 1 && s'.effects[..|s.effects|] == s.effects
             && s'.journal == s.journal
             && s'.irregular == s.irregular)
    ensures forall id | id in s.journal :: id in s'.journal && s'.journal[id].predecessors == s.journal[id].predecessors
    ensures s.irregular <= s'.irregular
  {
    NextEffects(s, step, s');
    NextLinks(s, step, s');
  }

  lemma CommitOrderKept(s: System, step: Step, s': System, j: nat, p: string)
    requires Inv(s) && Next(s, step, s') && CommitOrder(s)
    requires j < |s.effects| && s.effects[j] in s.journal && s.effects[j] !in s.irregular
    requires p in s.journal[s.effects[j]].predecessors
    ensures p in s'.journal && s'.journal[p].state == Confirmed && (s'.journal[p].noOp.None? ==> p in s.effects[..j])
  {
    NextKeepsTerminalRow(s, step, s', p);
  }

  lemma CommitOrderNew(s: System, id: string, p: string)
    requires Inv(s) && id in s.journal && id in s.sent && id !in s.irregular && p in s.journal[id].predecessors
    ensures p in s.journal && s.journal[p].state == Confirmed && (s.journal[p].noOp.None? ==> p in s.effects)
  {
    assert Stands(s.journal, id);
    assert RowInv(s.journal[p], p, s.receipts, PastOf(s));
  }

  lemma EffectSent(s: System, j: nat)
    requires Inv(s) && j < |s.effects|
    ensures s.effects[j] in s.sent && s.effects[j] in s.journal
  {
    assert CommittedBy(PastOf(s), s.effects[j]);
  }

  lemma CommitOrderAt(s: System, step: Step, s': System, j: nat, p: string)
    requires Inv(s) && Next(s, step, s') && CommitOrder(s)
    requires j < |s'.effects| && s'.effects[j] in s'.journal && s'.effects[j] !in s'.irregular
             && s'.effects[j] in s'.sent
    requires p in s'.journal[s'.effects[j]].predecessors
    ensures p in s'.journal && s'.journal[p].state == Confirmed && (s'.journal[p].noOp.None? ==> p in s'.effects[..j])
  {
    NextCommits(s, step, s');
    NextHistories(s, step, s');
    if j < |s.effects| {
      assert s'.effects[..j] == s.effects[..j] && s.effects[j] == s'.effects[j];
      EffectSent(s, j);
      CommitOrderKept(s, step, s', j, p);
    } else {
      assert s'.effects[..j] == s.effects;
      CommitOrderNew(s, s'.effects[j], p);
    }
  }

  lemma NextKeepsOrder(s: System, step: Step, s': System)
    requires Inv(s) && Inv(s') && Next(s, step, s') && CommitOrder(s)
    ensures CommitOrder(s')
  {
    forall j | 0 <= j < |s'.effects| && s'.effects[j] in s'.journal && s'.effects[j] !in s'.irregular
      ensures forall p | p in s'.journal[s'.effects[j]].predecessors ::
        p in s'.journal && s'.journal[p].state == Confirmed && (s'.journal[p].noOp.None? ==> p in s'.effects[..j])
    {
      var id := s'.effects[j];
      assert CommittedBy(PastOf(s'), id);
      assert Stands(s'.journal, id);
      forall p | p in s'.journal[id].predecessors
        ensures p in s'.journal && s'.journal[p].state == Confirmed
                && (s'.journal[p].noOp.None? ==> p in s'.effects[..j])
      {
        CommitOrderAt(s, step, s', j, p);
      }
    }
  }

  lemma {:induction false} CommitsInDependencyOrder(states: seq<System>, steps: seq<Step>, n: nat)
    requires Run(states, steps) && n <= |steps|
    ensures CommitOrder(states[n])
    decreases n
  {
    if n > 0 {
      CommitsInDependencyOrder(states, steps, n - 1);
      RunInv(states, steps, n - 1);
      RunInv(states, steps, n);
      NextKeepsOrder(states[n - 1], steps[n - 1], states[n]);
    }
  }

  /** A command that the client withdrew was never committed, unless it was sent more than once
      after an unknown outcome, or sent past the blind spots above. */
  lemma WithdrawnWasNotCommitted(states: seq<System>, steps: seq<Step>, n: nat, id: string)
    requires Run(states, steps) && n <= |steps|
    requires id in states[n].journal && Refusal(states[n].journal[id].state) && id in states[n].effects
    ensures Twice(states[n].sent, id) || id in states[n].irregular
  {
    var s := states[n];
    RunInv(states, steps, n);
    assert RowInv(s.journal[id], id, s.receipts, PastOf(s)) && CommittedBy(PastOf(s), id);
    if id !in s.irregular {
      assert Spent(PastOf(s), id);
      var a :| a in s.verdicts && a < |s.sent| && s.sent[a] == id && (s.verdicts[a].Refused? || s.verdicts[a].NoOp?);
      var b :| b in s.verdicts && b < |s.sent| && s.sent[b] == id && s.verdicts[b].Committed?;
      assert a != b;
    }
  }

  /** A rejection settles the root and every transitive dependent at once, touches no other row, and
      no dependent it withdraws had been regularly sent. */
  lemma RejectionIsExact(states: seq<System>, steps: seq<Step>, n: nat)
    requires Run(states, steps) && n < |steps| && steps[n].Reject?
    ensures var s, s', root := states[n], states[n + 1], steps[n].id;
            && root in s'.journal && s'.journal[root].state == steps[n].state
            && (forall id | id in Dependents(s.journal, root) ::
                  && id in s'.journal && s'.journal[id].state == Rejected
                  && (id in s.sent ==> id in s.irregular))
            && (forall id | id in s.journal && id != root && id !in Dependents(s.journal, root) ::
                  id in s'.journal && s'.journal[id] == s.journal[id])
            && s'.sent == s.sent && s'.effects == s.effects
  {
    RunInv(states, steps, n);
    var s := states[n];
    assert Next(s, steps[n], states[n + 1]);
    forall id | id in Dependents(s.journal, steps[n].id) ensures id in s.sent ==> id in s.irregular {
      DependentExcused(s, steps[n].id, id);
    }
  }
}
