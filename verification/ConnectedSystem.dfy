/**
 The command protocol end to end: an authority with durable receipts, a lossy network, and a
 client that keeps its journal and its mirror in two stores and may stop between any two writes.

 Cache contents are left to the optimistic cache; this machine is about which commands are sent,
 committed, confirmed, withdrawn and retired, over every interleaving of clicks, losses, late
 deliveries, storage failures, restarts, other writers and recoveries. The effects, the reversals,
 the incorporated revisions and the irregular sends are histories that no step reads; the sends
 number the attempts, and the order of reservation stands for the clock.
 */
module ConnectedSystem {
  import opened Wrappers
  import opened Interactions
  import opened WorkspaceDelta
  import opened Receiptless

  // ---------------------------------------------------------------------------------------
  // State
  // ---------------------------------------------------------------------------------------

  /** A journal row. `noOp` is the revision of a receiptless acknowledgement and `owned` says that
      the row holds compensation evidence. */
  datatype JournalRow = JournalRow(state: JournalState, predecessors: set<string>, target: Option<string>,
                                   changes: seq<EntityChange>,
                                   noOp: Option<nat>, owned: bool, base: nat, revision: Option<nat>)

  datatype Status = Pending | Unknown | Closed | Blocked | Quarantined(root: string)

  datatype Entry = Entry(status: Status, predecessors: set<string>, target: Option<string>)

  datatype Verdict = Committed(revision: nat) | Known | Refused | NoOp(revision: nat)

  /** What evaluating a command comes to, given the base that its request names and the revision that it
      meets: the same whenever it is evaluated so. */
  datatype Judgement = WouldCommit | WouldRefuse | WouldNotWrite

  /** A full recovery: the rows and reservations it started from, the receipts it found, and the
      snapshot it read. */
  datatype Reading = Reading(known: set<string>, reserved: set<string>, receipts: set<string>, revision: nat,
                             snapshot: Workspace)

  /** The one request or recovery that is under way in memory. */
  datatype Flight =
    | Idle | LookedUp(id: string) | Waiting(id: string, attempt: nat)
    | Recovering(read: Reading) | Replaced(read: Reading)

  datatype System = System(
    judge: (string, nat, nat) -> Judgement,
    revision: nat,
    snapshot: Workspace,
    receipts: map<string, nat>,
    effects: seq<string>,
    wire: set<nat>,
    verdicts: map<nat, Verdict>,
    journal: map<string, JournalRow>,
    mirror: map<string, Entry>,
    checkpoint: nat,
    incorporated: set<nat>,
    created: seq<string>,
    preparing: set<string>,
    flight: Flight,
    sent: seq<string>,
    bases: seq<nat>,
    irregular: set<string>,
    reversals: seq<string>)

  predicate Live(s: JournalState) {
    s == Active || s == ProjectionPending
  }

  predicate Refusal(s: JournalState) {
    s == Rejected || s == Conflict
  }

  /** The mirror closes the command to sending. */
  predicate Shut(s: Status) {
    s == Closed || s.Quarantined?
  }

  predicate In(j: map<string, JournalRow>, id: string, state: JournalState) {
    id in j && j[id].state == state
  }

  predicate Open(j: map<string, JournalRow>, id: string) {
    id in j && Unsettled(j[id].state)
  }

  predicate ShutIn(m: map<string, Entry>, id: string) {
    id in m && Shut(m[id].status)
  }

  function WithState(j: map<string, JournalRow>, ids: set<string>, state: JournalState): map<string, JournalRow> {
    map id | id in j :: if id in ids then j[id].(state := state) else j[id]
  }

  function WithStatus(m: map<string, Entry>, ids: set<string>, status: Status): map<string, Entry> {
    map id | id in m :: if id in ids then m[id].(status := status) else m[id]
  }

  predicate Distinct(ids: seq<string>) {
    forall i, j | 0 <= i < j < |ids| :: ids[i] != ids[j]
  }

  /** The first command was reserved before the second. */
  predicate Before(created: seq<string>, a: string, b: string) {
    exists i, j | 0 <= i < j < |created| :: created[i] == a && created[j] == b
  }

  predicate Twice(ids: seq<string>, id: string) {
    exists i, j | 0 <= i < j < |ids| :: ids[i] == id && ids[j] == id
  }

  // ---------------------------------------------------------------------------------------
  // Authority and network
  // ---------------------------------------------------------------------------------------

  /** A request arrives. A known identity is answered from its receipt and changes nothing; any other
      is judged on the revision that it meets. */
  ghost predicate Handles(s: System, attempt: nat, v: Verdict, w: Workspace, s': System) {
    && attempt in s.wire && attempt < |s.sent| == |s.bases|
    && var id := s.sent[attempt];
       && v == (if id in s.receipts then Known
                else match s.judge(id, s.bases[attempt], s.revision)
                     case WouldCommit => Committed(s.revision + 1)
                     case WouldRefuse => Refused
                     case WouldNotWrite => NoOp(s.revision))
       && s' == s.(revision := if v.Committed? then s.revision + 1 else s.revision,
                   snapshot := if v.Committed? then w else s.snapshot,
                   receipts := if v.Committed? then s.receipts[id := v.revision] else s.receipts,
                   effects := if v.Committed? then s.effects + [id] else s.effects,
                   wire := s.wire - {attempt},
                   verdicts := s.verdicts[attempt := v])
  }

  ghost predicate Loses(s: System, attempt: nat, s': System) {
    s' == s.(wire := s.wire - {attempt})
  }

  ghost predicate OtherWrites(s: System, w: Workspace, s': System) {
    s' == s.(revision := s.revision + 1, snapshot := w)
  }

  // ---------------------------------------------------------------------------------------
  // Preparing a command
  // ---------------------------------------------------------------------------------------

  /** The mirror reserves the command before the first asynchronous write. Its predecessors are the
      reserved commands on the same entities that are not closed, or the target of an Undo. */
  ghost predicate Reserves(s: System, id: string, predecessors: set<string>, target: Option<string>, s': System) {
    && id !in s.created && id !in predecessors
    && (if target.Some? then predecessors == {target.value}
        else forall p | p in predecessors :: p in s.mirror && s.mirror[p].status != Closed)
    && s' == s.(mirror := s.mirror[id := Entry(Pending, predecessors, target)], preparing := s.preparing + {id},
                created := s.created + [id])
  }

  /** The journal row and the projection commit together. More predecessors come from the journal as it
      was when the command was reserved. */
  ghost predicate Journals(s: System, id: string, predecessors: set<string>, changes: seq<EntityChange>, s': System) {
    && id in s.preparing && id in s.mirror && id !in s.journal
    && s.mirror[id].predecessors <= predecessors && id !in predecessors
    && (forall p | p in predecessors - s.mirror[id].predecessors :: Open(s.journal, p) && Before(s.created, p, id))
    && (s.mirror[id].target.Some? ==>
          && TargetKnown(s, id) && predecessors == {s.mirror[id].target.value}
          && s.journal[s.mirror[id].target.value].state in {Active, Confirmed})
    && s' == s.(journal := s.journal[id := JournalRow(Active, predecessors, s.mirror[id].target, changes, None, true,
                                                      s.checkpoint, None)],
                preparing := s.preparing - {id})
  }

  /** An Undo is of a command that was there when it was reserved. */
  predicate TargetKnown(s: System, id: string)
    requires id in s.mirror && s.mirror[id].target.Some?
  {
    s.mirror[id].target.value in s.journal && Before(s.created, s.mirror[id].target.value, id)
  }

  /** A failed preparation is archived; if even the archive fails, the mirror closes. */
  ghost predicate PreparationFails(s: System, id: string, archived: bool, s': System) {
    && id in s.preparing && id in s.mirror && id !in s.journal
    && s' == if archived
             then s.(journal := s.journal[id := JournalRow(Rejected, s.mirror[id].predecessors, s.mirror[id].target,
                                                           [], None, true, s.checkpoint, None)],
                     preparing := s.preparing - {id})
             else s.(mirror := WithStatus(s.mirror, {id}, Closed), preparing := s.preparing - {id})
  }

  /** A reload forgets everything that is not stored; requests already sent may still arrive. */
  ghost predicate Restarts(s: System, s': System) {
    s' == s.(preparing := {}, flight := Idle)
  }

  // ---------------------------------------------------------------------------------------
  // Sending
  // ---------------------------------------------------------------------------------------

  /** How the sender sees a predecessor that has a journal row. */
  function Seen(s: System, p: string): JournalState
    requires p in s.journal
  {
    if ShutIn(s.mirror, p) then Conflict else s.journal[p].state
  }

  predicate Refuses(s: System, id: string)
    requires id in s.journal
  {
    exists p | p in s.journal[id].predecessors && p in s.journal :: Refusal(Seen(s, p))
  }

  predicate Waits(s: System, id: string)
    requires id in s.journal
  {
    exists p | p in s.journal[id].predecessors && p in s.journal :: Live(Seen(s, p))
  }

  /** The receipt lookup that comes before any repeated send found nothing. */
  ghost predicate LooksUp(s: System, id: string, s': System) {
    && s.flight == Idle && In(s.journal, id, Active) && !ShutIn(s.mirror, id) && id !in s.receipts
    && s' == s.(flight := LookedUp(id))
  }

  /** What the sender does not check: a predecessor reserved but not journaled, a predecessor that
      was refused and still waits for its rollback although its mirror was released, or a
      quarantine that still names the command as its root. */
  predicate Irregular(s: System, id: string)
    requires id in s.journal
  {
    || (exists p | p in s.journal[id].predecessors :: p !in s.journal)
    || (exists p | p in s.journal[id].predecessors && p in s.journal :: s.journal[p].state == RollbackPending)
    || (exists y | y in s.mirror :: s.mirror[y].status == Quarantined(id))
  }

  /** The revision that a record's changes are known to be in: its receipt's or its acknowledgement's. */
  function ServerRevision(row: JournalRow, base: nat): nat {
    if row.state == Confirmed && row.revision.Some? then row.revision.value
    else if row.state == Confirmed && row.noOp.Some? then row.noOp.value
    else base
  }

  /** The base is the greatest of the row's own and its predecessors' server revisions. */
  ghost predicate IsSentBase(s: System, id: string, base: nat)
    requires id in s.journal
  {
    var row := s.journal[id];
    && row.base <= base
    && (forall p | p in row.predecessors && p in s.journal :: ServerRevision(s.journal[p], row.base) <= base)
    && (base == row.base
        || exists p | p in row.predecessors && p in s.journal :: ServerRevision(s.journal[p], row.base) == base)
  }

  ghost predicate Sends(s: System, id: string, base: nat, s': System) {
    && (s.flight == LookedUp(id) || (s.flight == Idle && id !in s.sent))
    && In(s.journal, id, Active) && !ShutIn(s.mirror, id)
    && !Refuses(s, id) && !Waits(s, id) && IsSentBase(s, id, base)
    && s' == s.(wire := s.wire + {|s.sent|}, sent := s.sent + [id], bases := s.bases + [base],
                flight := Waiting(id, |s.sent|),
                irregular := if Irregular(s, id) then s.irregular + {id} else s.irregular)
  }

  /** No usable reply: the outcome is unknown, or still pending after an expired login, or the tab
      stops before it can say so. */
  ghost predicate TimesOut(s: System, noted: Option<Status>, s': System) {
    && s.flight.Waiting? && (noted.Some? ==> noted.value in {Pending, Unknown})
    && s' == s.(flight := Idle, mirror := if noted.Some? then WithStatus(s.mirror, {s.flight.id}, noted.value)
                else s.mirror)
  }

  // ---------------------------------------------------------------------------------------
  // Replies
  // ---------------------------------------------------------------------------------------

  ghost predicate Answered(s: System, v: Verdict) {
    && s.flight.Waiting? && s.flight.attempt in s.verdicts && s.verdicts[s.flight.attempt] == v
    && Open(s.journal, s.flight.id)
  }

  /** A receipt, by reply or by lookup: the confirmed row and the settled cache commit together, or
      the projection waits. */
  ghost predicate Confirms(s: System, id: string, projected: bool, s': System) {
    && Open(s.journal, id) && id in s.receipts && s.receipts[id] > 0
    && ((s.flight.Waiting? && s.flight.id == id && (Answered(s, Known) || Answered(s, Committed(s.receipts[id]))))
        || (s.flight == Idle && Live(s.journal[id].state) && !ShutIn(s.mirror, id)))
    && s' == if projected
             then s.(journal := s.journal[id := s.journal[id].(state := Confirmed, base := s.receipts[id] - 1,
                 revision := Some(s.receipts[id]))],
                     incorporated := s.incorporated + {s.receipts[id]}, flight := Idle)
             else s.(journal := s.journal[id := s.journal[id].(state := ProjectionPending)],
                     mirror := WithStatus(s.mirror, {id}, Blocked), flight := Idle)
  }

  /** A receiptless acknowledgement of a command that changed nothing locally confirms it, but only
      while the checkpoint stands at the acknowledged revision. */
  ghost predicate ConfirmsEmpty(s: System, id: string, s': System) {
    && s.flight == Idle && In(s.journal, id, ProjectionPending) && !ShutIn(s.mirror, id)
    && s.journal[id].noOp == Some(s.checkpoint) && s.journal[id].changes == []
    && s' == s.(journal := s.journal[id := s.journal[id].(state := Confirmed)])
  }

  /** A receiptless acknowledgement: recorded with the revision it speaks about, without evidence. */
  ghost predicate Acknowledges(s: System, revision: nat, s': System) {
    && Answered(s, NoOp(revision))
    && s' == s.(journal := s.journal[s.flight.id := s.journal[s.flight.id].(state := ProjectionPending,
        noOp := Some(revision), owned := false)],
                flight := Idle)
  }

  // ---------------------------------------------------------------------------------------
  // Rejection
  // ---------------------------------------------------------------------------------------

  /** A chain of n open rows leads from the root to the command. */
  ghost predicate Reaches(j: map<string, JournalRow>, root: string, id: string, n: nat)
    decreases n
  {
    if n == 0 then id == root
    else Open(j, id) && exists p :: p in j[id].predecessors && Reaches(j, root, p, n - 1)
  }

  ghost function Dependents(j: map<string, JournalRow>, root: string): set<string> {
    set id | id in j && id != root && exists n: nat :: Reaches(j, root, id, n)
  }

  /** A refusal is known: by reply, by a refused predecessor, or by an unfinished rollback. */
  ghost predicate Refusable(s: System, root: string) {
    && Open(s.journal, root)
    && ((Answered(s, Refused) && s.flight.id == root)
        || (s.flight == Idle && Live(s.journal[root].state) && !ShutIn(s.mirror, root) && Refuses(s, root))
        || (s.flight == Idle && exists y :: y in s.mirror && s.mirror[y].status == Quarantined(root)))
  }

  /** The inverses and the terminal rows of the root and its open dependents commit together. */
  ghost predicate Rejects(s: System, root: string, state: JournalState, order: seq<string>, s': System) {
    && Refusable(s, root) && Refusal(state)
    && Distinct(order) && (forall id :: id in order <==> id == root || id in Dependents(s.journal, root))
    && s' == s.(journal := WithState(WithState(s.journal, Dependents(s.journal, root), Rejected), {root}, state),
                reversals := s.reversals + order, flight := Idle)
  }

  /** The rollback cannot commit: the mirrors are quarantined, either the root's and its dependents'
      or, when the journal cannot be read, all of them; then journal rows, as far as storage allows. */
  ghost predicate RollbackFails(s: System, root: string, marked: set<string>, rows: set<string>, s': System) {
    && Refusable(s, root)
    && (marked == {root} + Dependents(s.journal, root) || marked == s.mirror.Keys)
    && rows <= {root} + Dependents(s.journal, root)
    && s' == s.(mirror := WithStatus(s.mirror, marked, Quarantined(root)),
                journal := WithState(s.journal, rows, RollbackPending), flight := Idle)
  }

  // ---------------------------------------------------------------------------------------
  // Retiring mirrors
  // ---------------------------------------------------------------------------------------

  /** A terminal row's mirror goes away, or stays closed for a conflict. */
  function Retired(j: map<string, JournalRow>, m: map<string, Entry>, ids: set<string>): map<string, Entry> {
    map id | id in m && !(id in ids && id in j && (j[id].state == Confirmed || j[id].state == Rejected))
      :: if id in ids && id in j && j[id].state == Conflict then m[id].(status := Closed) else m[id]
  }

  ghost predicate Retires(s: System, id: string, s': System) {
    && id in s.journal && Terminal(s.journal[id].state)
    && s' == s.(mirror := Retired(s.journal, s.mirror, {id}))
  }

  ghost function QuarantinedBy(m: map<string, Entry>, roots: set<string>): set<string> {
    set id | id in m && m[id].status.Quarantined? && m[id].status.root in roots
  }

  /** After a root is refused for good its quarantine ends: terminal rows retire, the others may
      be looked up and sent again. */
  function Ended(j: map<string, JournalRow>, m: map<string, Entry>, ids: set<string>): map<string, Entry> {
    var retired := Retired(j, m, ids);
    map id | id in retired ::
        if id in ids && !(id in j && Terminal(j[id].state)) then retired[id].(status := Unknown) else retired[id]
  }

  ghost predicate EndsQuarantine(s: System, root: string, s': System) {
    && s.flight == Idle && root in s.journal && Refusal(s.journal[root].state)
    && s' == s.(mirror := Ended(s.journal, Retired(s.journal, s.mirror, {root}),
                                QuarantinedBy(s.mirror, {root}) - {root}))
  }

  /** A quarantine whose root turned out confirmed closes for good. */
  ghost predicate ClosesQuarantine(s: System, id: string, s': System) {
    && s.flight == Idle && id in s.mirror && s.mirror[id].status.Quarantined?
    && In(s.journal, s.mirror[id].status.root, Confirmed)
    && !(id in s.journal && Terminal(s.journal[id].state))
    && s' == s.(mirror := WithStatus(s.mirror, {id}, Closed))
  }

  /** The exact adjacent revision of an owned receipt moves the checkpoint. */
  ghost predicate Advances(s: System, id: string, s': System) {
    && In(s.journal, id, Confirmed) && s.journal[id].noOp.None? && s.journal[id].base == s.checkpoint
    && s.journal[id].revision == Some(s.journal[id].base + 1)
    && s' == s.(checkpoint := s.checkpoint + 1)
  }

  // ---------------------------------------------------------------------------------------
  // Recovery
  // ---------------------------------------------------------------------------------------

  datatype MirrorOnly = Archive | Close | Adopt(changes: seq<EntityChange>)

  predicate RefusedRow(j: map<string, JournalRow>, p: string) {
    p in j && (Refusal(j[p].state) || j[p].state == RollbackPending)
  }

  /** A reservation that never reached the journal. */
  ghost predicate RecoversMirror(s: System, id: string, how: MirrorOnly, s': System) {
    && s.flight == Idle && id in s.mirror && id !in s.journal && id !in s.preparing && !Shut(s.mirror[id].status)
    && var e := s.mirror[id];
       var refused := exists p :: p in e.predecessors && (RefusedRow(s.journal, p) || ShutIn(s.mirror, p));
       (how == Archive <==> refused) &&
       match how
       case Archive =>
         && s' == s.(journal := s.journal[id := JournalRow(Rejected, e.predecessors, e.target, [], None, true,
                                                           s.checkpoint, None)])
       case Close => s' == s.(mirror := WithStatus(s.mirror, {id}, Closed))
       case Adopt(changes) =>
         && (e.target.Some? ==> TargetKnown(s, id))
         && s' == s.(journal := s.journal[id := JournalRow(Active, e.predecessors, e.target, changes, None, true,
                                                           s.checkpoint, None)])
  }

  /** The receipts are looked up, and then the snapshot is read. */
  ghost predicate Reads(s: System, receipts: set<string>, s': System) {
    && s.flight == Idle && (forall id | id in receipts :: Open(s.journal, id) && id in s.receipts)
    && s' == s.(flight := Recovering(Reading(OpenRows(s.journal), s.mirror.Keys, receipts, s.revision, s.snapshot)))
  }

  function OpenRows(j: map<string, JournalRow>): set<string> {
    set id | id in j && Unsettled(j[id].state)
  }

  /** Open rows with a receiptless acknowledgement and no receipt. */
  function Unreceipted(j: map<string, JournalRow>, read: Reading): set<string> {
    set id | id in j && id in read.known && Open(j, id) && j[id].noOp.Some? && id !in read.receipts
  }

  /** Of these, the ones whose facts the read snapshot cannot vouch for. */
  function Stale(j: map<string, JournalRow>, read: Reading): set<string> {
    set id | id in Unreceipted(j, read)
      && (j[id].noOp != Some(read.revision) || Bound(j[id].changes, read.snapshot, true).None?)
  }

  /** The rows refused by a full read, before their dependents. */
  function RefusedFirst(j: map<string, JournalRow>, read: Reading): set<string> {
    Stale(j, read)
    + (set id | id in j && id in read.known && Open(j, id) && id !in read.receipts && j[id].noOp.None?
              && (j[id].state == RollbackPending || (j[id].target.Some? && j[id].target.value in Unreceipted(j, read))))
  }

  /** A known open row with neither receipt nor acknowledgement, behind a refused one. */
  predicate Behind(j: map<string, JournalRow>, read: Reading, refused: set<string>, id: string) {
    && id in j && id in read.known && Open(j, id) && id !in read.receipts && j[id].noOp.None?
    && j[id].predecessors * refused != {}
  }

  /** The refused rows and everything behind them, and nothing else. */
  ghost predicate RefusedSet(j: map<string, JournalRow>, read: Reading, refused: set<string>) {
    && RefusedFirst(j, read) <= refused
    && (forall id | Behind(j, read, refused, id) :: id in refused)
    && (forall id | id in refused - RefusedFirst(j, read) :: Behind(j, read, refused, id))
  }

  function RestoredRow(row: JournalRow, id: string, receipts: map<string, nat>, read: Reading, stale: set<string>,
                       refused: set<string>): JournalRow
  {
    if id in stale then row.(state := Conflict)
    else if id in refused then row.(state := Rejected)
    else if id in read.receipts && id in receipts && receipts[id] > 0
    then row.(state := Confirmed, owned := true, base := receipts[id] - 1, revision := Some(receipts[id]))
    else if row.noOp.Some? && Bound(row.changes, read.snapshot, true).Some?
    then row.(state := Confirmed, owned := false, changes := Bound(row.changes, read.snapshot, true).value)
    else row
  }

  /** One transaction replaces the cache with the read snapshot and settles every row that the read
      decides; the rest keep their rows and their overlays. The checkpoint is in another store. */
  ghost predicate Restores(s: System, refused: set<string>, s': System) {
    && s.flight.Recovering?
    && var read := s.flight.read;
       && s.checkpoint <= read.revision && s.mirror.Keys == read.reserved
       && RefusedSet(s.journal, read, refused)
       && s' == s.(journal := map id | id in s.journal ::
                     if Open(s.journal, id) && id in read.known
                     then RestoredRow(s.journal[id], id, s.receipts, read, Stale(s.journal, read), refused)
                     else s.journal[id],
                   incorporated := s.incorporated + UpTo(read.revision),
                   flight := Replaced(read))
  }

  function UpTo(revision: nat): (r: set<nat>)
    ensures forall n: nat :: n in r <==> n <= revision
  {
    if revision == 0 then {0} else UpTo(revision - 1) + {revision}
  }

  /** The checkpoint of a finished replacement, unless something has moved since. */
  ghost predicate Finalizes(s: System, s': System) {
    && s.flight.Replaced? && s.mirror.Keys == s.flight.read.reserved && s.checkpoint <= s.flight.read.revision
    && s' == s.(checkpoint := s.flight.read.revision, flight := Idle)
  }

  /** A recovery that fails, before its replacement or before its checkpoint, is simply over. */
  ghost predicate GivesUp(s: System, s': System) {
    (s.flight.Recovering? || s.flight.Replaced?) && s' == s.(flight := Idle)
  }

  // ---------------------------------------------------------------------------------------
  // Steps and runs
  // ---------------------------------------------------------------------------------------

  datatype Step =
    | Handle(attempt: nat, v: Verdict, w: Workspace) | Lose(attempt: nat) | OtherWrite(w: Workspace)
    | Reserve(id: string, predecessors: set<string>, target: Option<string>)
    | Journal(id: string, predecessors: set<string>, changes: seq<EntityChange>)
    | PreparationFail(id: string, archived: bool) | Restart
    | LookUp(id: string) | Send(id: string, base: nat) | TimeOut(noted: Option<Status>)
    | Confirm(id: string, projected: bool) | ConfirmEmpty(id: string) | Acknowledge(revision: nat)
    | Reject(id: string, state: JournalState, order: seq<string>)
    | RollbackFail(id: string, marked: set<string>, rows: set<string>)
    | Retire(id: string) | EndQuarantine(id: string) | CloseQuarantine(id: string) | Advance(id: string)
    | RecoverMirror(id: string, how: MirrorOnly)
    | Read(receipts: set<string>) | Restore(refused: set<string>) | Finalize | GiveUp

  ghost predicate Next(s: System, step: Step, s': System) {
    match step
    case Handle(attempt, v, w) => Handles(s, attempt, v, w, s')
    case Lose(attempt) => Loses(s, attempt, s')
    case OtherWrite(w) => OtherWrites(s, w, s')
    case Reserve(id, predecessors, target) => Reserves(s, id, predecessors, target, s')
    case Journal(id, predecessors, changes) => Journals(s, id, predecessors, changes, s')
    case PreparationFail(id, archived) => PreparationFails(s, id, archived, s')
    case Restart => Restarts(s, s')
    case LookUp(id) => LooksUp(s, id, s')
    case Send(id, base) => Sends(s, id, base, s')
    case TimeOut(noted) => TimesOut(s, noted, s')
    case Confirm(id, projected) => Confirms(s, id, projected, s')
    case ConfirmEmpty(id) => ConfirmsEmpty(s, id, s')
    case Acknowledge(revision) => Acknowledges(s, revision, s')
    case Reject(id, state, order) => Rejects(s, id, state, order, s')
    case RollbackFail(id, marked, rows) => RollbackFails(s, id, marked, rows, s')
    case Retire(id) => Retires(s, id, s')
    case EndQuarantine(id) => EndsQuarantine(s, id, s')
    case CloseQuarantine(id) => ClosesQuarantine(s, id, s')
    case Advance(id) => Advances(s, id, s')
    case RecoverMirror(id, how) => RecoversMirror(s, id, how, s')
    case Read(receipts) => Reads(s, receipts, s')
    case Restore(refused) => Restores(s, refused, s')
    case Finalize => Finalizes(s, s')
    case GiveUp => GivesUp(s, s')
  }

  ghost predicate Initial(s: System) {
    s == System(s.judge, s.revision, s.snapshot, map[], [], {}, map[], map[], map[], s.revision, UpTo(s.revision),
                [], {}, Idle, [], [], {}, [])
  }

  ghost predicate Run(states: seq<System>, steps: seq<Step>) {
    && |states| == |steps| + 1 && Initial(states[0])
    && forall i | 0 <= i < |steps| :: Next(states[i], steps[i], states[i + 1])
  }
}
