/**
 From every reachable state of the connected protocol, a command that a refused root put into
 quarantine can still be settled: released, and then confirmed or refused, after its predecessors.
 An unfinished withdrawal that lost its quarantine cannot finish by itself.
 */
module ConnectedProgress {
  import opened Wrappers
  import opened Interactions
  import opened WorkspaceDelta
  import opened Receiptless
  import opened ConnectedSystem
  import opened ConnectedSafety
  import opened ConnectedOrder
  import opened ConnectedReads

  // ---------------------------------------------------------------------------------------
  // Extensions of a run
  // ---------------------------------------------------------------------------------------

  ghost predicate Path(states: seq<System>, steps: seq<Step>) {
    |states| == |steps| + 1 && forall i | 0 <= i < |steps| :: Next(states[i], steps[i], states[i + 1])
  }

  /** Some sequence of steps leads from the one state to the other. */
  ghost predicate Extends(s: System, t: System) {
    exists states, steps :: Path(states, steps) && states[0] == s && states[|steps|] == t
  }

  lemma ExtendsSelf(s: System)
    ensures Extends(s, s)
  {
    assert Path([s], []) && [s][0] == s;
  }

  lemma ExtendsOne(s: System, t: System, step: Step, u: System)
    requires Extends(s, t) && Next(t, step, u)
    ensures Extends(s, u)
  {
    var states, steps :| Path(states, steps) && states[0] == s && states[|steps|] == t;
    var states', steps' := states + [u], steps + [step];
    forall i | 0 <= i < |steps'| ensures Next(states'[i], steps'[i], states'[i + 1]) {
      if i < |steps| {
        assert Next(states[i], steps[i], states[i + 1]);
      }
    }
    assert Path(states', steps') && states'[0] == s && states'[|steps'|] == u;
  }

  lemma ExtendsBoth(s: System, t: System, u: System)
    requires Extends(s, t) && Extends(t, u)
    ensures Extends(s, u)
  {
    var a, x :| Path(a, x) && a[0] == s && a[|x|] == t;
    var b, y :| Path(b, y) && b[0] == t && b[|y|] == u;
    var c, z := a + b[1..], x + y;
    forall i | 0 <= i < |z| ensures Next(c[i], z[i], c[i + 1]) {
      if i < |x| {
        assert Next(a[i], x[i], a[i + 1]);
      } else {
        assert Next(b[i - |x|], y[i - |x|], b[i - |x| + 1]);
      }
    }
    assert Path(c, z) && c[0] == s && c[|z|] == u;
  }

  /** One more sound state. */
  lemma SoundStep(s: System, t: System, step: Step, u: System)
    requires Extends(s, t) && Sound(t) && Next(t, step, u)
    ensures Extends(s, u) && Sound(u)
  {
    ExtendsOne(s, t, step, u);
    NextSound(t, step, u);
  }

  // ---------------------------------------------------------------------------------------
  // Settling without touching the mirror
  // ---------------------------------------------------------------------------------------

  /** Some rows have been settled; everything else that is stored, and the mirror, is as it was. */
  ghost predicate Settles(s: System, t: System) {
    Extends(s, t) && Sound(t) && Quietly(s, t)
  }

  ghost predicate Quietly(s: System, t: System) {
    && t.flight == Idle && t.mirror == s.mirror && t.created == s.created
    && t.journal.Keys == s.journal.Keys
    && (forall x | x in s.journal ::
          t.journal[x] == s.journal[x] || (Open(s.journal, x) && Terminal(t.journal[x].state)))
    && (forall x | x in s.journal :: SameLinks(s.journal[x], t.journal[x]))
    && forall x | x in s.sent :: x in t.sent
  }

  predicate SameLinks(row: JournalRow, row': JournalRow) {
    row'.predecessors == row.predecessors && row'.target == row.target && (row.noOp.Some? ==> row'.noOp.Some?)
  }

  /** A predecessor of the command is refused or shut, or it would undo a command that was acknowledged
      without a receipt. */
  predicate Blamed(s: System, id: string) {
    id in s.journal
    && ((exists p | p in s.journal[id].predecessors && p in s.journal :: Refusal(Seen(s, p)))
        || (s.journal[id].target.Some? && s.journal[id].target.value in s.journal
            && s.journal[s.journal[id].target.value].noOp.Some?))
  }

  /** The command is confirmed, or it was sent, or something it depends on keeps it from being sent. */
  predicate Accounted(s: System, id: string) {
    In(s.journal, id, Confirmed) || id in s.sent || Blamed(s, id)
  }

  /** What was settled on the way is accounted for. */
  predicate Accounts(s: System, t: System) {
    forall x | x in s.journal && x in t.journal && Live(s.journal[x].state) && t.journal[x] != s.journal[x] ::
        Accounted(t, x)
  }

  lemma StaysAccounted(t: System, u: System, x: string)
    requires Quietly(t, u) && Accounted(t, x) && x in t.journal
    ensures Accounted(u, x)
  {
    if In(t.journal, x, Confirmed) {
      assert u.journal[x] == t.journal[x];
    } else if x !in t.sent {
      if p :| p in t.journal[x].predecessors && p in t.journal && Refusal(Seen(t, p)) {
        assert Refusal(Seen(u, p)) && p in u.journal[x].predecessors && p in u.journal;
      }
    }
  }

  predicate Done(s: System, id: string) {
    id in s.journal && Terminal(s.journal[id].state)
  }

  lemma SettlesBoth(s: System, t: System, u: System)
    requires Settles(s, t) && Settles(t, u) && Accounts(s, t) && Accounts(t, u)
    ensures Settles(s, u) && Accounts(s, u)
  {
    ExtendsBoth(s, t, u);
    QuietlyBoth(s, t, u);
  }

  lemma QuietlyBoth(s: System, t: System, u: System)
    requires Quietly(s, t) && Quietly(t, u) && Accounts(s, t) && Accounts(t, u)
    ensures Quietly(s, u) && Accounts(s, u)
  {
    forall x | x in s.journal
      ensures u.journal[x] == s.journal[x] || (Open(s.journal, x) && Terminal(u.journal[x].state))
      ensures Live(s.journal[x].state) && u.journal[x] != s.journal[x] ==> Accounted(u, x)
    {
      assert SameLinks(s.journal[x], t.journal[x]) && SameLinks(t.journal[x], u.journal[x]);
      if t.journal[x] != s.journal[x] && Live(s.journal[x].state) {
        StaysAccounted(t, u, x);
      }
    }
  }

  lemma SettlesLess(s: System, t: System, id: string)
    requires Settles(s, t) && Open(s.journal, id) && Done(t, id)
    ensures OpenRows(t.journal) < OpenRows(s.journal)
  {
    assert id in OpenRows(s.journal) && id !in OpenRows(t.journal);
  }

  lemma Listed(ids: set<string>) returns (order: seq<string>)
    ensures Distinct(order) && forall id :: id in order <==> id in ids
    decreases ids
  {
    if ids == {} {
      order := [];
    } else {
      var id :| id in ids;
      var rest := Listed(ids - {id});
      order := rest + [id];
      DistinctConcat(rest, [id]);
    }
  }

  /** The same stores, and perhaps a request under way. */
  predicate SameStores(s: System, t: System) {
    t.journal == s.journal && t.mirror == s.mirror && t.created == s.created && forall x | x in s.sent :: x in t.sent
  }

  function ConfirmedSystem(t: System, id: string): System
    requires id in t.journal && id in t.receipts && t.receipts[id] > 0
  {
    t.(journal := t.journal[id := t.journal[id].(state := Confirmed, base := t.receipts[id] - 1,
                                                 revision := Some(t.receipts[id]))],
       incorporated := t.incorporated + {t.receipts[id]}, flight := Idle)
  }

  lemma CanConfirm(t: System, id: string)
    requires Open(t.journal, id) && id in t.receipts && t.receipts[id] > 0
    requires (t.flight.Waiting? && t.flight.id == id && Answered(t, Committed(t.receipts[id])))
             || (t.flight == Idle && Live(t.journal[id].state) && !ShutIn(t.mirror, id))
    ensures Next(t, Confirm(id, true), ConfirmedSystem(t, id))
  {
    assert Confirms(t, id, true, ConfirmedSystem(t, id));
  }

  lemma ConfirmedQuietly(s: System, t: System, id: string)
    requires SameStores(s, t) && Open(t.journal, id) && id in t.receipts && t.receipts[id] > 0
    ensures Quietly(s, ConfirmedSystem(t, id)) && Done(ConfirmedSystem(t, id), id)
            && Accounts(s, ConfirmedSystem(t, id))
    ensures Accounted(ConfirmedSystem(t, id), id)
  {}

  lemma Receipted(s: System, id: string)
    requires Sound(s)
    ensures id in s.receipts ==> s.receipts[id] > 0
    ensures id in s.journal && s.journal[id].noOp.Some? ==> id in s.sent
  {
    assert id in s.journal ==> RowInv(s.journal[id], id, s.receipts, PastOf(s));
  }

  lemma ConfirmNow(s: System, id: string) returns (t: System)
    requires Sound(s) && s.flight == Idle && Open(s.journal, id) && Live(s.journal[id].state)
             && !ShutIn(s.mirror, id) && id in s.receipts
    ensures Settles(s, t) && Done(t, id) && Accounts(s, t) && Accounted(t, id)
  {
    Receipted(s, id);
    t := ConfirmedSystem(s, id);
    CanConfirm(s, id);
    ConfirmedQuietly(s, s, id);
    ExtendsSelf(s);
    SoundStep(s, s, Confirm(id, true), t);
  }

  ghost function RejectedSystem(t: System, root: string, order: seq<string>): System {
    t.(journal := WithState(WithState(t.journal, Dependents(t.journal, root), Rejected), {root}, Rejected),
       reversals := t.reversals + order, flight := Idle)
  }

  lemma CanReject(t: System, root: string, order: seq<string>)
    requires Refusable(t, root)
    requires Distinct(order) && forall id :: id in order <==> id in {root} + Dependents(t.journal, root)
    ensures Next(t, Reject(root, Rejected, order), RejectedSystem(t, root, order))
  {
    assert Rejects(t, root, Rejected, order, RejectedSystem(t, root, order));
  }

  lemma RejectedQuietly(s: System, t: System, root: string, order: seq<string>)
    requires SameStores(s, t) && Open(t.journal, root)
    ensures var u := RejectedSystem(t, root, order);
            && Quietly(s, u) && u.journal[root].state == Rejected
            && forall id | id in s.journal && u.journal[id] != s.journal[id] :: Refusal(u.journal[id].state)
  {
    DependentsOpen(t.journal, root);
  }

  /** A dependent has a predecessor that is withdrawn with it. */
  lemma DependentBlamed(t: System, root: string, order: seq<string>, x: string)
    requires Open(t.journal, root) && x in Dependents(t.journal, root)
    ensures Blamed(RejectedSystem(t, root, order), x)
  {
    var u := RejectedSystem(t, root, order);
    var n: nat :| Reaches(t.journal, root, x, n);
    var p :| p in t.journal[x].predecessors && Reaches(t.journal, root, p, n - 1);
    assert p == root || p in Dependents(t.journal, root);
    assert p in u.journal[x].predecessors && p in u.journal && Refusal(Seen(u, p));
  }

  lemma RejectedAccounted(s: System, t: System, root: string, order: seq<string>)
    requires SameStores(s, t) && Open(t.journal, root)
    ensures var u := RejectedSystem(t, root, order);
            && (forall x | x in s.journal && x != root && u.journal[x] != s.journal[x] :: Accounted(u, x))
            && (root in t.sent || Blamed(t, root) ==> Accounted(u, root) && Accounts(s, u))
  {
    var u := RejectedSystem(t, root, order);
    forall x | x in s.journal && x != root && u.journal[x] != s.journal[x] ensures Accounted(u, x) {
      DependentBlamed(t, root, order, x);
    }
    if Blamed(t, root) {
      RootBlamed(t, root, order);
    }
  }

  lemma RootBlamed(t: System, root: string, order: seq<string>)
    requires Open(t.journal, root) && Blamed(t, root)
    ensures Blamed(RejectedSystem(t, root, order), root)
  {
    var u := RejectedSystem(t, root, order);
    if p :| p in t.journal[root].predecessors && p in t.journal && Refusal(Seen(t, p)) {
      assert p in u.journal[root].predecessors && p in u.journal && Refusal(Seen(u, p));
    }
  }

  /** A refusal that is known can be carried out, with everything behind it. */
  lemma RejectNow(s: System, t: System, root: string) returns (u: System)
    requires Extends(s, t) && Sound(t) && Refusable(t, root) && SameStores(s, t)
    ensures Settles(s, u) && Done(u, root)
    ensures forall id | id in s.journal && u.journal[id] != s.journal[id] :: Refusal(u.journal[id].state)
    ensures u.journal[root].state == Rejected
    ensures forall x | x in s.journal && x != root && u.journal[x] != s.journal[x] :: Accounted(u, x)
    ensures root in t.sent || Blamed(t, root) ==> Accounted(u, root) && Accounts(s, u)
  {
    var order := Listed({root} + Dependents(t.journal, root));
    u := RejectedSystem(t, root, order);
    CanReject(t, root, order);
    SoundStep(s, t, Reject(root, Rejected, order), u);
    RejectedQuietly(s, t, root, order);
    RejectedAccounted(s, t, root, order);
  }

  lemma {:induction false} CloseUp(j: map<string, JournalRow>, read: Reading, refused: set<string>)
    returns (all: set<string>)
    requires RefusedFirst(j, read) <= refused <= j.Keys
    requires forall id | id in refused - RefusedFirst(j, read) :: Behind(j, read, refused, id)
    ensures RefusedSet(j, read, all)
    decreases j.Keys - refused
  {
    if id :| Behind(j, read, refused, id) && id !in refused {
      forall x | x in refused + {id} - RefusedFirst(j, read) ensures Behind(j, read, refused + {id}, x) {
        assert Behind(j, read, refused, x);
        assert j[x].predecessors * refused <= j[x].predecessors * (refused + {id});
      }
      all := CloseUp(j, read, refused + {id});
    } else {
      all := refused;
    }
  }

  function Found(s: System): set<string> {
    set id | id in s.journal && Open(s.journal, id) && id in s.receipts
  }

  function ReadOf(s: System): Reading {
    Reading(OpenRows(s.journal), s.mirror.Keys, Found(s), s.revision, s.snapshot)
  }

  function Settled(s: System, read: Reading, refused: set<string>): map<string, JournalRow> {
    map id | id in s.journal ::
      if Open(s.journal, id) && id in read.known
      then RestoredRow(s.journal[id], id, s.receipts, read, Stale(s.journal, read), refused)
      else s.journal[id]
  }

  lemma CanRead(s: System)
    requires s.flight == Idle
    ensures Next(s, Read(Found(s)), s.(flight := Recovering(ReadOf(s))))
  {}

  function RestoredSystem(s: System, read: Reading, refused: set<string>): System {
    s.(journal := Settled(s, read, refused), incorporated := s.incorporated + UpTo(read.revision),
       flight := Replaced(read))
  }

  lemma CanRestore(s: System, read: Reading, refused: set<string>)
    requires s.flight == Recovering(read) && s.checkpoint <= read.revision && s.mirror.Keys == read.reserved
    requires RefusedSet(s.journal, read, refused)
    ensures Next(s, Restore(refused), RestoredSystem(s, read, refused))
  {
    assert Restores(s, refused, RestoredSystem(s, read, refused));
  }

  lemma CanGiveUp(s: System)
    requires s.flight.Replaced?
    ensures Next(s, GiveUp, s.(flight := Idle))
  {}

  lemma CheckpointBehind(s: System)
    requires Sound(s)
    ensures s.checkpoint <= s.revision
  {}

  lemma ReadSteps(s: System, refused: set<string>) returns (t: System)
    requires Sound(s) && s.flight == Idle && RefusedSet(s.journal, ReadOf(s), refused)
    ensures Extends(s, t) && Sound(t) && t.journal == Settled(s, ReadOf(s), refused)
    ensures t.flight == Idle && t.mirror == s.mirror && t.created == s.created && t.sent == s.sent
  {
    var read := ReadOf(s);
    var s1 := s.(flight := Recovering(read));
    var s2 := RestoredSystem(s1, read, refused);
    t := s2.(flight := Idle);
    CheckpointBehind(s);
    CanRead(s);
    CanRestore(s1, read, refused);
    CanGiveUp(s2);
    ThreeSteps(s, Read(Found(s)), s1, Restore(refused), s2, GiveUp, t);
  }

  lemma ThreeSteps(s: System, a: Step, s1: System, b: Step, s2: System, c: Step, t: System)
    requires Sound(s) && Next(s, a, s1) && Next(s1, b, s2) && Next(s2, c, t)
    ensures Extends(s, t) && Sound(t)
  {
    ExtendsSelf(s);
    SoundStep(s, s, a, s1);
    SoundStep(s, s1, b, s2);
    SoundStep(s, s2, c, t);
  }

  /** A full read settles whatever has a receipt or a receiptless acknowledgement. */
  lemma ReadNow(s: System) returns (t: System)
    requires Sound(s) && s.flight == Idle
    ensures Settles(s, t) && Accounts(s, t)
    ensures forall id | Open(s.journal, id) && (id in s.receipts || s.journal[id].noOp.Some?) :: Done(t, id)
  {
    var read := ReadOf(s);
    var refused := CloseUp(s.journal, read, RefusedFirst(s.journal, read));
    t := ReadSteps(s, refused);
    forall id | id in s.journal
      ensures (id in s.receipts ==> s.receipts[id] > 0) && (s.journal[id].noOp.Some? ==> id in s.sent)
    {
      Receipted(s, id);
    }
    ReadRows(s, refused);
    ReadQuietly(s, t);
    ReadAccounted(s, refused, t);
  }

  lemma ReadRows(s: System, refused: set<string>)
    requires RefusedSet(s.journal, ReadOf(s), refused)
    requires forall id | id in s.journal && id in s.receipts :: s.receipts[id] > 0
    ensures forall id | id in s.journal :: ReadResult(s, Settled(s, ReadOf(s), refused), id)
  {
    forall id | id in s.journal ensures ReadResult(s, Settled(s, ReadOf(s), refused), id) {
      if Open(s.journal, id) {
        ReadRow(s, ReadOf(s), refused, id);
      }
    }
  }

  predicate ReadResult(s: System, j: map<string, JournalRow>, id: string)
    requires id in s.journal
  {
    && id in j && SameLinks(s.journal[id], j[id])
    && (j[id] == s.journal[id] || (Open(s.journal, id) && Terminal(j[id].state)))
    && (Open(s.journal, id) && (id in s.receipts || s.journal[id].noOp.Some?) ==> Terminal(j[id].state))
  }

  lemma ReadQuietly(s: System, t: System)
    requires t.flight == Idle && t.mirror == s.mirror && t.created == s.created && t.sent == s.sent
             && t.journal.Keys == s.journal.Keys
    requires forall id | id in s.journal :: ReadResult(s, t.journal, id)
    ensures Quietly(s, t)
    ensures forall id | Open(s.journal, id) && (id in s.receipts || s.journal[id].noOp.Some?) :: Done(t, id)
  {}

  /** What a full read settles without a receipt was sent, or is behind something it refuses. */
  lemma ReadAccounted(s: System, refused: set<string>, t: System)
    requires RefusedSet(s.journal, ReadOf(s), refused) && t.journal == Settled(s, ReadOf(s), refused)
    requires t.mirror == s.mirror && t.sent == s.sent
    requires forall id | id in s.journal ::
               (id in s.receipts ==> s.receipts[id] > 0) && (s.journal[id].noOp.Some? ==> id in s.sent)
    ensures Accounts(s, t)
  {
    forall x | x in s.journal && Live(s.journal[x].state) && t.journal[x] != s.journal[x] ensures Accounted(t, x) {
      if x in refused && s.journal[x].noOp.None? {
        RefusedBlamed(s, refused, t, x);
      }
    }
  }

  lemma RefusedBlamed(s: System, refused: set<string>, t: System, x: string)
    requires RefusedSet(s.journal, ReadOf(s), refused) && t.journal == Settled(s, ReadOf(s), refused)
    requires x in refused && x in s.journal && Live(s.journal[x].state) && s.journal[x].noOp.None?
    ensures Blamed(t, x)
  {
    var read := ReadOf(s);
    if x in RefusedFirst(s.journal, read) {
      assert s.journal[x].target.Some? && s.journal[x].target.value in Unreceipted(s.journal, read);
    } else {
      assert x in refused - RefusedFirst(s.journal, read) && Behind(s.journal, read, refused, x);
      var p :| p in s.journal[x].predecessors * refused;
      assert p in RefusedFirst(s.journal, read) || p in refused - RefusedFirst(s.journal, read);
      assert p in t.journal[x].predecessors && p in t.journal && Refusal(Seen(t, p));
    }
  }

  lemma ReadRow(s: System, read: Reading, refused: set<string>, id: string)
    requires read == ReadOf(s) && Open(s.journal, id) && RefusedSet(s.journal, read, refused)
    requires id in s.receipts ==> s.receipts[id] > 0
    ensures var row := RestoredRow(s.journal[id], id, s.receipts, read, Stale(s.journal, read), refused);
            && (row == s.journal[id] || Terminal(row.state)) && SameLinks(s.journal[id], row)
            && (id in s.receipts || s.journal[id].noOp.Some? ==> Terminal(row.state))
  {
    assert s.journal[id].noOp.Some? && id !in s.receipts ==> id in Unreceipted(s.journal, read);
  }

  // ---------------------------------------------------------------------------------------
  // Sending
  // ---------------------------------------------------------------------------------------

  /** What is left to do for a command is to send it. */
  ghost predicate Sendable(s: System, id: string) {
    && s.flight == Idle && In(s.journal, id, Active) && !ShutIn(s.mirror, id) && id !in s.receipts
    && !Refuses(s, id) && !Waits(s, id)
  }

  function SentSystem(s: System, id: string, base: nat): System
    requires id in s.journal
  {
    s.(wire := s.wire + {|s.sent|}, sent := s.sent + [id], bases := s.bases + [base], flight := Waiting(id, |s.sent|),
       irregular := if Irregular(s, id) then s.irregular + {id} else s.irregular)
  }

  lemma CanLookUp(s: System, id: string)
    requires Sendable(s, id)
    ensures Next(s, LookUp(id), s.(flight := LookedUp(id)))
  {}

  /** There is always a base to send with: the greatest over the predecessors. */
  lemma {:induction false} FindBase(s: System, id: string, ps: set<string>) returns (base: nat)
    requires id in s.journal
    ensures var row := s.journal[id];
            && row.base <= base
            && (forall p | p in ps && p in s.journal :: ServerRevision(s.journal[p], row.base) <= base)
            && (base == row.base || exists p | p in ps && p in s.journal ::
                  ServerRevision(s.journal[p], row.base) == base)
    decreases ps
  {
    if ps == {} {
      base := s.journal[id].base;
    } else {
      var p :| p in ps;
      base := FindBase(s, id, ps - {p});
      if p in s.journal && base < ServerRevision(s.journal[p], s.journal[id].base) {
        base := ServerRevision(s.journal[p], s.journal[id].base);
      }
    }
  }

  lemma CanSend(s: System, id: string) returns (base: nat)
    requires Sendable(s, id)
    ensures IsSentBase(s, id, base)
    ensures var s1 := s.(flight := LookedUp(id)); Next(s1, Send(id, base), SentSystem(s1, id, base))
  {
    var s1 := s.(flight := LookedUp(id));
    assert forall p | p in s.journal :: Seen(s1, p) == Seen(s, p);
    base := FindBase(s, id, s.journal[id].predecessors);
    assert Sends(s1, id, base, SentSystem(s1, id, base));
  }

  function JudgedAs(s: System, id: string, base: nat): Verdict {
    match s.judge(id, base, s.revision)
    case WouldCommit => Committed(s.revision + 1)
    case WouldRefuse => Refused
    case WouldNotWrite => NoOp(s.revision)
  }

  function JudgedSystem(s: System, a: nat, id: string, v: Verdict): System {
    s.(revision := if v.Committed? then s.revision + 1 else s.revision,
       receipts := if v.Committed? then s.receipts[id := v.revision] else s.receipts,
       effects := if v.Committed? then s.effects + [id] else s.effects,
       wire := s.wire - {a},
       verdicts := s.verdicts[a := v])
  }

  lemma CanJudge(s: System, a: nat, id: string)
    requires a in s.wire && a < |s.sent| == |s.bases| && s.sent[a] == id && id !in s.receipts
    ensures var v := JudgedAs(s, id, s.bases[a]); Next(s, Handle(a, v, s.snapshot), JudgedSystem(s, a, id, v))
  {
    var v := JudgedAs(s, id, s.bases[a]);
    assert Handles(s, a, v, s.snapshot, JudgedSystem(s, a, id, v));
  }

  /** The command is looked up, sent, and judged by the server. */
  lemma SendSteps(s: System, id: string) returns (t: System, v: Verdict)
    requires Sound(s) && Sendable(s, id)
    ensures Extends(s, t) && Sound(t) && Answered(t, v) && t.flight.id == id && !v.Known?
    ensures SameStores(s, t) && id in t.sent
    ensures v.Committed? ==> id in t.receipts && v == Committed(t.receipts[id]) && t.receipts[id] > 0
  {
    var s1 := s.(flight := LookedUp(id));
    var base := CanSend(s, id);
    var s2 := SentSystem(s1, id, base);
    v := JudgedAs(s2, id, base);
    t := JudgedSystem(s2, |s.sent|, id, v);
    CanLookUp(s, id);
    CanJudge(s2, |s.sent|, id);
    ThreeSteps(s, LookUp(id), s1, Send(id, base), s2, Handle(|s.sent|, v, s2.snapshot), t);
  }

  lemma SendNow(s: System, id: string) returns (u: System)
    requires Sound(s) && Sendable(s, id)
    ensures Settles(s, u) && Done(u, id) && Accounts(s, u) && Accounted(u, id)
  {
    var t, v := SendSteps(s, id);
    match v
    case Committed(_) => u := Receive(s, t, id);
    case Refused => u := RejectNow(s, t, id);
    case NoOp(revision) => u := Observe(s, t, id, revision);
  }

  lemma Receive(s: System, t: System, id: string) returns (u: System)
    requires Extends(s, t) && Sound(t) && SameStores(s, t)
    requires t.flight.Waiting? && t.flight.id == id && id in t.receipts && t.receipts[id] > 0
             && Answered(t, Committed(t.receipts[id]))
    ensures Settles(s, u) && Done(u, id) && Accounts(s, u) && Accounted(u, id)
  {
    u := ConfirmedSystem(t, id);
    CanConfirm(t, id);
    ConfirmedQuietly(s, t, id);
    SoundStep(s, t, Confirm(id, true), u);
  }

  function ObservedSystem(t: System, id: string, revision: nat): System
    requires id in t.journal
  {
    t.(journal := t.journal[id := t.journal[id].(state := ProjectionPending, noOp := Some(revision),
                                                 owned := false)], flight := Idle)
  }

  lemma CanObserve(t: System, id: string, revision: nat)
    requires Answered(t, NoOp(revision)) && t.flight.id == id
    ensures Next(t, Acknowledge(revision), ObservedSystem(t, id, revision))
  {
    assert Acknowledges(t, revision, ObservedSystem(t, id, revision));
  }

  /** A receiptless acknowledgement is settled by a full read. */
  lemma Observe(s: System, t: System, id: string, revision: nat) returns (u: System)
    requires Extends(s, t) && Sound(t) && SameStores(s, t) && id in t.sent
    requires Answered(t, NoOp(revision)) && t.flight.id == id
    ensures Settles(s, u) && Done(u, id) && Accounts(s, u) && Accounted(u, id)
  {
    var held := ObservedSystem(t, id, revision);
    CanObserve(t, id, revision);
    SoundStep(s, t, Acknowledge(revision), held);
    u := ReadNow(held);
    ExtendsBoth(s, held, u);
    ObservedQuietly(s, t, held, id, revision, u);
  }

  lemma ObservedQuietly(s: System, t: System, held: System, id: string, revision: nat, u: System)
    requires Open(t.journal, id) && SameStores(s, t) && id in t.sent
    requires held == ObservedSystem(t, id, revision) && Quietly(held, u) && Accounts(held, u) && Done(u, id)
    ensures Quietly(s, u) && Accounts(s, u) && Accounted(u, id)
  {
    forall x | x in s.journal
      ensures u.journal[x] == s.journal[x] || (Open(s.journal, x) && Terminal(u.journal[x].state))
      ensures SameLinks(s.journal[x], u.journal[x])
    {
      assert SameLinks(held.journal[x], u.journal[x]);
    }
  }

  // ---------------------------------------------------------------------------------------
  // Every command
  // ---------------------------------------------------------------------------------------

  function Rank(created: seq<string>, id: string): nat {
    if created == [] || created[0] == id then 0 else 1 + Rank(created[1..], id)
  }

  lemma {:induction false} RankAt(created: seq<string>, i: nat)
    requires Distinct(created) && i < |created|
    ensures Rank(created, created[i]) == i
    decreases i
  {
    if i > 0 {
      assert forall a, b | 0 <= a < b < |created[1..]| ::
               created[1..][a] == created[a + 1] && created[1..][b] == created[b + 1];
      RankAt(created[1..], i - 1);
    }
  }

  lemma RankGrows(created: seq<string>, a: string, b: string)
    requires Distinct(created) && Before(created, a, b)
    ensures Rank(created, a) < Rank(created, b)
  {
    var i, j :| 0 <= i < j < |created| && created[i] == a && created[j] == b;
    RankAt(created, i);
    RankAt(created, j);
  }

  /** A predecessor that keeps a command waiting was reserved before it. */
  lemma WaitsForEarlier(s: System, id: string) returns (p: string)
    requires Sound(s) && In(s.journal, id, Active) && Waits(s, id)
    ensures p in s.journal[id].predecessors && p in s.journal && Live(s.journal[p].state) && !ShutIn(s.mirror, p)
    ensures Rank(s.created, p) < Rank(s.created, id)
  {
    p :| p in s.journal[id].predecessors && p in s.journal && Live(Seen(s, p));
    assert RowPlaced(s.created, s.journal[id], id) && Follows(s.created, s.journal[id], id, p);
    RankGrows(s.created, p, id);
  }

  /** A command that is not shut can be settled, after the predecessors that it waits for: by its
      receipt, by a refusal of a predecessor, or by sending it, whatever the server then answers. */
  lemma {:induction false} SettleCommand(s: System, id: string) returns (t: System)
    requires Sound(s) && s.flight == Idle && In(s.journal, id, Active) && !ShutIn(s.mirror, id)
    ensures Settles(s, t) && Done(t, id) && Accounts(s, t) && Accounted(t, id)
    decreases OpenRows(s.journal), Rank(s.created, id)
  {
    if id in s.receipts {
      t := ConfirmNow(s, id);
    } else if Refuses(s, id) {
      ExtendsSelf(s);
      t := RejectNow(s, s, id);
    } else if !Waits(s, id) {
      t := SendNow(s, id);
    } else {
      var p := WaitsForEarlier(s, id);
      var u := SettlePredecessor(s, id, p);
      if Done(u, id) {
        t := u;
      } else {
        SettlesLess(s, u, p);
        t := SettleCommand(u, id);
        SettlesBoth(s, u, t);
      }
    }
  }

  lemma {:induction false} SettlePredecessor(s: System, id: string, p: string) returns (u: System)
    requires Sound(s) && s.flight == Idle && p in s.journal && Live(s.journal[p].state) && !ShutIn(s.mirror, p)
    requires Rank(s.created, p) < Rank(s.created, id)
    ensures Settles(s, u) && Done(u, p) && Accounts(s, u)
    decreases OpenRows(s.journal), Rank(s.created, id), 0
  {
    if s.journal[p].state == Active {
      u := SettleCommand(s, p);
    } else if p in s.receipts {
      u := ConfirmNow(s, p);
    } else {
      u := ReadNow(s);
    }
  }

  // ---------------------------------------------------------------------------------------
  // Quarantined commands
  // ---------------------------------------------------------------------------------------

  lemma Stopped(s: System) returns (t: System)
    requires Sound(s)
    ensures Extends(s, t) && Sound(t) && t == s.(preparing := {}, flight := Idle)
  {
    t := s.(preparing := {}, flight := Idle);
    assert Next(s, Restart, t);
    ExtendsSelf(s);
    SoundStep(s, s, Restart, t);
  }

  /** The end of a quarantine frees a command that the rejection did not take. */
  lemma Freed(s: System, root: string, id: string) returns (t: System)
    requires Sound(s) && s.flight == Idle && root in s.journal && Refusal(s.journal[root].state)
    requires In(s.journal, id, Active) && id in s.mirror && s.mirror[id].status == Quarantined(root)
    ensures Extends(s, t) && Sound(t) && t.flight == Idle && t.journal == s.journal
    ensures id in t.mirror && t.mirror[id].status == Unknown
  {
    t := FreedSystem(s, root);
    CanFree(s, root, id);
    ExtendsSelf(s);
    SoundStep(s, s, EndQuarantine(root), t);
  }

  ghost function FreedSystem(s: System, root: string): System {
    s.(mirror := Ended(s.journal, Retired(s.journal, s.mirror, {root}), QuarantinedBy(s.mirror, {root}) - {root}))
  }

  lemma CanFree(s: System, root: string, id: string)
    requires s.flight == Idle && root in s.journal && Refusal(s.journal[root].state)
    requires In(s.journal, id, Active) && id in s.mirror && s.mirror[id].status == Quarantined(root)
    ensures Next(s, EndQuarantine(root), FreedSystem(s, root))
    ensures id in FreedSystem(s, root).mirror && FreedSystem(s, root).mirror[id].status == Unknown
  {
    assert EndsQuarantine(s, root, FreedSystem(s, root));
  }

  /** In every state of every run, wherever it stopped: a command that a refused root holds in
      quarantine can go on until it is confirmed, or was sent and refused; only if a command that it
      depends on is refused or shut itself, or is undone by it without a receipt, is it refused
      unsent. It does not matter whether the root is still to be rolled back, is terminal already, or
      was met by a full read, as long as the root did not turn out confirmed. */
  lemma QuarantinedMovesOn(states: seq<System>, steps: seq<Step>, n: nat, root: string, id: string) returns (t: System)
    requires Run(states, steps) && n <= |steps|
    requires In(states[n].journal, id, Active) && id in states[n].mirror
             && states[n].mirror[id].status == Quarantined(root)
    requires !In(states[n].journal, root, Confirmed)
    ensures Extends(states[n], t) && Done(t, id) && (id != root ==> Accounted(t, id))
  {
    RunSound(states, steps, n);
    assert root in states[n].journal;
    var idle := Stopped(states[n]);
    t := HeldMovesOn(idle, root, id);
    ExtendsBoth(states[n], idle, t);
  }

  lemma HeldMovesOn(s: System, root: string, id: string) returns (t: System)
    requires Sound(s) && s.flight == Idle && root in s.journal && s.journal[root].state != Confirmed
    requires In(s.journal, id, Active) && id in s.mirror && s.mirror[id].status == Quarantined(root)
    ensures Extends(s, t) && Done(t, id) && (id != root ==> Accounted(t, id))
  {
    if Refusal(s.journal[root].state) {
      t := FreedAndSettled(s, root, id);
    } else {
      var rolledBack := RolledBack(s, root, id);
      if Done(rolledBack, id) {
        t := rolledBack;
      } else {
        t := FreedAndSettled(rolledBack, root, id);
        ExtendsBoth(s, rolledBack, t);
      }
    }
  }

  /** The root is refused, and the command either goes with it, behind something refused, or stays. */
  lemma RolledBack(s: System, root: string, id: string) returns (t: System)
    requires Sound(s) && s.flight == Idle && Open(s.journal, root)
    requires In(s.journal, id, Active) && id in s.mirror && s.mirror[id].status == Quarantined(root)
    ensures Extends(s, t) && Sound(t) && t.flight == Idle && t.mirror == s.mirror
    ensures root in t.journal && Refusal(t.journal[root].state) && id in t.journal
    ensures if Done(t, id) then id != root ==> Accounted(t, id) else In(t.journal, id, Active)
  {
    ExtendsSelf(s);
    t := RejectNow(s, s, root);
  }

  lemma FreedAndSettled(s: System, root: string, id: string) returns (t: System)
    requires Sound(s) && s.flight == Idle && root in s.journal && Refusal(s.journal[root].state)
    requires In(s.journal, id, Active) && id in s.mirror && s.mirror[id].status == Quarantined(root)
    ensures Extends(s, t) && Done(t, id) && Accounted(t, id)
  {
    var freed := Freed(s, root, id);
    t := SettleCommand(freed, id);
    ExtendsBoth(s, freed, t);
  }

  // ---------------------------------------------------------------------------------------
  // Forgotten withdrawals
  // ---------------------------------------------------------------------------------------

  /** The withdrawal is unfinished and no mirror is held for it any more. */
  ghost predicate Forgotten(s: System, id: string) {
    In(s.journal, id, RollbackPending) && forall y | y in s.mirror :: s.mirror[y].status != Quarantined(id)
  }

  /** Not a full read, not the command's own receipt, and not a rejection that takes it along. */
  predicate Unaided(step: Step, id: string) {
    !step.Restore? && !(step.Confirm? && step.id == id) && !(step.Reject? && step.id != id && id in step.order)
  }

  /** A continuation without such help that ends with the withdrawal of the command. */
  ghost predicate Withdraws(s: System, states: seq<System>, steps: seq<Step>, id: string) {
    && Path(states, steps) && states[0] == s && (forall k | 0 <= k < |steps| :: Unaided(steps[k], id))
    && steps != [] && steps[|steps| - 1].Reject? && steps[|steps| - 1].id == id
  }

  /** In every state of every run: an unfinished withdrawal can still be carried out by itself, in some
      continuation, exactly as long as some mirror is held for it. Once none is, no continuation of any
      length does it. */
  lemma RollbackNeedsQuarantine(states: seq<System>, steps: seq<Step>, n: nat, id: string)
    requires Run(states, steps) && n <= |steps| && In(states[n].journal, id, RollbackPending)
    ensures (exists more, rest :: Withdraws(states[n], more, rest, id)) <==> !Forgotten(states[n], id)
  {
    RunSound(states, steps, n);
    if !Forgotten(states[n], id) {
      var more, rest := CanWithdraw(states[n], id);
    }
    if more, rest :| Withdraws(states[n], more, rest, id) {
      CannotWithdraw(states[n], more, rest, id);
    }
  }

  lemma CanWithdraw(s: System, id: string) returns (states: seq<System>, steps: seq<Step>)
    requires In(s.journal, id, RollbackPending) && !Forgotten(s, id)
    ensures Withdraws(s, states, steps, id)
  {
    var idle := s.(preparing := {}, flight := Idle);
    var order := Listed({id} + Dependents(s.journal, id));
    CanRestart(s);
    CanReject(idle, id, order);
    states, steps := [s, idle, RejectedSystem(idle, id, order)], [Restart, Reject(id, Rejected, order)];
  }

  lemma CanRestart(s: System)
    ensures Next(s, Restart, s.(preparing := {}, flight := Idle))
  {}

  lemma CannotWithdraw(s: System, states: seq<System>, steps: seq<Step>, id: string)
    requires Sound(s) && Withdraws(s, states, steps, id)
    ensures !Forgotten(s, id)
  {
    if Forgotten(s, id) {
      var last := |steps| - 1;
      PathForgotten(states, steps, last, id);
      StepForgotten(states[last], steps[last], states[last + 1], id);
    }
  }

  lemma StepForgotten(s: System, step: Step, s': System, id: string)
    requires Sound(s) && Forgotten(s, id) && Next(s, step, s') && Unaided(step, id)
    ensures Sound(s') && Forgotten(s', id)
    ensures step.Reject? || step.RollbackFail? ==> step.id != id
  {
    NextSound(s, step, s');
    NextForgotten(s, step, s', id);
    if step.Reject? || step.RollbackFail? {
      RefusedElsewhere(s, step, s', id);
    }
  }

  lemma PathStep(states: seq<System>, steps: seq<Step>, k: nat)
    requires Path(states, steps) && k < |steps|
    ensures Next(states[k], steps[k], states[k + 1])
  {}

  /** Along any continuation without help a forgotten withdrawal stays forgotten. */
  lemma {:induction false} PathForgotten(states: seq<System>, steps: seq<Step>, n: nat, id: string)
    requires Path(states, steps) && n <= |steps| && Sound(states[0]) && Forgotten(states[0], id)
    requires forall k | 0 <= k < n :: Unaided(steps[k], id)
    ensures Sound(states[n]) && Forgotten(states[n], id)
    decreases n
  {
    if n > 0 {
      PathForgotten(states, steps, n - 1, id);
      OnceMoreForgotten(states, steps, n - 1, id);
    }
  }

  lemma OnceMoreForgotten(states: seq<System>, steps: seq<Step>, k: nat, id: string)
    requires Path(states, steps) && k < |steps| && Sound(states[k]) && Forgotten(states[k], id) && Unaided(steps[k], id)
    ensures Sound(states[k + 1]) && Forgotten(states[k + 1], id)
  {
    PathStep(states, steps, k);
    StepForgotten(states[k], steps[k], states[k + 1], id);
  }

  lemma NextForgotten(s: System, step: Step, s': System, id: string)
    requires Sound(s) && Forgotten(s, id) && Next(s, step, s')
    ensures Forgotten(s', id) || step.Restore? || (step.Reject? && id in step.order && step.id != id)
            || (step.Confirm? && step.id == id)
  {
    if step.RollbackFail? || step.Reject? {
      RefusedElsewhere(s, step, s', id);
    } else {
      ForgottenKept(s, step, s', id);
    }
  }

  lemma ForgottenNotRefusable(s: System, id: string)
    requires FlightInv(s.flight, s.sent, s.journal, s.mirror) && Forgotten(s, id)
    ensures !Refusable(s, id)
  {}

  lemma RejectedElsewhere(s: System, root: string, state: JournalState, order: seq<string>, s': System, id: string)
    requires Forgotten(s, id) && Rejects(s, root, state, order, s') && root != id && id !in order
    ensures Forgotten(s', id)
  {}

  lemma FailedElsewhere(s: System, root: string, marked: set<string>, rows: set<string>, s': System, id: string)
    requires Forgotten(s, id) && RollbackFails(s, root, marked, rows, s') && root != id
    ensures Forgotten(s', id)
  {}

  lemma RefusedElsewhere(s: System, step: Step, s': System, id: string)
    requires FlightInv(s.flight, s.sent, s.journal, s.mirror) && Forgotten(s, id) && Next(s, step, s')
    requires step.RollbackFail? || step.Reject?
    ensures step.id != id && (Forgotten(s', id) || (step.Reject? && id in step.order))
  {
    ForgottenNotRefusable(s, id);
    match step
    case Reject(root, state, order) =>
      if id !in order {
        RejectedElsewhere(s, root, state, order, s', id);
      }
    case RollbackFail(root, marked, rows) => FailedElsewhere(s, root, marked, rows, s', id);
  }

  lemma ForgottenKept(s: System, step: Step, s': System, id: string)
    requires FlightInv(s.flight, s.sent, s.journal, s.mirror) && Forgotten(s, id) && Next(s, step, s')
    requires !step.RollbackFail? && !step.Reject?
    ensures Forgotten(s', id) || step.Restore? || (step.Confirm? && step.id == id)
  {
    forall y | y in s'.mirror && s'.mirror[y].status.Quarantined?
      ensures y in s.mirror && s.mirror[y].status == s'.mirror[y].status
    {
      MirrorNotHeld(s, step, s', y);
    }
    if !step.Restore? && !(step.Confirm? && step.id == id) {
      RowNotSettled(s, step, s', id);
    }
  }

  /** The steps that follow a reply, or the lack of one. */
  predicate AfterReply(step: Step) {
    step.TimeOut? || step.Confirm? || step.ConfirmEmpty? || step.Acknowledge? || step.Reject?
  }

  /** The steps that tidy the mirror. */
  predicate Tidies(step: Step) {
    step.Retire? || step.EndQuarantine? || step.CloseQuarantine?
  }

  lemma MirrorNotHeld(s: System, step: Step, s': System, y: string)
    requires Next(s, step, s') && !step.RollbackFail? && y in s'.mirror && s'.mirror[y].status.Quarantined?
    ensures y in s.mirror && s.mirror[y].status == s'.mirror[y].status
  {
    if AfterReply(step) {
      MirrorNotHeldAfter(s, step, s', y);
    } else if Tidies(step) {
      MirrorNotHeldTidied(s, step, s', y);
    } else {
      MirrorNotHeldBefore(s, step, s', y);
    }
  }

  lemma MirrorNotHeldAfter(s: System, step: Step, s': System, y: string)
    requires Next(s, step, s') && AfterReply(step) && y in s'.mirror && s'.mirror[y].status.Quarantined?
    ensures y in s.mirror && s.mirror[y].status == s'.mirror[y].status
  {}

  lemma MirrorNotHeldTidied(s: System, step: Step, s': System, y: string)
    requires Next(s, step, s') && Tidies(step) && y in s'.mirror && s'.mirror[y].status.Quarantined?
    ensures y in s.mirror && s.mirror[y].status == s'.mirror[y].status
  {}

  lemma MirrorNotHeldBefore(s: System, step: Step, s': System, y: string)
    requires Next(s, step, s') && !AfterReply(step) && !Tidies(step) && !step.RollbackFail? && y in s'.mirror
             && s'.mirror[y].status.Quarantined?
    ensures y in s.mirror && s.mirror[y].status == s'.mirror[y].status
  {}

  lemma RowNotSettled(s: System, step: Step, s': System, id: string)
    requires Next(s, step, s') && In(s.journal, id, RollbackPending) && FlightInv(s.flight, s.sent, s.journal, s.mirror)
    requires !step.RollbackFail? && !step.Reject? && !step.Restore? && !(step.Confirm? && step.id == id)
    ensures In(s'.journal, id, RollbackPending)
  {
    if AfterReply(step) {
      RowNotSettledAfter(s, step, s', id);
    } else if Tidies(step) {
      RowNotSettledTidied(s, step, s', id);
    } else {
      RowNotSettledBefore(s, step, s', id);
    }
  }

  lemma RowNotSettledAfter(s: System, step: Step, s': System, id: string)
    requires Next(s, step, s') && In(s.journal, id, RollbackPending) && FlightInv(s.flight, s.sent, s.journal, s.mirror)
    requires AfterReply(step) && !step.Reject? && !(step.Confirm? && step.id == id)
    ensures In(s'.journal, id, RollbackPending)
  {}

  lemma RowNotSettledTidied(s: System, step: Step, s': System, id: string)
    requires Next(s, step, s') && In(s.journal, id, RollbackPending) && Tidies(step)
    ensures In(s'.journal, id, RollbackPending)
  {}

  lemma RowNotSettledBefore(s: System, step: Step, s': System, id: string)
    requires Next(s, step, s') && In(s.journal, id, RollbackPending) && !AfterReply(step) && !Tidies(step)
             && !step.RollbackFail? && !step.Restore?
    ensures In(s'.journal, id, RollbackPending)
  {}

  /** A forgotten withdrawal stays forgotten in every run until a full read settles it, its receipt
      turns up, or it is taken along by the rejection of a command that it depends on; it is never
      carried out by itself. */
  lemma {:induction false} ForgottenUntil(states: seq<System>, steps: seq<Step>, i: nat, n: nat, id: string)
    requires Run(states, steps) && i <= n <= |steps| && Forgotten(states[i], id)
    requires forall k | i <= k < n :: Unaided(steps[k], id)
    ensures Forgotten(states[n], id)
    ensures forall k | i <= k < n && (steps[k].Reject? || steps[k].RollbackFail?) :: steps[k].id != id
    decreases n
  {
    if i < n {
      ForgottenUntil(states, steps, i, n - 1, id);
      RunSound(states, steps, n - 1);
      LaterStep(states, steps, n - 1);
      StepForgotten(states[n - 1], steps[n - 1], states[n], id);
    }
  }
}
