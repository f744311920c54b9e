/**
 Three runs that the safety theorems have to exclude. A command is sent although its predecessor was
 refused and not rolled back, because two rollbacks fail and the second quarantine replaces the
 first. A command is sent although its predecessor is only reserved. And a command is withdrawn on
 the refusal of a repeated request and then committed by the first one, which was only delayed and
 met the server after somebody else's write.
 */
module ConnectedScenario {
  import opened Wrappers
  import opened Interactions
  import opened WorkspaceDelta
  import opened ConnectedSystem

  ghost predicate Reachable(s: System) {
    exists states, steps :: Run(states, steps) && states[|steps|] == s
  }

  lemma ReachNext(s: System, step: Step, t: System)
    requires Reachable(s) && Next(s, step, t)
    ensures Reachable(t)
  {
    var states, steps :| Run(states, steps) && states[|steps|] == s;
    var states', steps' := states + [t], steps + [step];
    forall i | 0 <= i < |steps'| ensures Next(states'[i], steps'[i], states'[i + 1]) {
      if i < |steps| {
        assert Next(states[i], steps[i], states[i + 1]);
      }
    }
    assert Run(states', steps') && states'[|steps'|] == t;
  }

  lemma NoDependents(j: map<string, JournalRow>, root: string)
    requires forall id | id in j :: j[id].predecessors == {}
    ensures Dependents(j, root) == {}
  {
    forall id, n: nat | id in j && id != root ensures !Reaches(j, root, id, n) {}
  }

  /** The server refuses everything before its first write, and takes everything after it. */
  function Judge(id: string, base: nat, revision: nat): Judgement {
    if revision == 0 then WouldRefuse else WouldCommit
  }

  function NewRow(state: JournalState, predecessors: set<string>): JournalRow {
    JournalRow(state, predecessors, None, [], None, true, 0, None)
  }

  function NewEntry(status: Status, predecessors: set<string>): Entry {
    Entry(status, predecessors, None)
  }

  /** Every request of the scenarios names revision 0. */
  function Zeros(sent: seq<string>): seq<nat> {
    seq(|sent|, _ => 0)
  }

  /** A state of the scenarios before the server's first write, with nothing in preparation. */
  function At(verdicts: map<nat, Verdict>, journal: map<string, JournalRow>, mirror: map<string, Entry>,
              created: seq<string>, flight: Flight, sent: seq<string>, reversals: seq<string>): System {
    System(Judge, 0, map[], map[], [], {}, verdicts, journal, mirror, 0, UpTo(0), created, {}, flight, sent,
           Zeros(sent), {}, reversals)
  }

  lemma Start()
    ensures Reachable(At(map[], map[], map[], [], Idle, [], []))
  {
    var s0 := At(map[], map[], map[], [], Idle, [], []);
    assert Run([s0], []) && [s0][0] == s0;
  }

  lemma Began(verdicts: map<nat, Verdict>, journal: map<string, JournalRow>, mirror: map<string, Entry>,
              created: seq<string>, sent: seq<string>, reversals: seq<string>, id: string, predecessors: set<string>)
    requires Reachable(At(verdicts, journal, mirror, created, Idle, sent, reversals))
    requires id !in created && id !in journal && id !in predecessors
    requires forall p | p in predecessors :: p in mirror && mirror[p].status != Closed
    ensures Reachable(At(verdicts, journal[id := NewRow(Active, predecessors)],
                         mirror[id := NewEntry(Pending, predecessors)],
                         created + [id], Idle, sent, reversals))
  {
    var s := At(verdicts, journal, mirror, created, Idle, sent, reversals);
    var reserved := s.(mirror := mirror[id := NewEntry(Pending, predecessors)], preparing := {id},
                       created := created + [id]);
    assert Next(s, Reserve(id, predecessors, None), reserved);
    ReachNext(s, Reserve(id, predecessors, None), reserved);
    var t := reserved.(journal := journal[id := NewRow(Active, predecessors)], preparing := {});
    assert Next(reserved, Journal(id, predecessors, []), t);
    ReachNext(reserved, Journal(id, predecessors, []), t);
  }

  // ---------------------------------------------------------------------------------------
  // Two failed rollbacks
  // ---------------------------------------------------------------------------------------

  lemma SentAndRefused(verdicts: map<nat, Verdict>, journal: map<string, JournalRow>, mirror: map<string, Entry>,
                       created: seq<string>, sent: seq<string>, reversals: seq<string>, id: string)
    requires Reachable(At(verdicts, journal, mirror, created, Idle, sent, reversals))
    requires In(journal, id, Active) && journal[id].predecessors == {} && journal[id].base == 0 && id in mirror
             && mirror[id].status == Pending && id !in sent
    requires forall y | y in mirror :: mirror[y].status != Quarantined(id)
    ensures Reachable(At(verdicts[|sent| := Refused], journal, mirror, created, Waiting(id, |sent|), sent + [id],
                         reversals))
  {
    var s := At(verdicts, journal, mirror, created, Idle, sent, reversals);
    var flying := s.(wire := {|sent|}, sent := sent + [id], bases := Zeros(sent + [id]), flight := Waiting(id, |sent|));
    assert !Irregular(s, id) && !Refuses(s, id) && !Waits(s, id);
    assert Next(s, Send(id, 0), flying);
    ReachNext(s, Send(id, 0), flying);
    var t := flying.(wire := {}, verdicts := verdicts[|sent| := Refused]);
    assert Next(flying, Handle(|sent|, Refused, map[]), t);
    ReachNext(flying, Handle(|sent|, Refused, map[]), t);
  }

  function TwoRows(r: JournalState, q: JournalState): map<string, JournalRow> {
    map["r" := NewRow(r, {}), "q" := NewRow(q, {})]
  }

  function TwoEntries(r: Status, q: Status): map<string, Entry> {
    map["r" := NewEntry(r, {}), "q" := NewEntry(q, {})]
  }

  /** Two independent commands are journaled. */
  lemma BothJournaled()
    ensures Reachable(At(map[], TwoRows(Active, Active), TwoEntries(Pending, Pending), ["r", "q"], Idle, [], []))
  {
    Start();
    Began(map[], map[], map[], [], [], [], "r", {});
    var one: map<string, JournalRow> := map[];
    var first: map<string, Entry> := map[];
    assert [] + ["r"] == ["r"] && ["r"] + ["q"] == ["r", "q"];
    Began(map[], one["r" := NewRow(Active, {})], first["r" := NewEntry(Pending, {})], ["r"], [], [], "q", {});
    assert one["r" := NewRow(Active, {})]["q" := NewRow(Active, {})] == TwoRows(Active, Active);
    assert first["r" := NewEntry(Pending, {})]["q" := NewEntry(Pending, {})] == TwoEntries(Pending, Pending);
  }

  /** The first is sent and refused, and its rollback fails. */
  lemma FirstRollbackFails()
    ensures Reachable(At(map[0 := Refused], TwoRows(RollbackPending, Active), TwoEntries(Quarantined("r"), Pending),
                         ["r", "q"],
                         Idle, ["r"], []))
  {
    BothJournaled();
    SentAndRefused(map[], TwoRows(Active, Active), TwoEntries(Pending, Pending), ["r", "q"], [], [], "r");
    var none: map<nat, Verdict> := map[];
    assert none[0 := Refused] == map[0 := Refused] && [] + ["r"] == ["r"];
    var s := At(map[0 := Refused], TwoRows(Active, Active), TwoEntries(Pending, Pending), ["r", "q"],
                Waiting("r", 0), ["r"], []);
    var t := At(map[0 := Refused], TwoRows(RollbackPending, Active), TwoEntries(Quarantined("r"), Pending),
                ["r", "q"], Idle, ["r"], []);
    CanFailAlone(s, t);
    ReachNext(s, RollbackFail("r", {"r"}, {"r"}), t);
  }

  lemma CanFailAlone(s: System, t: System)
    requires s.journal == TwoRows(Active, Active) && s.mirror == TwoEntries(Pending, Pending)
    requires s.flight == Waiting("r", 0) && s.verdicts == map[0 := Refused]
    requires t == s.(journal := TwoRows(RollbackPending, Active), mirror := TwoEntries(Quarantined("r"), Pending),
                     flight := Idle)
    ensures Next(s, RollbackFail("r", {"r"}, {"r"}), t)
  {
    OneFailed(s.journal, s.mirror);
    assert Refusable(s, "r");
  }

  lemma OneFailed(j: map<string, JournalRow>, m: map<string, Entry>)
    requires j == TwoRows(Active, Active) && m == TwoEntries(Pending, Pending)
    ensures {"r"} + Dependents(j, "r") == {"r"}
    ensures WithStatus(m, {"r"}, Quarantined("r")) == TwoEntries(Quarantined("r"), Pending)
    ensures WithState(j, {"r"}, RollbackPending) == TwoRows(RollbackPending, Active)
  {
    NoDependents(j, "r");
  }

  /** The second is refused too, while the journal cannot be read: every mirror is put under its
      quarantine, which replaces the first one. */
  lemma SecondQuarantineReplacesFirst()
    ensures Reachable(At(map[0 := Refused, 1 := Refused], TwoRows(RollbackPending, Active),
                         TwoEntries(Quarantined("q"), Quarantined("q")), ["r", "q"], Idle, ["r", "q"], []))
  {
    FirstRollbackFails();
    SentAndRefused(map[0 := Refused], TwoRows(RollbackPending, Active), TwoEntries(Quarantined("r"), Pending),
                   ["r", "q"], ["r"], [], "q");
    assert map[0 := Refused][1 := Refused] == map[0 := Refused, 1 := Refused] && ["r"] + ["q"] == ["r", "q"];
    var s := At(map[0 := Refused, 1 := Refused], TwoRows(RollbackPending, Active),
                TwoEntries(Quarantined("r"), Pending), ["r", "q"],
                Waiting("q", 1), ["r", "q"], []);
    var t := At(map[0 := Refused, 1 := Refused], TwoRows(RollbackPending, Active),
                TwoEntries(Quarantined("q"), Quarantined("q")), ["r", "q"],
                Idle, ["r", "q"], []);
    assert WithState(s.journal, {}, RollbackPending) == t.journal;
    assert WithStatus(s.mirror, s.mirror.Keys, Quarantined("q")) == t.mirror;
    assert RollbackFails(s, "q", s.mirror.Keys, {}, t);
    ReachNext(s, RollbackFail("q", s.mirror.Keys, {}), t);
  }

  /** Its own rollback is retried and commits. */
  lemma SecondRollbackCommits()
    ensures Reachable(At(map[0 := Refused, 1 := Refused], TwoRows(RollbackPending, Rejected),
                         TwoEntries(Quarantined("q"), Quarantined("q")), ["r", "q"], Idle, ["r", "q"], ["q"]))
  {
    SecondQuarantineReplacesFirst();
    var s := At(map[0 := Refused, 1 := Refused], TwoRows(RollbackPending, Active),
                TwoEntries(Quarantined("q"), Quarantined("q")), ["r", "q"],
                Idle, ["r", "q"], []);
    var t := At(map[0 := Refused, 1 := Refused], TwoRows(RollbackPending, Rejected),
                TwoEntries(Quarantined("q"), Quarantined("q")), ["r", "q"],
                Idle, ["r", "q"], ["q"]);
    NoDependents(s.journal, "q");
    assert s.mirror["q"].status == Quarantined("q");
    assert WithState(WithState(s.journal, {}, Rejected), {"q"}, Rejected) == t.journal;
    assert Rejects(s, "q", Rejected, ["q"], t);
    ReachNext(s, Reject("q", Rejected, ["q"]), t);
  }

  lemma QuarantineOfBoth(j: map<string, JournalRow>, m: map<string, Entry>)
    requires j == TwoRows(RollbackPending, Rejected) && m == TwoEntries(Quarantined("q"), Quarantined("q"))
    ensures Ended(j, Retired(j, m, {"q"}), QuarantinedBy(m, {"q"}) - {"q"}) == map["r" := NewEntry(Unknown, {})]
  {
    assert QuarantinedBy(m, {"q"}) - {"q"} == {"r"};
    assert Retired(j, m, {"q"}) == map["r" := NewEntry(Quarantined("q"), {})];
  }

  /** Its quarantine ends; the first rollback is forgotten. */
  lemma FirstRollbackForgotten()
    ensures Reachable(At(map[0 := Refused, 1 := Refused], TwoRows(RollbackPending, Rejected),
                         map["r" := NewEntry(Unknown, {})], ["r", "q"], Idle, ["r", "q"], ["q"]))
  {
    SecondRollbackCommits();
    var t := At(map[0 := Refused, 1 := Refused], TwoRows(RollbackPending, Rejected),
                TwoEntries(Quarantined("q"), Quarantined("q")), ["r", "q"],
                Idle, ["r", "q"], ["q"]);
    var u := t.(mirror := map["r" := NewEntry(Unknown, {})]);
    QuarantineOfBoth(t.journal, t.mirror);
    assert EndsQuarantine(t, "q", u);
    ReachNext(t, EndQuarantine("q"), u);
  }

  /** A command begun on the first one is then sent, although its predecessor was refused and has
      not been rolled back. */
  lemma SentOnRefusedPredecessor() returns (s: System, t: System)
    ensures Reachable(s) && Next(s, Send("c", 0), t)
    ensures In(s.journal, "c", Active) && s.journal["c"].predecessors == {"r"} && In(s.journal, "r", RollbackPending)
    ensures |s.sent| > 0 && s.sent[0] == "r" && 0 in s.verdicts && s.verdicts[0] == Refused && "r" !in s.effects
            && "r" !in s.reversals
  {
    FirstRollbackForgotten();
    var verdicts: map<nat, Verdict> := map[0 := Refused, 1 := Refused];
    Began(verdicts, TwoRows(RollbackPending, Rejected), map["r" := NewEntry(Unknown, {})], ["r", "q"], ["r", "q"],
          ["q"], "c", {"r"});
    s := At(verdicts, TwoRows(RollbackPending, Rejected)["c" := NewRow(Active, {"r"})],
            map["r" := NewEntry(Unknown, {})]["c" := NewEntry(Pending, {"r"})], ["r", "q"] + ["c"], Idle, ["r", "q"],
              ["q"]);
    t := s.(wire := {2}, sent := ["r", "q"] + ["c"], bases := Zeros(["r", "q"] + ["c"]), flight := Waiting("c", 2),
            irregular := {"c"});
    CanSendOnRefused(s, t);
  }

  lemma CanSendOnRefused(s: System, t: System)
    requires s.flight == Idle && s.sent == ["r", "q"] && s.bases == Zeros(s.sent) && s.wire == {} && s.irregular == {}
    requires s.journal == TwoRows(RollbackPending, Rejected)["c" := NewRow(Active, {"r"})]
    requires s.mirror == map["r" := NewEntry(Unknown, {})]["c" := NewEntry(Pending, {"r"})]
    requires t == s.(wire := {2}, sent := s.sent + ["c"], bases := Zeros(s.sent + ["c"]), flight := Waiting("c", 2),
                     irregular := {"c"})
    ensures Next(s, Send("c", 0), t)
  {
    assert "r" in s.journal["c"].predecessors && s.journal["r"].state == RollbackPending;
    assert Irregular(s, "c");
    assert t.bases == s.bases + [0];
  }

  // ---------------------------------------------------------------------------------------
  // A predecessor without a row
  // ---------------------------------------------------------------------------------------

  /** While the first command is still being saved, the second is begun on it and sent. */
  lemma SentOnReservedPredecessor() returns (s: System, t: System)
    ensures Reachable(s) && Next(s, Send("c", 0), t)
    ensures In(s.journal, "c", Active) && s.journal["c"].predecessors == {"p"}
    ensures "p" !in s.journal && "p" in s.preparing && "p" in s.mirror && "p" !in s.sent
  {
    s := JournaledOnReserved();
    t := s.(wire := s.wire + {0}, sent := s.sent + ["c"], bases := Zeros(s.sent + ["c"]), flight := Waiting("c", 0),
            irregular := {} + {"c"});
    assert "p" in s.journal["c"].predecessors && "p" !in s.journal;
    assert Irregular(s, "c");
    assert Next(s, Send("c", 0), t);
  }

  lemma JournaledOnReserved() returns (s: System)
    ensures Reachable(s)
    ensures s == At(map[], map["c" := NewRow(Active, {"p"})], s.mirror, s.created, Idle, [], []).(preparing := {"p"})
    ensures s.mirror == map["p" := NewEntry(Pending, {}), "c" := NewEntry(Pending, {"p"})]
  {
    Start();
    var s0 := At(map[], map[], map[], [], Idle, [], []);
    var s1 := s0.(mirror := map["p" := NewEntry(Pending, {})], preparing := {"p"}, created := ["p"]);
    assert s0.mirror["p" := NewEntry(Pending, {})] == s1.mirror && s0.preparing + {"p"} == {"p"}
           && s0.created + ["p"] == ["p"];
    assert Next(s0, Reserve("p", {}, None), s1);
    ReachNext(s0, Reserve("p", {}, None), s1);
    var s2 := s1.(mirror := s1.mirror["c" := NewEntry(Pending, {"p"})], preparing := {"p"} + {"c"},
                  created := ["p"] + ["c"]);
    assert Next(s1, Reserve("c", {"p"}, None), s2);
    ReachNext(s1, Reserve("c", {"p"}, None), s2);
    s := s2.(journal := s2.journal["c" := NewRow(Active, {"p"})], preparing := {"p"} + {"c"} - {"c"});
    assert Next(s2, Journal("c", {"p"}, []), s);
    ReachNext(s2, Journal("c", {"p"}, []), s);
    assert s.preparing == {"p"};
  }

  // ---------------------------------------------------------------------------------------
  // A delayed request
  // ---------------------------------------------------------------------------------------

  /** The only command, with what happened to it so far. */
  function Alone(wire: set<nat>, verdicts: map<nat, Verdict>, state: JournalState, flight: Flight,
                 sent: seq<string>, reversals: seq<string>): System {
    At(verdicts, map["a" := NewRow(state, {})], map["a" := NewEntry(Pending, {})], ["a"], flight, sent,
       reversals).(wire := wire)
  }

  lemma AloneBegan()
    ensures Reachable(Alone({}, map[], Active, Idle, [], []))
  {
    Start();
    Began(map[], map[], map[], [], [], [], "a", {});
    var none: map<string, JournalRow> := map[];
    var bare: map<string, Entry> := map[];
    assert none["a" := NewRow(Active, {})] == map["a" := NewRow(Active, {})];
    assert bare["a" := NewEntry(Pending, {})] == map["a" := NewEntry(Pending, {})] && [] + ["a"] == ["a"];
  }

  /** One command is sent and its reply is lost. */
  lemma SentOnce()
    ensures Reachable(Alone({0}, map[], Active, Idle, ["a"], []))
  {
    AloneBegan();
    var s := Alone({}, map[], Active, Idle, [], []);
    var t := Alone({0}, map[], Active, Waiting("a", 0), ["a"], []);
    assert t.sent == s.sent + ["a"] && Sends(s, "a", 0, t);
    ReachNext(s, Send("a", 0), t);
    var u := Alone({0}, map[], Active, Idle, ["a"], []);
    assert TimesOut(t, None, u);
    ReachNext(t, TimeOut(None), u);
  }

  /** No receipt is found, and it is sent again. */
  lemma SentTwice()
    ensures Reachable(Alone({0, 1}, map[], Active, Waiting("a", 1), ["a", "a"], []))
  {
    SentOnce();
    var s := Alone({0}, map[], Active, Idle, ["a"], []);
    var t := Alone({0}, map[], Active, LookedUp("a"), ["a"], []);
    assert LooksUp(s, "a", t);
    ReachNext(s, LookUp("a"), t);
    var u := Alone({0, 1}, map[], Active, Waiting("a", 1), ["a", "a"], []);
    assert t.wire + {1} == u.wire && t.sent + ["a"] == u.sent && Sends(t, "a", 0, u);
    ReachNext(t, Send("a", 0), u);
  }

  /** The repeated request arrives first and is refused. */
  lemma SecondRefused()
    ensures Reachable(Alone({0}, map[1 := Refused], Active, Waiting("a", 1), ["a", "a"], []))
  {
    SentTwice();
    var s := Alone({0, 1}, map[], Active, Waiting("a", 1), ["a", "a"], []);
    var t := Alone({0}, map[1 := Refused], Active, Waiting("a", 1), ["a", "a"], []);
    assert s.wire - {1} == {0} && s.verdicts[1 := Refused] == map[1 := Refused] && Handles(s, 1, Refused, map[], t);
    ReachNext(s, Handle(1, Refused, map[]), t);
  }

  /** The command is withdrawn. */
  lemma AloneWithdrawn()
    ensures Reachable(Alone({0}, map[1 := Refused], Rejected, Idle, ["a", "a"], ["a"]))
  {
    SecondRefused();
    var s := Alone({0}, map[1 := Refused], Active, Waiting("a", 1), ["a", "a"], []);
    var t := Alone({0}, map[1 := Refused], Rejected, Idle, ["a", "a"], ["a"]);
    NoDependents(s.journal, "a");
    assert WithState(WithState(s.journal, {}, Rejected), {"a"}, Rejected) == t.journal && [] + ["a"] == ["a"];
    assert Rejects(s, "a", Rejected, ["a"], t);
    ReachNext(s, Reject("a", Rejected, ["a"]), t);
  }

  /** Somebody else writes, and the delayed first request is now taken. */
  lemma WithdrawnThenCommitted() returns (s: System)
    ensures Reachable(s)
    ensures In(s.journal, "a", Rejected) && s.reversals == ["a"] && s.effects == ["a"] && s.receipts == map["a" := 2]
    ensures s.sent == ["a", "a"] && s.irregular == {}
  {
    AloneWithdrawn();
    var t := Alone({0}, map[1 := Refused], Rejected, Idle, ["a", "a"], ["a"]);
    var u := t.(revision := 1);
    assert OtherWrites(t, map[], u);
    ReachNext(t, OtherWrite(map[]), u);
    s := u.(revision := 2, receipts := map["a" := 2], effects := ["a"], wire := {},
            verdicts := map[1 := Refused, 0 := Committed(2)]);
    assert u.wire - {0} == {} && u.verdicts[0 := Committed(2)] == s.verdicts && u.receipts["a" := 2] == s.receipts;
    assert u.sent[0] == "a" && u.effects + ["a"] == ["a"] && Handles(u, 0, Committed(2), map[], s);
    ReachNext(u, Handle(0, Committed(2), map[]), s);
  }
}
