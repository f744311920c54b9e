/**
 A command that ended as a conflict keeps its mirror, closed, so that nothing new is begun on it. That
 holds in every run until a rollback fails with an unreadable journal and puts every mirror under its
 quarantine, that one too.
 */
module ConnectedConflicts {
  import opened Wrappers
  import opened Interactions
  import opened WorkspaceDelta
  import opened Receiptless
  import opened ConnectedSystem
  import opened ConnectedSafety
  import opened ConnectedScenario

  /** The conflict is final and its mirror, while there is one, is closed. */
  predicate LaidAside(s: System, id: string) {
    In(s.journal, id, Conflict) && (id in s.mirror ==> s.mirror[id].status == Closed)
  }

  lemma PreparesKeepsAside(s: System, step: Step, s': System, id: string)
    requires Inv(s) && Next(s, step, s') && Prepares(step) && LaidAside(s, id)
    ensures id in s'.mirror ==> s'.mirror[id].status == Closed
  {
    assert id in s.created;
    if step.RecoverMirror? {
      RecoverKeepsAside(s, step.id, step.how, s', id);
    }
  }

  lemma RecoverKeepsAside(s: System, id: string, how: MirrorOnly, s': System, x: string)
    requires RecoversMirror(s, id, how, s') && LaidAside(s, x)
    ensures x in s'.mirror ==> s'.mirror[x].status == Closed
  {}

  lemma OutwardKeepsAside(s: System, step: Step, s': System, id: string)
    requires Inv(s) && Next(s, step, s') && Outward(step) && !Prepares(step) && LaidAside(s, id)
    ensures id in s'.mirror ==> s'.mirror[id].status == Closed
  {}

  lemma RepliesKeepAside(s: System, step: Step, s': System, id: string)
    requires Inv(s) && Next(s, step, s') && LaidAside(s, id)
    requires step.Confirm? || step.ConfirmEmpty? || step.Acknowledge?
    ensures id in s'.mirror ==> s'.mirror[id].status == Closed
  {
    if step.Confirm? {
      ConfirmKeepsAside(s, step.id, step.projected, s', id);
    }
  }

  lemma ConfirmKeepsAside(s: System, root: string, projected: bool, s': System, id: string)
    requires Confirms(s, root, projected, s') && LaidAside(s, id)
    ensures id in s'.mirror ==> s'.mirror[id].status == Closed
  {}

  lemma RecoversKeepsAside(s: System, step: Step, s': System, id: string)
    requires Next(s, step, s') && LaidAside(s, id) && Recovers(step)
    ensures id in s'.mirror ==> s'.mirror[id].status == Closed
  {}

  lemma RetiresKeepsAside(s: System, step: Step, s': System, id: string)
    requires Inv(s) && Next(s, step, s') && LaidAside(s, id) && !Outward(step) && !Recovers(step)
    requires !step.Confirm? && !step.ConfirmEmpty? && !step.Acknowledge?
    requires step.RollbackFail? ==> id !in step.marked
    ensures id in s'.mirror ==> s'.mirror[id].status == Closed
  {}

  lemma NextKeepsAside(s: System, step: Step, s': System, id: string)
    requires Inv(s) && Next(s, step, s') && LaidAside(s, id)
    requires step.RollbackFail? ==> id !in step.marked
    ensures LaidAside(s', id)
  {
    NextKeepsTerminalRow(s, step, s', id);
    if Prepares(step) {
      PreparesKeepsAside(s, step, s', id);
    } else if Outward(step) {
      OutwardKeepsAside(s, step, s', id);
    } else if Recovers(step) {
      RecoversKeepsAside(s, step, s', id);
    } else if step.Confirm? || step.ConfirmEmpty? || step.Acknowledge? {
      RepliesKeepAside(s, step, s', id);
    } else {
      RetiresKeepsAside(s, step, s', id);
    }
  }

  /** Some rollback from there on put the command's mirror under its quarantine. */
  predicate QuarantinedSince(steps: seq<Step>, k: nat, n: nat, id: string)
    requires n <= |steps|
  {
    exists i | k <= i < n :: steps[i].RollbackFail? && id in steps[i].marked
  }

  lemma {:induction false} StaysAside(states: seq<System>, steps: seq<Step>, k: nat, n: nat, id: string)
    requires Run(states, steps) && k <= n <= |steps| && LaidAside(states[k], id) && !QuarantinedSince(steps, k, n, id)
    ensures LaidAside(states[n], id)
    decreases n
  {
    if k < n {
      StaysAside(states, steps, k, n - 1, id);
      RunInv(states, steps, n - 1);
      LaterStep(states, steps, n - 1);
      NextKeepsAside(states[n - 1], steps[n - 1], states[n], id);
    }
  }

  /** Only the quarantine of every mirror reaches a conflict: its row is not open, so no root depends on it. */
  lemma OnlyAllReachesIt(s: System, step: Step, s': System, id: string)
    requires Inv(s) && Next(s, step, s') && step.RollbackFail? && id in step.marked && In(s.journal, id, Conflict)
    ensures step.marked == s.mirror.Keys
  {
    DependentsOpen(s.journal, step.id);
  }

  /** In every run, once a conflict has been retired, a later command names it among its reserved predecessors
      only if in between a rollback failed with an unreadable journal and quarantined every mirror. */
  lemma RetiredConflictIsNotReservedUpon(states: seq<System>, steps: seq<Step>, k: nat, n: nat, id: string)
    requires Run(states, steps) && k < n < |steps| && steps[k] == Retire(id) && In(states[k].journal, id, Conflict)
    requires steps[n].Reserve? && steps[n].target.None? && id in steps[n].predecessors
    ensures exists i | k < i < n ::
              steps[i].RollbackFail? && id in steps[i].marked && steps[i].marked == states[i].mirror.Keys
  {
    LaterStep(states, steps, k);
    LaterStep(states, steps, n);
    assert LaidAside(states[k + 1], id);
    if !QuarantinedSince(steps, k + 1, n, id) {
      StaysAside(states, steps, k + 1, n, id);
      assert false;
    }
    var i :| k + 1 <= i < n && steps[i].RollbackFail? && id in steps[i].marked;
    RunInv(states, steps, k + 1);
    TerminalForever(states, steps, k + 1, i, id);
    RunInv(states, steps, i);
    LaterStep(states, steps, i);
    OnlyAllReachesIt(states[i], steps[i], states[i + 1], id);
  }

  /** And then it can be: right after such a quarantine any new command may name any conflict that still has
      a mirror. */
  lemma QuarantineOpensConflict(s: System, step: Step, s': System, id: string, c: string) returns (t: System)
    requires Next(s, step, s') && step.RollbackFail? && id in step.marked && id in s.mirror
    requires In(s.journal, id, Conflict) && c !in s.created && c != id
    ensures Next(s', Reserve(c, {id}, None), t)
  {
    t := s'.(mirror := s'.mirror[c := Entry(Pending, {id}, None)], preparing := s'.preparing + {c},
             created := s'.created + [c]);
  }

  // ---------------------------------------------------------------------------------------
  // A run that does it
  // ---------------------------------------------------------------------------------------

  function Rows(b: JournalState): map<string, JournalRow> {
    map["a" := NewRow(Conflict, {}), "b" := NewRow(b, {})]
  }

  function Mirrors(a: Status, b: Status): map<string, Entry> {
    map["a" := NewEntry(a, {}), "b" := NewEntry(b, {})]
  }

  /** The first command ends as a conflict and is retired. */
  lemma FirstRetired()
    ensures Reachable(At(map[0 := Refused], map["a" := NewRow(Conflict, {})], map["a" := NewEntry(Closed, {})], ["a"],
                         Idle, ["a"], ["a"]))
  {
    FirstIsConflict();
    var s := At(map[0 := Refused], map["a" := NewRow(Conflict, {})], map["a" := NewEntry(Pending, {})], ["a"],
                Idle, ["a"], ["a"]);
    var t := s.(mirror := map["a" := NewEntry(Closed, {})]);
    assert Retired(s.journal, s.mirror, {"a"}) == t.mirror;
    assert Next(s, Retire("a"), t);
    ReachNext(s, Retire("a"), t);
  }

  lemma FirstIsConflict()
    ensures Reachable(At(map[0 := Refused], map["a" := NewRow(Conflict, {})], map["a" := NewEntry(Pending, {})], ["a"],
                         Idle, ["a"], ["a"]))
  {
    AloneBegan();
    var j, m := map["a" := NewRow(Active, {})], map["a" := NewEntry(Pending, {})];
    assert Alone({}, map[], Active, Idle, [], []) == At(map[], j, m, ["a"], Idle, [], []);
    SentAndRefused(map[], j, m, ["a"], [], [], "a");
    var none: map<nat, Verdict> := map[];
    assert none[0 := Refused] == map[0 := Refused] && [] + ["a"] == ["a"];
    var s := At(map[0 := Refused], j, m, ["a"], Waiting("a", 0), ["a"], []);
    var t := At(map[0 := Refused], map["a" := NewRow(Conflict, {})], m, ["a"], Idle, ["a"], ["a"]);
    NoDependents(j, "a");
    assert WithState(WithState(j, {}, Rejected), {"a"}, Conflict) == t.journal && s.reversals + ["a"] == t.reversals;
    assert Rejects(s, "a", Conflict, ["a"], t);
    ReachNext(s, Reject("a", Conflict, ["a"]), t);
  }

  /** The second is sent and refused. */
  lemma SecondRefused()
    ensures Reachable(At(map[0 := Refused, 1 := Refused], Rows(Active), Mirrors(Closed, Pending), ["a", "b"],
                         Waiting("b", 1), ["a", "b"], ["a"]))
  {
    FirstRetired();
    var j, m := map["a" := NewRow(Conflict, {})], map["a" := NewEntry(Closed, {})];
    Began(map[0 := Refused], j, m, ["a"], ["a"], ["a"], "b", {});
    assert j["b" := NewRow(Active, {})] == Rows(Active) && m["b" := NewEntry(Pending, {})] == Mirrors(Closed, Pending);
    assert ["a"] + ["b"] == ["a", "b"];
    SentAndRefused(map[0 := Refused], Rows(Active), Mirrors(Closed, Pending), ["a", "b"], ["a"], ["a"], "b");
    assert map[0 := Refused][1 := Refused] == map[0 := Refused, 1 := Refused];
  }

  /** Its rollback fails while the journal cannot be read, and a third command is begun on the conflict. */
  lemma ReservedOnRetiredConflict() returns (s: System, t: System)
    ensures Reachable(s) && Next(s, Reserve("c", {"a"}, None), t)
    ensures In(s.journal, "a", Conflict) && s.mirror["a"].status == Quarantined("b") && "a" in s.reversals
  {
    SecondRefused();
    var r := At(map[0 := Refused, 1 := Refused], Rows(Active), Mirrors(Closed, Pending), ["a", "b"],
                Waiting("b", 1), ["a", "b"], ["a"]);
    s := r.(mirror := Mirrors(Quarantined("b"), Quarantined("b")), flight := Idle);
    assert WithStatus(r.mirror, r.mirror.Keys, Quarantined("b")) == s.mirror;
    assert WithState(r.journal, {}, RollbackPending) == r.journal;
    var step := RollbackFail("b", r.mirror.Keys, {});
    assert Next(r, step, s);
    ReachNext(r, step, s);
    t := QuarantineOpensConflict(r, step, s, "a", "c");
  }
}
