/**
 The client and its server, driven by any sequence of events: whatever happens, the object goes
 through a run of the optimistic cache, so what is proved of every run holds of its stores.
 */
module ClientRuns {
  import opened Wrappers
  import opened WorkspaceDelta
  import opened Interactions
  import opened InteractionOrder
  import opened RowChain
  import opened JournalViews
  import opened OptimisticCache
  import opened RecoveryPlan
  import opened InstantClient

  datatype Event =
    | Click(commandId: string, createdAt: string, changes: seq<EntityChange>, kind: string, mirror: seq<Reservation>)
    | ServerWrite(w: Workspace)
    | Receipt(commandId: string, revision: nat)
    | Acknowledgement(commandId: string, revision: nat)
    | Refusal(commandId: string)
    | LocalEdit(key: EntityKey, row: Option<Row>)
    | Cleared
    | RecoveryStarts
    | RecoveryEnds(revision: nat, receipts: map<string, Reply>, unvouched: set<string>)
    | Compaction

  function WithId(records: seq<Interaction>, id: string): (r: Option<Interaction>)
    ensures r.Some? ==> r.value in records && r.value.commandId == id
  {
    if records == [] then None
    else if records[0].commandId == id then Some(records[0])
    else WithId(records[1..], id)
  }

  /** The object took this step, or nothing happened. */
  ghost predicate Took(s: Cache, step: Option<Step>, t: Cache) {
    if step.Some? then Next(s, step.value, t) else t == s
  }

  lemma ReceiptTaken(s: Cache, r: Interaction, accepted: seq<EntityChange>, revision: nat, ok: bool, t: Cache)
    returns (step: Option<Step>)
    requires if ok then AcknowledgesReceipt(s, r, accepted, revision, t)
             else Holds(s, {r.commandId}, ProjectionPending, t)
    ensures Took(s, step, t) && t.history == s.history
  {
    if ok {
      var priors, later, settled :| Acknowledges(s, r, priors, later, accepted, settled, revision, t);
      step := Some(AcknowledgeStep(r, priors, later, accepted, settled, revision));
    } else {
      step := Some(HoldStep({r.commandId}, ProjectionPending));
    }
  }

  lemma RejectionTaken(s: Cache, root: Interaction, order: seq<Interaction>, t: Cache)
    requires Rejects(s, root, order, t)
    ensures Next(s, RejectStep(root, order), t) && t.history == s.history
  {}

  lemma UnfinishedTaken(s: Cache, root: Interaction, order: Option<seq<Interaction>>, t: Cache)
    returns (step: Option<Step>)
    requires if order.Some? then Holds(s, Ids([root] + order.value), RollbackPending, t) else t == s
    ensures Took(s, step, t) && t.history == s.history
  {
    step := if order.Some? then Some(HoldStep(Ids([root] + order.value), RollbackPending)) else None;
  }

  lemma {:induction false} ReplayKeepsHistory(s: Cache, kept: seq<Interaction>, t: Cache)
    requires Replays(s, kept, t)
    ensures t.history == s.history
    decreases |kept|
  {
    if kept != [] {
      var mid := ReplaySplit(s, kept, t);
      ReplayKeepsHistory(s, kept[..|kept| - 1], mid);
    }
  }

  lemma InstallKeepsHistory(s: Cache, revision: nat, receipts: map<string, nat>, confirmed: seq<Interaction>,
                            kept: seq<Interaction>, t: Cache)
    requires Installs(s, revision, receipts, confirmed, kept, t)
    ensures t.history == s.history
  {
    var mid :| Resets(s, revision, confirmed, mid) && Replays(mid, kept, t);
    ReplayKeepsHistory(mid, kept, t);
  }

  lemma NoCycle(pending: seq<Interaction>, r: Interaction)
    requires UniqueIds(pending) && r.commandId !in Ids(pending) && Ordered(pending + [r]).Some?
    ensures Acyclic(pending + [r])
  {
    UniqueLast(pending, r);
    OrderSpecification(pending + [r]);
  }

  /** A click, if it is possible under this identity. */
  method OnClick(c: Client, id: string, createdAt: string, changes: seq<EntityChange>, kind: string,
                 mirror: seq<Reservation>)
    returns (ghost step: Option<Step>)
    requires c.Valid()
    modifies c
    ensures c.Valid() && Took(old(c.state), step, c.state) && c.state.history == old(c.state.history)
  {
    step := None;
    var r := Clicked(id, createdAt, changes, kind, mirror, c.pending);
    if UniqueKeys(changes) && id !in Mirrored(mirror, changes) + Ids(c.pending) + Ids(c.log)
      && Ordered(c.pending + [r]).Some? {
      NoCycle(c.pending, r);
      var ok, taken := c.Begin(id, createdAt, changes, kind, mirror);
      step := if ok then Some(BeginStep(taken)) else None;
    }
  }

  /** A receipt of a pending command. */
  method OnReceipt(c: Client, server: seq<Workspace>, id: string, revision: nat) returns (ghost step: Option<Step>)
    requires c.Valid() && c.state.history == server
    modifies c
    ensures c.Valid() && Took(old(c.state), step, c.state) && c.state.history == server
  {
    step := None;
    var r := WithId(c.pending, id);
    if r.Some? && revision + 1 < |server| {
      var d := DiffWorkspaceDelta(server[revision], server[revision + 1], revision);
      ghost var s := c.state;
      var ok := c.Acknowledge(r.value, d.changes, revision);
      step := ReceiptTaken(s, r.value, d.changes, revision, ok, c.state);
    }
  }

  method OnAcknowledgement(c: Client, id: string, revision: nat) returns (ghost step: Option<Step>)
    requires c.Valid()
    modifies c
    ensures c.Valid() && Took(old(c.state), step, c.state) && c.state.history == old(c.state.history)
  {
    step := None;
    var r := WithId(c.pending, id);
    if r.Some? && r.value.changes == [] {
      var ok := c.ConfirmEmpty(r.value, Some(revision));
      step := if ok then Some(ConfirmEmptyStep(r.value)) else None;
    }
  }

  method OnRefusal(c: Client, id: string) returns (ghost step: Option<Step>)
    requires c.Valid()
    modifies c
    ensures c.Valid() && Took(old(c.state), step, c.state) && c.state.history == old(c.state.history)
  {
    step := None;
    var root := WithId(c.pending, id);
    if root.Some? {
      ghost var s := c.state;
      var ok := c.Reject(root.value);
      if ok {
        ghost var order :| Rejects(s, root.value, order, c.state);
        RejectionTaken(s, root.value, order, c.state);
        step := Some(RejectStep(root.value, order));
      } else {
        ghost var order :| OrderedDependents(s.pending, root.value.commandId, order)
          && if order.Some? then Holds(s, Ids([root.value] + order.value), RollbackPending, c.state) else c.state == s;
        step := UnfinishedTaken(s, root.value, order, c.state);
      }
    }
  }

  lemma RecoveryTaken(s: Cache, revision: nat, receipts: map<string, nat>, plan: Plan, t: Cache)
    returns (step: Option<Step>)
    requires Installs(s, revision, receipts, plan.confirmed, plan.kept, t)
    ensures Took(s, step, t) && t.history == s.history
  {
    InstallKeepsHistory(s, revision, receipts, plan.confirmed, plan.kept, t);
    step := Some(InstallStep(revision, receipts, plan.confirmed, plan.kept));
  }

  method OnRecovery(c: Client, server: seq<Workspace>, revision: nat, receipts: map<string, Reply>,
                    unvouched: set<string>)
    returns (ghost step: Option<Step>)
    requires c.Valid() && c.state.history == server
    modifies c
    ensures c.Valid() && Took(old(c.state), step, c.state) && c.state.history == server
  {
    step := None;
    if revision < |server| && forall id | id in receipts :: UniqueKeys(receipts[id].changes) {
      ghost var s := c.state;
      var ok := c.Recover(server[revision], revision, receipts, unvouched);
      if ok {
        ghost var plan := PlanOf(s.pending, s.log, receipts, unvouched).value;
        step := RecoveryTaken(s, revision, Revisions(receipts), plan, c.state);
      }
    }
  }

  /** One event, as far as it is possible. */
  method Handle(c: Client, server: seq<Workspace>, e: Event) returns (server': seq<Workspace>, ghost step: Option<Step>)
    requires c.Valid() && c.state.history == server
    modifies c
    ensures c.Valid() && Took(old(c.state), step, c.state) && c.state.history == server'
  {
    server', step := server, None;
    match e
    case Click(id, createdAt, changes, kind, mirror) =>
      step := OnClick(c, id, createdAt, changes, kind, mirror);
    case ServerWrite(w) =>
      c.ServerCommits(w);
      server', step := server + [w], Some(CommitStep(w));
    case Receipt(id, revision) => step := OnReceipt(c, server, id, revision);
    case Acknowledgement(id, revision) => step := OnAcknowledgement(c, id, revision);
    case Refusal(id) => step := OnRefusal(c, id);
    case LocalEdit(key, row) =>
      c.Edit(key, row);
      step := Some(EditStep(key, row));
    case Cleared =>
      c.Clear();
      step := Some(ClearStep);
    case RecoveryStarts =>
      var ok := c.StartRecovery();
      step := if ok then Some(SampleStep) else None;
    case RecoveryEnds(revision, receipts, unvouched) =>
      step := OnRecovery(c, server, revision, receipts, unvouched);
    case Compaction =>
      var ok := c.Compact();
      step := if ok then Some(CompactStep) else None;
  }

  /** Any events after the first read of an account: the stores always show the last state of a run of
      the optimistic cache over the server's history, and so every undisturbed row of them is the last
      incorporated authoritative row under the pending changes. */
  method Drive(snapshot: Workspace, events: seq<Event>)
    returns (c: Client, server: seq<Workspace>, ghost states: seq<Cache>, ghost steps: seq<Step>)
    ensures fresh(c) && c.Valid() && c.state.history == server
    ensures Run(states, steps) && states[|steps|] == c.state && states[0].rows == snapshot && |steps| <= |events|
    ensures forall e | e !in c.state.disturbed ::
              Lookup(c.rows, e) == Fold(Lookup(c.state.base, e), ChangesOf(On(c.pending, e), e))
  {
    c := new Client(snapshot, 0, []);
    server, states, steps := [snapshot], [c.state], [];
    for n := 0 to |events|
      invariant fresh(c) && c.Valid() && c.state.history == server
      invariant Run(states, steps) && states[|steps|] == c.state && states[0].rows == snapshot && |steps| <= n
    {
      ghost var step;
      server, step := Handle(c, server, events[n]);
      if step.Some? {
        RunLonger(states, steps, step.value, c.state);
        states, steps := states + [c.state], steps + [step.value];
      }
    }
    forall e | e !in c.state.disturbed
      ensures Lookup(c.rows, e) == Fold(Lookup(c.state.base, e), ChangesOf(On(c.pending, e), e))
    {
      CacheIsBaseUnderPending(states, steps, |steps|, e);
    }
  }

  lemma RunLonger(states: seq<Cache>, steps: seq<Step>, step: Step, t: Cache)
    requires Run(states, steps) && Next(states[|steps|], step, t)
    ensures Run(states + [t], steps + [step])
  {
    var states', steps' := states + [t], steps + [step];
    forall i | 0 <= i < |steps'| ensures Next(states'[i], steps'[i], states'[i + 1]) {
      if i < |steps| {
        assert Next(states[i], steps[i], states[i + 1]);
      }
    }
  }
}
