/**
 The authoritative workspace: a command or an Undo reads the current snapshot, is admitted against
 the receipts written since its base, is evaluated, and commits by compare-and-swap on the revision
 it read. Other writers may commit between the read and the swap.
 */
module Authority {
  import opened Wrappers
  import opened WorkspaceDelta

  /** The field scopes of a command on an object; "*" stands for the whole object. */
  type Scope = (EntityKey, string)

  /** A ledger row. `affected` is absent on rows written before object receipts existed. */
  datatype Record = Record(
    commandId: string,
    payload: string,
    resulting: nat,
    changes: seq<EntityChange>,
    affected: Option<set<EntityKey>>,
    scopes: Option<set<Scope>>,
    inverse: Option<seq<EntityChange>>)

  /** What evaluating a command on a snapshot decides. */
  datatype Evaluation =
    | Throws
    | NeedsConfirmation
    | Current
    | Nothing
    | Writes(next: Workspace, inverse: Option<seq<EntityChange>>)

  datatype Command = Command(
    commandId: string,
    payload: string,
    base: nat,
    current: Workspace -> bool,
    objects: Workspace -> set<EntityKey>,
    fields: Workspace -> set<Scope>,
    evaluate: Workspace -> Evaluation)

  /** A write by somebody else, committed in one go. */
  datatype Other = Other(commandId: string, payload: string, write: Workspace -> Workspace, legacy: bool)

  datatype Reply =
    | Committed(revision: nat)
    | AlreadyApplied(receipt: Option<Record>)
    | Conflict
    | NoWrite
    | Invalid
    | Reused
    | Failed
    | Contention

  const ATTEMPTS := 5

  // ---------------------------------------------------------------------------------------
  // Admission of stale commands
  // ---------------------------------------------------------------------------------------

  /** The first path lies below the second: it is the second, a dot and more. */
  ghost predicate Dotted(a: string, b: string) {
    exists rest: string :: a == b + "." + rest
  }

  /** Two field paths reach each other: one is the whole object, or they are the same, or one lies below the
      other. */
  ghost predicate Meet(a: string, b: string) {
    a == "*" || b == "*" || a == b || Dotted(a, b) || Dotted(b, a)
  }

  /** The recorded write left alone what the command is about: it has object records, and on every object of
      both each side named fields, none of which reach each other. */
  ghost predicate Independent(objects: set<EntityKey>, fields: set<Scope>, r: Record) {
    && r.affected.Some?
    && forall key | key in objects && key in r.affected.value ::
         && (exists a :: (key, a) in fields)
         && r.scopes.Some? && (exists b :: (key, b) in r.scopes.value)
         && forall a, b | (key, a) in fields && (key, b) in r.scopes.value :: !Meet(a, b)
  }

  /** Everything recorded since the base left alone what the command is about. */
  ghost predicate Free(objects: set<EntityKey>, fields: set<Scope>, ledger: seq<Record>, base: nat) {
    forall r | r in ledger && r.resulting > base :: Independent(objects, fields, r)
  }

  predicate Under(field: string, prefix: string) {
    |prefix| < |field| && field[..|prefix|] == prefix && field[|prefix|] == '.'
  }

  predicate FieldsClash(a: string, b: string) {
    a == "*" || b == "*" || a == b || Under(a, b) || Under(b, a)
  }

  function ScopesOn(scopes: set<Scope>, key: EntityKey): set<string> {
    set s | s in scopes && s.0 == key :: s.1
  }

  /** Whether a write recorded since the command's base may have touched what the command is about. */
  predicate Clashes(objects: set<EntityKey>, fields: set<Scope>, record: Record) {
    record.affected.None?
    || exists key | key in objects * record.affected.value :: ClashesOn(fields, record, key)
  }

  predicate ClashesOn(fields: set<Scope>, record: Record, key: EntityKey) {
    var requested := ScopesOn(fields, key);
    var changed := if record.scopes.Some? then ScopesOn(record.scopes.value, key) else {};
    requested == {} || changed == {} || exists a, b | a in requested && b in changed :: FieldsClash(a, b)
  }

  lemma UnderIsDotted(a: string, b: string)
    ensures Under(a, b) <==> Dotted(a, b)
  {
    if Under(a, b) {
      assert a == b + "." + a[|b| + 1..];
    }
    if Dotted(a, b) {
      var rest: string :| a == b + "." + rest;
      assert a[..|b|] == b;
    }
  }

  lemma ClashIsMeeting(a: string, b: string)
    ensures FieldsClash(a, b) <==> Meet(a, b)
  {
    UnderIsDotted(a, b);
    UnderIsDotted(b, a);
  }

  lemma ClashesOnExactly(fields: set<Scope>, r: Record, key: EntityKey)
    ensures !ClashesOn(fields, r, key) <==>
              && (exists a :: (key, a) in fields)
              && r.scopes.Some? && (exists b :: (key, b) in r.scopes.value)
              && forall a, b | (key, a) in fields && (key, b) in r.scopes.value :: !Meet(a, b)
  {
    forall a ensures a in ScopesOn(fields, key) <==> (key, a) in fields {}
    forall a, b ensures FieldsClash(a, b) <==> Meet(a, b) {
      ClashIsMeeting(a, b);
    }
    if r.scopes.Some? {
      forall b ensures b in ScopesOn(r.scopes.value, key) <==> (key, b) in r.scopes.value {}
    }
  }

  /** The test of the pass is exact. */
  lemma ClashesExactly(objects: set<EntityKey>, fields: set<Scope>, r: Record)
    ensures Clashes(objects, fields, r) <==> !Independent(objects, fields, r)
  {
    if r.affected.Some? {
      if Clashes(objects, fields, r) {
        var key :| key in objects * r.affected.value && ClashesOn(fields, r, key);
        ClashesOnExactly(fields, r, key);
      } else {
        forall key | key in objects && key in r.affected.value ensures !ClashesOn(fields, r, key) {
          assert key in objects * r.affected.value;
        }
        forall key | key in objects && key in r.affected.value
          ensures (exists a :: (key, a) in fields) && r.scopes.Some? && (exists b :: (key, b) in r.scopes.value)
                  && forall a, b | (key, a) in fields && (key, b) in r.scopes.value :: !Meet(a, b)
        {
          ClashesOnExactly(fields, r, key);
        }
      }
    }
  }

  /** The pass over the intervening receipts, which stops at the first opaque one. */
  method Intervening(objects: set<EntityKey>, fields: set<Scope>, records: seq<Record>)
    returns (conflict: bool, blamed: set<string>)
    ensures conflict <==> exists r | r in records :: !Independent(objects, fields, r)
    ensures forall id | id in blamed :: exists r | r in records :: r.commandId == id && !Independent(objects, fields, r)
  {
    conflict, blamed := false, {};
    for n := 0 to |records|
      invariant conflict <==> exists r | r in records[..n] :: !Independent(objects, fields, r)
      invariant forall id | id in blamed ::
                  exists r | r in records :: r.commandId == id && !Independent(objects, fields, r)
    {
      assert records[..n + 1] == records[..n] + [records[n]];
      ClashesExactly(objects, fields, records[n]);
      if records[n].affected.None? {
        assert records[n] in records;
        return true, {records[n].commandId};
      }
      if Clashes(objects, fields, records[n]) {
        conflict, blamed := true, blamed + {records[n].commandId};
      }
    }
    assert records[..|records|] == records;
  }

  // ---------------------------------------------------------------------------------------
  // The ledger
  // ---------------------------------------------------------------------------------------

  function KeysOf(cs: seq<EntityChange>): set<EntityKey> {
    set c | c in cs :: c.key
  }

  /** The scopes a receipt keeps: what the command asked for on the objects it changed, the whole
      object where it had not asked. */
  function ConflictScopes(affected: set<EntityKey>, fields: set<Scope>): set<Scope> {
    (set s | s in fields && s.0 in affected) + (set key | key in affected && ScopesOn(fields, key) == {} :: (key, "*"))
  }

  ghost predicate UniqueCommands(ledger: seq<Record>) {
    forall i, j | 0 <= i < j < |ledger| :: ledger[i].commandId != ledger[j].commandId
  }

  /** Each row is the difference between the snapshots before and after it. */
  ghost predicate RowValid(origin: nat, states: seq<Workspace>, ledger: seq<Record>, i: nat)
    requires i < |ledger| && |states| == |ledger| + 1
  {
    var r := ledger[i];
    && r.resulting == origin + i + 1
    && IsDiff(states[i], states[i + 1], r.changes)
    && (r.affected.Some? ==> r.affected.value == KeysOf(r.changes))
  }

  ghost predicate LedgerValid(origin: nat, states: seq<Workspace>, ledger: seq<Record>) {
    && |states| == |ledger| + 1
    && UniqueCommands(ledger)
    && forall i | 0 <= i < |ledger| :: RowValid(origin, states, ledger, i)
  }

  function Find(ledger: seq<Record>, id: string): (r: Option<Record>)
    ensures r.Some? ==> r.value in ledger && r.value.commandId == id
    ensures r.None? ==> forall x | x in ledger :: x.commandId != id
  {
    if ledger == [] then None
    else if ledger[|ledger| - 1].commandId == id then Some(ledger[|ledger| - 1])
    else Find(ledger[..|ledger| - 1], id)
  }

  /** The rows with a resulting revision above the given one. */
  function After(ledger: seq<Record>, revision: nat): seq<Record> {
    if ledger == [] then []
    else After(ledger[..|ledger| - 1], revision)
         + if ledger[|ledger| - 1].resulting > revision then [ledger[|ledger| - 1]] else []
  }

  lemma AfterMembers(ledger: seq<Record>, revision: nat)
    ensures forall r :: r in After(ledger, revision) <==> r in ledger && r.resulting > revision
  {
    if ledger != [] {
      AfterMembers(ledger[..|ledger| - 1], revision);
      assert ledger == ledger[..|ledger| - 1] + [ledger[|ledger| - 1]];
    }
  }

  ghost predicate ByOthers(others: seq<Other>, rows: seq<Record>) {
    forall r | r in rows :: exists o | o in others :: o.commandId == r.commandId && o.payload == r.payload
  }

  lemma OneMoreByOthers(others: seq<Other>, o: Other, first: seq<Record>, rows: seq<Record>, more: seq<Record>)
    requires |first| <= |rows| && ByOthers(others, rows[|first|..]) && o in others
    requires more == rows || exists r :: more == rows + [r] && r.commandId == o.commandId && r.payload == o.payload
    ensures ByOthers(others, more[|first|..])
  {
    if more != rows {
      var r :| more == rows + [r] && r.commandId == o.commandId && r.payload == o.payload;
      assert more[|first|..] == rows[|first|..] + [r];
    }
  }

  lemma RowAppended(origin: nat, states: seq<Workspace>, ledger: seq<Record>, next: Workspace, r: Record)
    requires LedgerValid(origin, states, ledger) && Find(ledger, r.commandId).None?
    requires r.resulting == origin + |ledger| + 1 && IsDiff(states[|ledger|], next, r.changes)
    requires r.affected.Some? ==> r.affected.value == KeysOf(r.changes)
    ensures LedgerValid(origin, states + [next], ledger + [r])
  {
    var states', ledger' := states + [next], ledger + [r];
    forall i | 0 <= i < |ledger'| ensures RowValid(origin, states', ledger', i) {
      if i < |ledger| {
        assert RowValid(origin, states, ledger, i);
      }
    }
    forall i, j | 0 <= i < j < |ledger'| ensures ledger'[i].commandId != ledger'[j].commandId {
      if j == |ledger| {
        assert ledger[i] in ledger;
      }
    }
  }

  // ---------------------------------------------------------------------------------------
  // What a committed row stands for
  // ---------------------------------------------------------------------------------------

  /** Row i was written by the command: it was admitted against every receipt since its base and
      evaluated on exactly the snapshot that it replaced. */
  ghost predicate WrittenBy(c: Command, origin: nat, states: seq<Workspace>, ledger: seq<Record>, i: nat)
    requires i < |ledger| && |states| == |ledger| + 1
  {
    var r, w := ledger[i], states[i];
    && r.commandId == c.commandId && r.payload == c.payload
    && c.evaluate(w) == Writes(states[i + 1], r.inverse) && !c.current(w)
    && c.base <= origin + i
    && Free(c.objects(w), c.fields(w), ledger[..i], c.base)
    && r.affected.Some? && r.scopes == Some(ConflictScopes(r.affected.value, c.fields(w)))
  }

  /** Something recorded after the target may depend on it: any row at all if the target has no object
      records, and else one without them or with an object in common. */
  ghost predicate BuiltUpon(ledger: seq<Record>, target: Record) {
    exists r | r in ledger && r.resulting > target.resulting ::
      target.affected.None? || r.affected.None?
      || exists key :: key in r.affected.value && key in target.affected.value
  }

  /** Why an Undo of the target is refused on a ledger. */
  predicate Blocked(ledger: seq<Record>, target: Record) {
    var later := After(ledger, target.resulting);
    if target.affected.None? then later != []
    else exists r | r in later :: r.affected.None? || r.affected.value * target.affected.value != {}
  }

  lemma BlockedExactly(ledger: seq<Record>, target: Record)
    ensures Blocked(ledger, target) <==> BuiltUpon(ledger, target)
  {
    AfterMembers(ledger, target.resulting);
    var later := After(ledger, target.resulting);
    if later != [] {
      assert later[0] in later;
    }
    forall r: Record | r.affected.Some? && target.affected.Some?
      ensures r.affected.value * target.affected.value != {}
              <==> exists key :: key in r.affected.value && key in target.affected.value
    {
      if key :| key in r.affected.value && key in target.affected.value {
        assert key in r.affected.value * target.affected.value;
      }
    }
  }

  /** Row i undid the target. */
  ghost predicate Undid(targetId: string, states: seq<Workspace>, ledger: seq<Record>, i: nat)
    requires i < |ledger| && |states| == |ledger| + 1
  {
    var target := Find(ledger[..i], targetId);
    && target.Some? && target.value.inverse.Some? && !BuiltUpon(ledger[..i], target.value)
    && ApplyChanges(states[i], target.value.inverse.value) == Some(states[i + 1])
    && ledger[i].affected.Some?
  }

  ghost predicate From(others: seq<seq<Other>>, rows: seq<Record>) {
    forall r | r in rows ::
        exists os, o | os in others && o in os :: o.commandId == r.commandId && o.payload == r.payload
  }

  /** Beside the request's own row only others' rows were added. */
  ghost predicate Meanwhile(others: seq<seq<Other>>, reply: Reply, before: nat, ledger: seq<Record>) {
    var end := if reply.Committed? then |ledger| - 1 else |ledger|;
    before <= end && From(others, ledger[before..end])
  }

  lemma MeanwhileAll(others: seq<seq<Other>>, reply: Reply, before: nat, ledger: seq<Record>)
    requires before <= |ledger| && !reply.Committed?
    ensures Meanwhile(others, reply, before, ledger) <==> From(others, ledger[before..])
  {
    assert ledger[before..|ledger|] == ledger[before..];
  }

  lemma MeanwhileLater(others: seq<seq<Other>>, reply: Reply, first: seq<Record>, rows: seq<Record>,
                       ledger: seq<Record>)
    requires |first| <= |rows| <= |ledger| && ledger[..|rows|] == rows
    requires From(others, rows[|first|..]) && Meanwhile(others, reply, |rows|, ledger)
    ensures Meanwhile(others, reply, |first|, ledger)
  {
    var end := if reply.Committed? then |ledger| - 1 else |ledger|;
    assert ledger[|first|..end] == rows[|first|..] + ledger[|rows|..end];
  }

  /** A command may write on this snapshot. */
  ghost predicate Admitted(c: Command, snapshot: Workspace, revision: nat, ledger: seq<Record>) {
    && c.base <= revision && !c.current(snapshot)
    && Free(c.objects(snapshot), c.fields(snapshot), ledger, c.base)
  }

  /** What each answer without a write says about the state it was given in. */
  ghost predicate Justified(c: Command, reply: Reply, snapshot: Workspace, revision: nat, ledger: seq<Record>) {
    match reply
    case AlreadyApplied(Some(receipt)) =>
      receipt in ledger && receipt.commandId == c.commandId && receipt.payload == c.payload
    case AlreadyApplied(None) => c.current(snapshot) || c.evaluate(snapshot) == Current
    case Conflict => c.evaluate(snapshot) == NeedsConfirmation
                     || !Free(c.objects(snapshot), c.fields(snapshot), ledger, c.base)
    case NoWrite => c.evaluate(snapshot) == Nothing
    case Failed => c.evaluate(snapshot) == Throws
    case Invalid => revision < c.base
    case Reused => exists r | r in ledger :: r.commandId == c.commandId && r.payload != c.payload
    case _ => false
  }

  /** The target is unknown, cannot be compensated, or has been built upon. */
  ghost predicate Refused(ledger: seq<Record>, targetId: string) {
    var target := Find(ledger, targetId);
    target.None? || target.value.inverse.None? || BuiltUpon(ledger, target.value)
  }

  lemma FoundOnce(ledger: seq<Record>, t: Record)
    requires UniqueCommands(ledger) && t in ledger
    ensures Find(ledger, t.commandId) == Some(t)
  {
    var found := Find(ledger, t.commandId);
    var i :| 0 <= i < |ledger| && ledger[i] == t;
    var j :| 0 <= j < |ledger| && ledger[j] == found.value;
  }

  datatype UndoRequest = UndoRequest(commandId: string, payload: string, targetId: string)

  ghost predicate UndoJustified(u: UndoRequest, reply: Reply, snapshot: Workspace, ledger: seq<Record>) {
    match reply
    case AlreadyApplied(Some(receipt)) =>
      receipt in ledger && receipt.commandId == u.commandId && receipt.payload == u.payload
    case Conflict => Refused(ledger, u.targetId)
    case Failed =>
      !Refused(ledger, u.targetId) && ApplyChanges(snapshot, Find(ledger, u.targetId).value.inverse.value).None?
    case Reused => exists r | r in ledger :: r.commandId == u.commandId && r.payload != u.payload
    case _ => false
  }

  /** The whole outcome of one request, from the ledger it met to the ledger it left: at most its own
      row is added beside what others wrote meanwhile, and a known identity adds nothing at all. */
  ghost predicate Ran(c: Command, others: seq<seq<Other>>, reply: Reply, origin: nat,
                      before: seq<Record>, ledger: seq<Record>, states: seq<Workspace>)
    requires |before| <= |ledger| && |states| == |ledger| + 1
  {
    && (if reply.Committed?
        then && Find(before, c.commandId).None? && |before| < |ledger| && reply.revision == origin + |ledger|
             && WrittenBy(c, origin, states, ledger, |ledger| - 1)
        else (if reply == Contention then Find(before, c.commandId).None? && |before| + 5 <= |ledger|
                 else Justified(c, reply, states[|ledger|], origin + |ledger|, ledger)))
    && Meanwhile(others, reply, |before|, ledger)
    && var known := Find(before, c.commandId);
       known.Some? ==> ledger == before && reply == if known.value.payload == c.payload then AlreadyApplied(known)
         else Reused
  }

  lemma RanLater(c: Command, others: seq<seq<Other>>, reply: Reply, origin: nat,
                 first: seq<Record>, rows: seq<Record>, ledger: seq<Record>, states: seq<Workspace>)
    requires |first| <= |rows| <= |ledger| && |states| == |ledger| + 1 && reply != Contention
    requires rows[..|first|] == first && ledger[..|rows|] == rows && From(others, rows[|first|..])
    requires Find(first, c.commandId).None? || rows == first
    requires Ran(c, others, reply, origin, rows, ledger, states)
    ensures Ran(c, others, reply, origin, first, ledger, states)
  {
    MeanwhileLater(others, reply, first, rows, ledger);
  }

  /** The answer to a repeated Undo, or to one that is refused. */
  function UndoAnswer(u: UndoRequest, ledger: seq<Record>): Reply {
    match Find(ledger, u.commandId)
    case Some(known) => if known.payload == u.payload then AlreadyApplied(Some(known)) else Reused
    case None => Conflict
  }

  /** The same for an Undo. A target that is unknown, cannot be compensated or has been built upon is
      refused and nothing is written. */
  ghost predicate UndoRan(u: UndoRequest, others: seq<seq<Other>>, reply: Reply,
                          before: seq<Record>, ledger: seq<Record>, states: seq<Workspace>)
    requires |before| <= |ledger| && |states| == |ledger| + 1
  {
    && (if reply.Committed?
        then && |before| < |ledger| && Undid(u.targetId, states, ledger, |ledger| - 1)
             && ledger[|ledger| - 1].commandId == u.commandId && ledger[|ledger| - 1].payload == u.payload
        else (if reply == Contention then |before| + 5 <= |ledger|
                 else UndoJustified(u, reply, states[|ledger|], ledger)))
    && Meanwhile(others, reply, |before|, ledger)
    && (Find(before, u.commandId).Some? || Refused(before, u.targetId) ==>
          ledger == before && reply == UndoAnswer(u, before))
  }

  lemma UndoRanLater(u: UndoRequest, others: seq<seq<Other>>, reply: Reply,
                     first: seq<Record>, rows: seq<Record>, ledger: seq<Record>, states: seq<Workspace>)
    requires |first| <= |rows| <= |ledger| && |states| == |ledger| + 1 && reply != Contention
    requires rows[..|first|] == first && ledger[..|rows|] == rows && From(others, rows[|first|..])
    requires (Find(first, u.commandId).None? && !Refused(first, u.targetId)) || rows == first
    requires UndoRan(u, others, reply, rows, ledger, states)
    ensures UndoRan(u, others, reply, first, ledger, states)
  {
    MeanwhileLater(others, reply, first, rows, ledger);
  }

  lemma UndoRow(u: UndoRequest, others: seq<seq<Other>>, revision: nat, before: seq<Record>, row: Record,
                states: seq<Workspace>, next: Workspace)
    requires |states| == |before| + 1 && Find(before, u.commandId).None? && !Refused(before, u.targetId)
    requires ApplyChanges(states[|before|], Find(before, u.targetId).value.inverse.value) == Some(next)
    requires row.commandId == u.commandId && row.payload == u.payload && row.affected.Some?
    ensures UndoRan(u, others, Committed(revision), before, before + [row], states + [next])
  {
    assert (before + [row])[..|before|] == before;
    assert (before + [row])[|before|..|before|] == [];
  }

  /** An Undo that is answered at once leaves the ledger alone. */
  lemma UndoAnswered(u: UndoRequest, others: seq<seq<Other>>, reply: Reply, ledger: seq<Record>, states: seq<Workspace>)
    requires |states| == |ledger| + 1 && reply != Contention && !reply.Committed?
    requires UndoJustified(u, reply, states[|ledger|], ledger)
    requires Find(ledger, u.commandId).Some? || Refused(ledger, u.targetId) ==> reply == UndoAnswer(u, ledger)
    ensures UndoRan(u, others, reply, ledger, ledger, states)
  {
    assert ledger[|ledger|..] == [];
  }

  /** Somebody else used the identity while the attempt was being evaluated. */
  lemma UndoTaken(u: UndoRequest, others: seq<seq<Other>>, taken: Record, before: seq<Record>, ledger: seq<Record>,
                  states: seq<Workspace>)
    requires |before| <= |ledger| && |states| == |ledger| + 1 && From(others, ledger[|before|..])
    requires Find(before, u.commandId).None? && !Refused(before, u.targetId)
    requires taken in ledger && taken.commandId == u.commandId
    ensures UndoRan(u, others, if taken.payload == u.payload then AlreadyApplied(Some(taken))
                    else Reused, before, ledger, states)
  {
    MeanwhileAll(others, Reused, |before|, ledger);
  }

  /** What the end of an attempt makes of the Undo. */
  lemma UndoSettled(u: UndoRequest, others: seq<seq<Other>>, s: Swap, row: Record, revision: nat, before: seq<Record>,
                    ledger: seq<Record>, earlier: seq<Workspace>, states: seq<Workspace>, next: Workspace)
    requires |earlier| == |before| + 1 && |before| <= |ledger| && |states| == |ledger| + 1
    requires Find(before, u.commandId).None? && !Refused(before, u.targetId)
    requires ApplyChanges(earlier[|before|], Find(before, u.targetId).value.inverse.value) == Some(next)
    requires row.commandId == u.commandId && row.payload == u.payload && row.affected.Some?
    requires s.Swapped? ==> ledger == before + [row] && states == earlier + [next]
    requires !s.Swapped? ==> From(others, ledger[|before|..])
    requires s.Known? ==> s.receipt in ledger && s.receipt.commandId == u.commandId && s.receipt.payload == u.payload
    requires s.Mismatch? ==>
               exists taken | taken in ledger :: taken.commandId == u.commandId && taken.payload != u.payload
    ensures s.Swapped? ==> UndoRan(u, others, Committed(revision), before, ledger, states)
    ensures s.Known? ==> UndoRan(u, others, AlreadyApplied(Some(s.receipt)), before, ledger, states)
    ensures s.Mismatch? ==> UndoRan(u, others, Reused, before, ledger, states)
  {
    match s
    case Known(receipt) => UndoTaken(u, others, receipt, before, ledger, states);
    case Mismatch =>
      var taken :| taken in ledger && taken.commandId == u.commandId && taken.payload != u.payload;
      UndoTaken(u, others, taken, before, ledger, states);
    case Swapped => UndoRow(u, others, revision, before, row, earlier, next);
    case Lost =>
  }

  /** Every attempt lost to another writer. */
  lemma UndoGivesUp(u: UndoRequest, others: seq<seq<Other>>, before: seq<Record>, ledger: seq<Record>,
                    states: seq<Workspace>)
    requires |before| + 5 <= |ledger| && |states| == |ledger| + 1 && From(others, ledger[|before|..])
    requires Find(before, u.commandId).None? && !Refused(before, u.targetId)
    ensures UndoRan(u, others, Contention, before, ledger, states)
  {
    MeanwhileAll(others, Contention, |before|, ledger);
  }

  datatype Decision = Answer(reply: Reply) | Write(next: Workspace, inverse: Option<seq<EntityChange>>)

  function Evaluated(e: Evaluation): Decision {
    match e
    case Throws => Answer(Failed)
    case NeedsConfirmation => Answer(Conflict)
    case Current => Answer(AlreadyApplied(None))
    case Nothing => Answer(NoWrite)
    case Writes(next, inverse) => Write(next, inverse)
  }

  /** What a request whose identity is new is answered on the state that it read. */
  ghost function Verdict(c: Command, snapshot: Workspace, revision: nat, ledger: seq<Record>): Decision {
    if c.base > revision then Answer(Invalid)
    else if c.current(snapshot) then Answer(AlreadyApplied(None))
    else if !Free(c.objects(snapshot), c.fields(snapshot), ledger, c.base) then Answer(Conflict)
    else Evaluated(c.evaluate(snapshot))
  }

  lemma NothingAfter(origin: nat, states: seq<Workspace>, ledger: seq<Record>, r: Record)
    requires LedgerValid(origin, states, ledger) && r in ledger
    ensures r.resulting <= origin + |ledger|
  {
    var i :| 0 <= i < |ledger| && ledger[i] == r;
    assert RowValid(origin, states, ledger, i);
  }

  /** A command prepared on an older revision is admitted exactly when every receipt since then has object
      records and, on each object that it shares with the command, both sides named fields, neither the whole
      object, and no field that the one named is the other's, below it or above it. It then gets the answer
      that evaluating it gives, and otherwise a conflict. */
  lemma StaleAdmission(c: Command, snapshot: Workspace, revision: nat, ledger: seq<Record>)
    requires c.base <= revision && !c.current(snapshot)
    ensures var objects, fields := c.objects(snapshot), c.fields(snapshot);
            Verdict(c, snapshot, revision, ledger) ==
            if forall r | r in ledger && r.resulting > c.base ::
                 r.affected.Some? && forall key | key in objects && key in r.affected.value ::
                   (exists a :: (key, a) in fields) && r.scopes.Some? && (exists b :: (key, b) in r.scopes.value)
                   && forall a, b | (key, a) in fields && (key, b) in r.scopes.value ::
                        a != "*" && b != "*" && a != b
                        && (forall rest: string :: a != b + "." + rest && b != a + "." + rest)
            then match c.evaluate(snapshot)
                 case Throws => Answer(Failed)
                 case NeedsConfirmation => Answer(Conflict)
                 case Current => Answer(AlreadyApplied(None))
                 case Nothing => Answer(NoWrite)
                 case Writes(next, inverse) => Write(next, inverse)
            else Answer(Conflict)
  {
    forall a, b ensures Meet(a, b) <==>
      !(a != "*" && b != "*" && a != b && (forall rest: string :: a != b + "." + rest && b != a + "." + rest)) {}
  }

  /** What an Undo whose identity is new is answered: nothing recorded after the target may depend on it. */
  ghost function UndoVerdict(targetId: string, snapshot: Workspace, ledger: seq<Record>): Decision {
    if Refused(ledger, targetId) then Answer(Conflict)
    else match ApplyChanges(snapshot, Find(ledger, targetId).value.inverse.value)
         case None => Answer(Failed)
         case Some(next) => Write(next, None)
  }

  /** Undo commutes with unrelated later work: if the target has a compensation, and every receipt after it
      has object records and no object in common with it, the compensation is applied to the snapshot as it
      is now, whatever revision the client last saw; and otherwise it is refused. */
  lemma UndoAdmission(snapshot: Workspace, ledger: seq<Record>, target: Record)
    requires UniqueCommands(ledger) && target in ledger && target.inverse.Some?
    ensures UndoVerdict(target.commandId, snapshot, ledger) ==
            if forall r | r in ledger && r.resulting > target.resulting ::
                 target.affected.Some? && r.affected.Some?
                 && forall key :: key !in r.affected.value || key !in target.affected.value
            then match ApplyChanges(snapshot, target.inverse.value)
                 case None => Answer(Failed)
                 case Some(next) => Write(next, None)
            else Answer(Conflict)
  {
    FoundOnce(ledger, target);
  }

  datatype Swap = Swapped | Known(receipt: Record) | Lost | Mismatch

  class Workspaces {
    var snapshot: Workspace
    var revision: nat
    var ledger: seq<Record>
    const origin: nat
    ghost var states: seq<Workspace>

    ghost predicate Valid()
      reads this
    {
      && LedgerValid(origin, states, ledger)
      && snapshot == states[|ledger|]
      && revision == origin + |ledger|
    }

    constructor (initial: Workspace, origin: nat)
      ensures Valid() && ledger == [] && snapshot == initial && revision == origin && this.origin == origin
      ensures states == [initial]
    {
      snapshot, revision, ledger, states := initial, origin, [], [initial];
      this.origin := origin;
    }

    /** Only new rows at the end, with the snapshots they lead to. */
    twostate predicate Grew()
      reads this
    {
      && Valid()
      && |old(ledger)| <= |ledger| && ledger[..|old(ledger)|] == old(ledger)
      && |old(states)| <= |states| && states[..|old(states)|] == old(states)
    }

    /** The locked transaction: a known identity answers from its receipt, a moved revision loses,
        and otherwise snapshot, revision and ledger row change together. */
    method CompareAndSwap(r: Record, expected: nat, next: Workspace) returns (s: Swap)
      requires Valid()
      requires expected == revision ==> IsDiff(snapshot, next, r.changes)
      requires r.affected.Some? ==> r.affected.value == KeysOf(r.changes)
      modifies this
      ensures Grew()
      ensures match s
              case Known(receipt) =>
                ledger == old(ledger) && Find(old(ledger), r.commandId) == Some(receipt) && receipt.payload == r.payload
              case Mismatch =>
                ledger == old(ledger) && Find(old(ledger), r.commandId).Some?
                  && Find(old(ledger), r.commandId).value.payload != r.payload
              case Lost => ledger == old(ledger) && Find(old(ledger), r.commandId).None? && old(revision) != expected
              case Swapped =>
                && Find(old(ledger), r.commandId).None? && old(revision) == expected
                && ledger == old(ledger) + [r.(resulting := old(revision) + 1)]
                && snapshot == next && revision == old(revision) + 1
    {
      var known := Find(ledger, r.commandId);
      if known.Some? {
        if known.value.payload != r.payload {
          return Mismatch;
        }
        return Known(known.value);
      }
      if revision != expected {
        return Lost;
      }
      var row := r.(resulting := revision + 1);
      RowAppended(origin, states, ledger, next, row);
      snapshot, revision, ledger, states := next, revision + 1, ledger + [row], states + [next];
      return Swapped;
    }

    /** One other writer's commit; if its identity is known it does nothing. */
    method OtherCommit(o: Other)
      requires Valid()
      modifies this
      ensures Grew()
      ensures ledger == old(ledger)
              || exists r :: ledger == old(ledger) + [r] && r.commandId == o.commandId && r.payload == o.payload
    {
      var next := o.write(snapshot);
      var d := DiffWorkspaceDelta(snapshot, next, revision);
      var affected := if o.legacy then None else Some(KeysOf(d.changes));
      var s := CompareAndSwap(Record(o.commandId, o.payload, 0, d.changes, affected, None, None), revision, next);
    }

    /** Other writers' commits, in order. */
    method OtherCommits(others: seq<Other>)
      requires Valid()
      modifies this
      ensures Grew() && ByOthers(others, ledger[|old(ledger)|..])
    {
      assert ledger[|old(ledger)|..] == [];
      for n := 0 to |others|
        invariant Grew() && ByOthers(others, ledger[|old(ledger)|..])
      {
        ghost var before := ledger;
        OtherCommit(others[n]);
        OneMoreByOthers(others, others[n], old(ledger), before, ledger);
      }
    }

    /** What other writers commit while an attempt is being evaluated. */
    method Interference(others: seq<seq<Other>>, attempt: nat)
      requires Valid()
      modifies this
      ensures Grew()
      ensures From(others, ledger[|old(ledger)|..])
      ensures revision == old(revision) || attempt >= |others| ==>
                ledger == old(ledger) && states == old(states) && snapshot == old(snapshot) && revision == old(revision)
    {
      if attempt < |others| {
        OtherCommits(others[attempt]);
        assert others[attempt] in others;
      }
    }

    /** The end of an attempt: others get in first, and the swap is against the revision read. */
    method SwapAfter(r: Record, next: Workspace, others: seq<seq<Other>>, attempt: nat) returns (s: Swap)
      requires Valid() && Find(ledger, r.commandId).None?
      requires IsDiff(snapshot, next, r.changes)
      requires r.affected.Some? ==> r.affected.value == KeysOf(r.changes)
      modifies this
      ensures Grew()
      ensures s.Swapped? ==>
                ledger == old(ledger) + [r.(resulting := old(revision) + 1)] && states == old(states) + [next]
      ensures !s.Swapped? ==> From(others, ledger[|old(ledger)|..])
      ensures attempt >= |others| ==> s.Swapped? && snapshot == next && revision == old(revision) + 1
      ensures s.Lost? ==> |old(ledger)| < |ledger|
      ensures s.Known? ==> s.receipt in ledger && s.receipt.commandId == r.commandId && s.receipt.payload == r.payload
      ensures s.Mismatch? ==>
                exists taken | taken in ledger :: taken.commandId == r.commandId && taken.payload != r.payload
    {
      var at := revision;
      Interference(others, attempt);
      s := CompareAndSwap(r, at, next);
    }

    /** Read, answer a known identity, refuse an impossible base, admit a stale one, evaluate. */
    method Decide(c: Command) returns (d: Decision)
      requires Valid()
      ensures forall r | r in ledger && r.commandId == c.commandId ::
                d == Answer(if r.payload == c.payload then AlreadyApplied(Some(r)) else Reused)
      ensures (forall r | r in ledger :: r.commandId != c.commandId) ==> d == Verdict(c, snapshot, revision, ledger)
    {
      var known := Find(ledger, c.commandId);
      if known.Some? {
        forall r | r in ledger && r.commandId == c.commandId ensures known == Some(r) {
          FoundOnce(ledger, r);
        }
        return Answer(if known.value.payload == c.payload then AlreadyApplied(known) else Reused);
      }
      if c.base > revision {
        return Answer(Invalid);
      }
      if c.current(snapshot) {
        return Answer(AlreadyApplied(None));
      }
      if c.base < revision {
        AfterMembers(ledger, c.base);
        var conflict, _ := Intervening(c.objects(snapshot), c.fields(snapshot), After(ledger, c.base));
        if conflict {
          return Answer(Conflict);
        }
      } else {
        forall r | r in ledger ensures r.resulting <= c.base {
          NothingAfter(origin, states, ledger, r);
        }
      }
      match c.evaluate(snapshot)
      case Throws => return Answer(Failed);
      case NeedsConfirmation => return Answer(Conflict);
      case Current => return Answer(AlreadyApplied(None));
      case Nothing => return Answer(NoWrite);
      case Writes(next, inverse) => return Write(next, inverse);
    }

    /** One attempt: decide, let others in, and swap against the revision read. */
    method Attempt(c: Command, others: seq<seq<Other>>, attempt: nat) returns (reply: Option<Reply>)
      requires Valid()
      modifies this
      ensures Grew()
      ensures reply.Some? ==>
                reply.value != Contention && Ran(c, others, reply.value, origin, old(ledger), ledger, states)
      ensures reply.None? ==>
                && |old(ledger)| < |ledger| && Find(old(ledger), c.commandId).None?
                && From(others, ledger[|old(ledger)|..])
      ensures attempt >= |others| && Find(old(ledger), c.commandId).None? ==>
                match Verdict(c, old(snapshot), old(revision), old(ledger))
                case Answer(answer) => reply == Some(answer) && ledger == old(ledger)
                case Write(next, _) => reply == Some(Committed(old(revision) + 1)) && snapshot == next
    {
      assert ledger[|old(ledger)|..] == [];
      var d := Decide(c);
      match d
      case Answer(answer) => return Some(answer);
      case Write(next, inverse) =>
        reply := Commit(c, next, inverse, others, attempt);
    }

    /** The rest of an attempt that may write. */
    method Commit(c: Command, next: Workspace, inverse: Option<seq<EntityChange>>, others: seq<seq<Other>>,
                  attempt: nat)
      returns (reply: Option<Reply>)
      requires Valid()
      requires Find(ledger, c.commandId).None? && Admitted(c, snapshot, revision, ledger)
      requires c.evaluate(snapshot) == Writes(next, inverse)
      modifies this
      ensures Grew()
      ensures reply.Some? ==>
                reply.value != Contention && Ran(c, others, reply.value, origin, old(ledger), ledger, states)
      ensures reply.None? ==> |old(ledger)| < |ledger| && From(others, ledger[|old(ledger)|..])
      ensures attempt >= |others| ==> reply == Some(Committed(old(revision) + 1)) && snapshot == next
    {
      var delta := DiffWorkspaceDelta(snapshot, next, revision);
      var affected := KeysOf(delta.changes);
      var row := Record(c.commandId, c.payload, 0, delta.changes, Some(affected),
                        Some(ConflictScopes(affected, c.fields(snapshot))), inverse);
      ghost var before := ledger;
      var s := SwapAfter(row, next, others, attempt);
      match s {
        case Known(receipt) => return Some(AlreadyApplied(Some(receipt)));
        case Mismatch => return Some(Reused);
        case Swapped =>
          assert ledger[..|before|] == before && ledger[|before|..|before|] == [];
          return Some(Committed(revision));
        case Lost => return None;
      }
    }

    /** Up to five attempts under one identity. */
    method Execute(c: Command, others: seq<seq<Other>>) returns (reply: Reply)
      requires Valid()
      modifies this
      ensures Grew()
      ensures Ran(c, others, reply, origin, old(ledger), ledger, states)
      ensures others == [] && (forall r | r in old(ledger) :: r.commandId != c.commandId) ==>
                match Verdict(c, old(snapshot), old(revision), old(ledger))
                case Answer(answer) => reply == answer && ledger == old(ledger)
                case Write(next, _) => reply == Committed(old(revision) + 1) && snapshot == next
    {
      assert ledger[|old(ledger)|..] == [];
      for attempt := 0 to ATTEMPTS
        invariant Grew() && From(others, ledger[|old(ledger)|..])
        invariant |old(ledger)| + attempt <= |ledger|
        invariant attempt > 0 ==> Find(old(ledger), c.commandId).None?
        invariant attempt == 0 ==> ledger == old(ledger)
        invariant others == [] ==> attempt == 0 || Find(old(ledger), c.commandId).Some?
      {
        ghost var rows := ledger;
        var r := Attempt(c, others, attempt);
        if r.Some? {
          RanLater(c, others, r.value, origin, old(ledger), rows, ledger, states);
          return r.value;
        }
        FindPrefix(rows, |old(ledger)|, c.commandId);
        FromAppended(others, old(ledger), rows, ledger);
      }
      return Contention;
    }

    /** The target's receipt, its compensation and every later receipt decide an Undo; the revision
        the client last saw does not. */
    method DecideUndo(u: UndoRequest) returns (d: Decision)
      requires Valid()
      ensures match d
              case Answer(reply) =>
                reply != Contention && !reply.Committed? && UndoJustified(u, reply, snapshot, ledger)
              case Write(next, inverse) =>
                && Find(ledger, u.commandId).None? && !Refused(ledger, u.targetId)
                && ApplyChanges(snapshot, Find(ledger, u.targetId).value.inverse.value) == Some(next) && inverse.None?
      ensures Find(ledger, u.commandId).None? ==> d == UndoVerdict(u.targetId, snapshot, ledger)
      ensures Find(ledger, u.commandId).Some? || Refused(ledger, u.targetId) ==> d == Answer(UndoAnswer(u, ledger))
    {
      var target := Find(ledger, u.targetId);
      var known := Find(ledger, u.commandId);
      if target.Some? {
        BlockedExactly(ledger, target.value);
      }
      if known.Some? {
        return Answer(if known.value.payload == u.payload then AlreadyApplied(known) else Reused);
      }
      if target.None? || target.value.inverse.None? || Blocked(ledger, target.value) {
        return Answer(Conflict);
      }
      match ApplyChanges(snapshot, target.value.inverse.value)
      case None => return Answer(Failed);
      case Some(next) => return Write(next, None);
    }

    method AttemptUndo(u: UndoRequest, others: seq<seq<Other>>, attempt: nat) returns (reply: Option<Reply>)
      requires Valid()
      modifies this
      ensures Grew()
      ensures reply.Some? ==> reply.value != Contention && UndoRan(u, others, reply.value, old(ledger), ledger, states)
      ensures reply.None? ==>
                && |old(ledger)| < |ledger| && From(others, ledger[|old(ledger)|..])
                && Find(old(ledger), u.commandId).None? && !Refused(old(ledger), u.targetId)
      ensures attempt >= |others| && Find(old(ledger), u.commandId).None? ==>
                match UndoVerdict(u.targetId, old(snapshot), old(ledger))
                case Answer(answer) => reply == Some(answer) && ledger == old(ledger)
                case Write(next, _) => reply == Some(Committed(old(revision) + 1)) && snapshot == next
    {
      var d := DecideUndo(u);
      if d.Answer? {
        UndoAnswered(u, others, d.reply, ledger, states);
        return Some(d.reply);
      }
      reply := CommitUndo(u, d.next, others, attempt);
    }

    method SwapUndo(u: UndoRequest, next: Workspace, others: seq<seq<Other>>, attempt: nat)
      returns (s: Swap, ghost row: Record)
      requires Valid() && Find(ledger, u.commandId).None?
      modifies this
      ensures Grew()
      ensures row.commandId == u.commandId && row.payload == u.payload && row.affected.Some?
      ensures s.Swapped? ==> ledger == old(ledger) + [row] && states == old(states) + [next]
      ensures !s.Swapped? ==> From(others, ledger[|old(ledger)|..])
      ensures s.Lost? ==> |old(ledger)| < |ledger|
      ensures s.Known? ==> s.receipt in ledger && s.receipt.commandId == u.commandId && s.receipt.payload == u.payload
      ensures s.Mismatch? ==>
                exists taken | taken in ledger :: taken.commandId == u.commandId && taken.payload != u.payload
      ensures attempt >= |others| ==> s.Swapped? && snapshot == next && revision == old(revision) + 1
    {
      var delta := DiffWorkspaceDelta(snapshot, next, revision);
      var r := Record(u.commandId, u.payload, 0, delta.changes, Some(KeysOf(delta.changes)), None, None);
      row := r.(resulting := revision + 1);
      s := SwapAfter(r, next, others, attempt);
    }

    /** The rest of an attempt that may write. */
    method CommitUndo(u: UndoRequest, next: Workspace, others: seq<seq<Other>>, attempt: nat)
      returns (reply: Option<Reply>)
      requires Valid()
      requires Find(ledger, u.commandId).None? && !Refused(ledger, u.targetId)
      requires ApplyChanges(snapshot, Find(ledger, u.targetId).value.inverse.value) == Some(next)
      modifies this
      ensures Grew()
      ensures reply.Some? ==> reply.value != Contention && UndoRan(u, others, reply.value, old(ledger), ledger, states)
      ensures reply.None? ==> |old(ledger)| < |ledger| && From(others, ledger[|old(ledger)|..])
      ensures attempt >= |others| ==> reply == Some(Committed(old(revision) + 1)) && snapshot == next
    {
      var s, row := SwapUndo(u, next, others, attempt);
      UndoSettled(u, others, s, row, revision, old(ledger), ledger, old(states), states, next);
      match s {
        case Known(receipt) => return Some(AlreadyApplied(Some(receipt)));
        case Mismatch => return Some(Reused);
        case Swapped => return Some(Committed(revision));
        case Lost => return None;
      }
    }

    method Undo(u: UndoRequest, others: seq<seq<Other>>) returns (reply: Reply)
      requires Valid()
      modifies this
      ensures Grew()
      ensures UndoRan(u, others, reply, old(ledger), ledger, states)
      ensures others == [] && (forall r | r in old(ledger) :: r.commandId != u.commandId) ==>
                match UndoVerdict(u.targetId, old(snapshot), old(ledger))
                case Answer(answer) => reply == answer && ledger == old(ledger)
                case Write(next, _) => reply == Committed(old(revision) + 1) && snapshot == next
    {
      assert ledger[|old(ledger)|..] == [];
      for attempt := 0 to ATTEMPTS
        invariant Grew() && From(others, ledger[|old(ledger)|..])
        invariant |old(ledger)| + attempt <= |ledger|
        invariant attempt == 0 ==> ledger == old(ledger)
        invariant attempt > 0 ==> Find(old(ledger), u.commandId).None? && !Refused(old(ledger), u.targetId)
        invariant others == [] ==> attempt == 0 || Find(old(ledger), u.commandId).Some?
      {
        ghost var rows := ledger;
        var r := AttemptUndo(u, others, attempt);
        if r.Some? {
          UndoRanLater(u, others, r.value, old(ledger), rows, ledger, states);
          return r.value;
        }
        FindPrefix(rows, |old(ledger)|, u.commandId);
        FromAppended(others, old(ledger), rows, ledger);
      }
      UndoGivesUp(u, others, old(ledger), ledger, states);
      return Contention;
    }
  }

  lemma FindPrefix(ledger: seq<Record>, n: nat, id: string)
    requires n <= |ledger| && Find(ledger, id).None?
    ensures Find(ledger[..n], id).None?
  {
    var found := Find(ledger[..n], id);
    assert forall r | r in ledger[..n] :: r in ledger;
  }

  lemma FromAppended(others: seq<seq<Other>>, first: seq<Record>, rows: seq<Record>, raced: seq<Record>)
    requires |first| <= |rows| <= |raced| && raced[..|rows|] == rows
    requires From(others, rows[|first|..]) && From(others, raced[|rows|..])
    ensures From(others, raced[|first|..])
  {
    assert raced == rows + raced[|rows|..];
    assert raced[|first|..] == rows[|first|..] + raced[|rows|..];
  }

  // ---------------------------------------------------------------------------------------
  // The ledger as history
  // ---------------------------------------------------------------------------------------

  function Replay(w: Workspace, ledger: seq<Record>): Option<Workspace> {
    if ledger == [] then Some(w)
    else match Replay(w, ledger[..|ledger| - 1])
         case None => None
         case Some(below) => ApplyChanges(below, ledger[|ledger| - 1].changes)
  }

  /** The snapshot is the fold of the committed deltas in commit order, and every receipt's delta
      leads from the snapshot of its base revision to the snapshot of its own. */
  lemma {:induction false} SnapshotIsFoldOfLedger(origin: nat, states: seq<Workspace>, ledger: seq<Record>, n: nat)
    requires LedgerValid(origin, states, ledger) && n <= |ledger|
    ensures Replay(states[0], ledger[..n]) == Some(states[n])
    decreases n
  {
    if n > 0 {
      SnapshotIsFoldOfLedger(origin, states, ledger, n - 1);
      assert ledger[..n][..n - 1] == ledger[..n - 1];
      assert RowValid(origin, states, ledger, n - 1);
      DiffRoundTrip(states[n - 1], states[n], ledger[n - 1].changes);
    }
  }

  /** An object that no receipt in between names is the same at both ends. */
  lemma {:induction false} UntouchedBetween(origin: nat, states: seq<Workspace>, ledger: seq<Record>, a: nat, b: nat,
                                            key: EntityKey)
    requires LedgerValid(origin, states, ledger) && a <= b <= |ledger|
    requires forall j | a <= j < b :: ledger[j].affected.Some? && key !in ledger[j].affected.value
    ensures Lookup(states[a], key) == Lookup(states[b], key)
    decreases b
  {
    if a < b {
      UntouchedBetween(origin, states, ledger, a, b - 1, key);
      assert RowValid(origin, states, ledger, b - 1);
      ChangeAtMember(ledger[b - 1].changes, key);
    }
  }

  lemma LaterRow(origin: nat, states: seq<Workspace>, ledger: seq<Record>, n: nat, revision: nat, j: nat)
    requires LedgerValid(origin, states, ledger) && j < n <= |ledger| && revision <= origin + j
    ensures ledger[j] in ledger[..n] && ledger[j].resulting > revision
  {
    assert RowValid(origin, states, ledger, j);
    assert ledger[..n][j] == ledger[j];
  }

  /** A stale command that was admitted is about objects that have not changed since its base,
      wherever it claims the whole object. */
  lemma AdmittedSeesItsBase(c: Command, origin: nat, states: seq<Workspace>, ledger: seq<Record>, i: nat,
                            key: EntityKey)
    requires LedgerValid(origin, states, ledger) && i < |ledger| && WrittenBy(c, origin, states, ledger, i)
    requires origin <= c.base && key in c.objects(states[i])
    requires var requested := ScopesOn(c.fields(states[i]), key); requested == {} || "*" in requested
    ensures Lookup(states[i], key) == Lookup(states[c.base - origin], key)
  {
    forall j | c.base - origin <= j < i ensures ledger[j].affected.Some? && key !in ledger[j].affected.value {
      LaterRow(origin, states, ledger, i, c.base, j);
      var r, fields := ledger[j], c.fields(states[i]);
      assert Independent(c.objects(states[i]), fields, r);
      if key in r.affected.value {
        assert Independent({key}, fields, r);
        WholeObjectClashes(fields, r, key);
      }
    }
    UntouchedBetween(origin, states, ledger, c.base - origin, i, key);
  }

  lemma WholeObjectClashes(fields: set<Scope>, r: Record, key: EntityKey)
    requires ScopesOn(fields, key) == {} || "*" in ScopesOn(fields, key)
    requires r.affected.Some? && key in r.affected.value
    ensures !Independent({key}, fields, r)
  {
    if exists a :: (key, a) in fields {
      var a :| (key, a) in fields;
      assert a in ScopesOn(fields, key);
    }
  }

  // ---------------------------------------------------------------------------------------
  // Claims on single fields
  // ---------------------------------------------------------------------------------------

  predicate Covers(scope: string, f: Field) {
    scope == "*" || scope == f || Under(f, scope)
  }

  /** A row that names scopes on an object changed that object only within them. */
  ghost predicate ScopedOn(before: Workspace, after: Workspace, r: Record, key: EntityKey) {
    r.scopes.Some? && ScopesOn(r.scopes.value, key) != {} ==>
      forall f | Cell(Lookup(before, key), f) != Cell(Lookup(after, key), f) ::
        exists b | b in ScopesOn(r.scopes.value, key) :: Meet(b, f)
  }

  /** A command's own row is scoped exactly when it changed no field of an object beside the fields it
      asked for on that object; objects it named no fields of are claimed whole. */
  lemma WrittenRowIsScoped(c: Command, origin: nat, states: seq<Workspace>, ledger: seq<Record>, i: nat, key: EntityKey)
    requires LedgerValid(origin, states, ledger) && i < |ledger| && WrittenBy(c, origin, states, ledger, i)
    ensures var asked := ScopesOn(c.fields(states[i]), key);
            ScopedOn(states[i], states[i + 1], ledger[i], key) <==>
              forall f | Cell(Lookup(states[i], key), f) != Cell(Lookup(states[i + 1], key), f) ::
                asked == {} || exists b | b in asked :: Meet(b, f)
  {
    var r, fields := ledger[i], c.fields(states[i]);
    assert RowValid(origin, states, ledger, i);
    ChangeAtMember(r.changes, key);
    WrittenScopes(r.affected.value, fields, key);
    if key in r.affected.value && ScopesOn(fields, key) == {} {
      assert "*" in ScopesOn(r.scopes.value, key);
      assert forall f :: Meet("*", f);
    }
  }

  lemma WrittenScopes(affected: set<EntityKey>, fields: set<Scope>, key: EntityKey)
    ensures ScopesOn(ConflictScopes(affected, fields), key) ==
            if key !in affected then {} else if ScopesOn(fields, key) == {} then {"*"} else ScopesOn(fields, key)
  {
    var written := ScopesOn(ConflictScopes(affected, fields), key);
    forall s ensures s in written <==> (key, s) in ConflictScopes(affected, fields) {}
    forall s ensures s in ScopesOn(fields, key) <==> (key, s) in fields {}
  }

  /** Two scopes that both reach a field reach each other. */
  lemma ScopesMeet(a: string, b: string, f: Field)
    requires Covers(a, f) && Meet(b, f)
    ensures Meet(a, b)
  {
    ClashIsMeeting(b, f);
    ClashIsMeeting(a, b);
    if a != "*" && b != "*" && a != b {
      if Under(f, a) && Under(f, b) {
        var short, long := if |a| < |b| then a else b, if |a| < |b| then b else a;
        assert f[..|long|][..|short|] == f[..|short|];
        assert long[|short|] == f[|short|];
      } else if Under(f, a) && Under(b, f) {
        assert b[..|f|][..|a|] == b[..|a|];
        assert b[|a|] == f[|a|];
      }
    }
  }

  /** A stale command that was admitted sees every field it asked for as it was at its base, as long as
      the receipts in between are scoped on the object, whatever they did to its other fields. */
  lemma AdmittedSeesItsFields(c: Command, origin: nat, states: seq<Workspace>, ledger: seq<Record>, i: nat,
                              key: EntityKey, scope: string, f: Field)
    requires LedgerValid(origin, states, ledger) && i < |ledger| && WrittenBy(c, origin, states, ledger, i)
    requires origin <= c.base && key in c.objects(states[i]) && scope in ScopesOn(c.fields(states[i]), key)
             && Covers(scope, f)
    requires forall j | c.base - origin <= j < i :: ScopedOn(states[j], states[j + 1], ledger[j], key)
    ensures Cell(Lookup(states[i], key), f) == Cell(Lookup(states[c.base - origin], key), f)
  {
    forall j | c.base - origin <= j < i ensures Cell(Lookup(states[j], key), f) == Cell(Lookup(states[j + 1], key), f) {
      LaterRow(origin, states, ledger, i, c.base, j);
      assert Independent(c.objects(states[i]), c.fields(states[i]), ledger[j]);
      FieldKept(c.objects(states[i]), c.fields(states[i]), origin, states, ledger, j, key, scope, f);
    }
    FieldUntouched(states, c.base - origin, i, key, f);
  }

  lemma FieldKept(objects: set<EntityKey>, fields: set<Scope>, origin: nat, states: seq<Workspace>,
                  ledger: seq<Record>, j: nat, key: EntityKey, scope: string, f: Field)
    requires LedgerValid(origin, states, ledger) && j < |ledger| && Independent(objects, fields, ledger[j])
    requires key in objects && scope in ScopesOn(fields, key) && Covers(scope, f)
    requires ScopedOn(states[j], states[j + 1], ledger[j], key)
    ensures Cell(Lookup(states[j], key), f) == Cell(Lookup(states[j + 1], key), f)
  {
    var r := ledger[j];
    assert RowValid(origin, states, ledger, j);
    ChangeAtMember(r.changes, key);
    if key in r.affected.value {
      assert (key, scope) in fields;
      var b0 :| (key, b0) in r.scopes.value;
      assert b0 in ScopesOn(r.scopes.value, key);
      if Cell(Lookup(states[j], key), f) != Cell(Lookup(states[j + 1], key), f) {
        var b :| b in ScopesOn(r.scopes.value, key) && Meet(b, f);
        ScopesMeet(scope, b, f);
        assert false;
      }
    }
  }

  lemma {:induction false} FieldUntouched(states: seq<Workspace>, a: nat, b: nat, key: EntityKey, f: Field)
    requires a <= b < |states|
    requires forall j | a <= j < b :: Cell(Lookup(states[j], key), f) == Cell(Lookup(states[j + 1], key), f)
    ensures Cell(Lookup(states[a], key), f) == Cell(Lookup(states[b], key), f)
    decreases b
  {
    if a < b {
      FieldUntouched(states, a, b - 1, key, f);
    }
  }

  lemma LastOfPrefix(ledger: seq<Record>, n: nat, k: nat, id: string)
    requires UniqueCommands(ledger) && k < n <= |ledger| && ledger[k].commandId == id
    ensures Find(ledger[..n], id) == Some(ledger[k])
  {
    var found := Find(ledger[..n], id);
    assert ledger[..n][k] == ledger[k] && ledger[k] in ledger[..n];
    var j :| 0 <= j < n && ledger[..n][j] == found.value;
    assert ledger[j].commandId == ledger[k].commandId;
  }

  /** What an applied compensation leaves of an object that only the target changed since. */
  lemma UndoneRow(origin: nat, states: seq<Workspace>, ledger: seq<Record>, k: nat, i: nat, key: EntityKey)
    requires LedgerValid(origin, states, ledger) && k < i < |ledger|
    requires Undid(ledger[k].commandId, states, ledger, i)
    requires ledger[k].affected.Some? && ledger[k].inverse.Some? && UniqueKeys(ledger[k].inverse.value)
    ensures var c := ChangeAt(ledger[k].inverse.value, key);
            Lookup(states[i + 1], key) == ForceAt(if key in ledger[k].affected.value then Lookup(states[k + 1], key)
                                                  else Lookup(states[i], key), c)
  {
    var target := ledger[k];
    LastOfPrefix(ledger, i, k, target.commandId);
    assert RowValid(origin, states, ledger, k);
    ApplyByKey(states[i], target.inverse.value);
    if key in target.affected.value {
      forall j | k + 1 <= j < i ensures ledger[j].affected.Some? && key !in ledger[j].affected.value {
        LaterRow(origin, states, ledger, i, target.resulting, j);
      }
      UntouchedBetween(origin, states, ledger, k + 1, i, key);
    }
  }

  /** The compensation puts every object the target changed back, were it applied at once. */
  ghost predicate GivesBack(before: Workspace, after: Workspace, inverse: seq<EntityChange>, affected: set<EntityKey>) {
    forall key | key in affected :: ForceAt(Lookup(after, key), ChangeAt(inverse, key)) == Lookup(before, key)
  }

  /** Undo commutes with unrelated later work, whatever the compensation is: every object that the target
      changed is back as it was before the target exactly when the compensation would have put it back at
      once, and everything else but what the compensation names is as the later commands left it. */
  lemma UndoKeepsLaterWork(origin: nat, states: seq<Workspace>, ledger: seq<Record>, k: nat, i: nat)
    requires LedgerValid(origin, states, ledger) && k < i < |ledger|
    requires Undid(ledger[k].commandId, states, ledger, i)
    requires ledger[k].affected.Some? && ledger[k].inverse.Some? && UniqueKeys(ledger[k].inverse.value)
    ensures (forall key | key in ledger[k].affected.value :: Lookup(states[i + 1], key) == Lookup(states[k], key))
            <==> GivesBack(states[k], states[k + 1], ledger[k].inverse.value, ledger[k].affected.value)
    ensures forall key | key !in ledger[k].affected.value + KeysOf(ledger[k].inverse.value) ::
              Lookup(states[i + 1], key) == Lookup(states[i], key)
  {
    var affected, inverse := ledger[k].affected.value, ledger[k].inverse.value;
    forall key
      ensures key in affected ==>
                Lookup(states[i + 1], key) == ForceAt(Lookup(states[k + 1], key), ChangeAt(inverse, key))
    {
      UndoneRow(origin, states, ledger, k, i, key);
    }
    forall key | key !in affected + KeysOf(inverse) ensures Lookup(states[i + 1], key) == Lookup(states[i], key) {
      UndoneRow(origin, states, ledger, k, i, key);
      ChangeAtMember(inverse, key);
    }
  }

  /** The reverse of the recorded difference is such a compensation. */
  lemma ReversedGivesBack(origin: nat, states: seq<Workspace>, ledger: seq<Record>, k: nat)
    requires LedgerValid(origin, states, ledger) && k < |ledger| && ledger[k].affected.Some?
    ensures UniqueKeys(ReverseChanges(ledger[k].changes))
    ensures GivesBack(states[k], states[k + 1], ReverseChanges(ledger[k].changes), ledger[k].affected.value)
    ensures KeysOf(ReverseChanges(ledger[k].changes)) == ledger[k].affected.value
  {
    var cs := ledger[k].changes;
    assert RowValid(origin, states, ledger, k);
    forall key ensures key in KeysOf(cs) <==> key in KeysOf(ReverseChanges(cs)) {
      ChangeAtReversed(cs, key);
      ChangeAtMember(cs, key);
      ChangeAtMember(ReverseChanges(cs), key);
    }
    ChangeAtReversed(cs, EntityKey("", ""));
    forall key | key in ledger[k].affected.value
      ensures ForceAt(Lookup(states[k + 1], key), ChangeAt(ReverseChanges(cs), key)) == Lookup(states[k], key)
    {
      ChangeAtReversed(cs, key);
      ChangeAtMember(cs, key);
      RestoredRow(states[k], states[k + 1], key);
    }
  }

  lemma RestoredRow(before: Workspace, after: Workspace, key: EntityKey)
    requires Lookup(before, key) != Lookup(after, key)
    ensures Force(Lookup(after, key), Compact(FullChange(before, after, key)).Reversed()) == Lookup(before, key)
  {
    var c := FullChange(before, after, key);
    CompactRow(c);
    ReverseRow(c.before, Compact(c));
  }

  /** A later receipt on a shared object, or a later row without object receipts, refuses the Undo. */
  lemma UndoRefusedAfterLaterEdit(origin: nat, states: seq<Workspace>, ledger: seq<Record>, k: nat, j: nat)
    requires LedgerValid(origin, states, ledger) && k < j < |ledger|
    requires ledger[k].affected.Some?
    requires ledger[j].affected.None? || ledger[j].affected.value * ledger[k].affected.value != {}
    ensures Refused(ledger, ledger[k].commandId)
  {
    assert RowValid(origin, states, ledger, k);
    LaterRow(origin, states, ledger, |ledger|, ledger[k].resulting, j);
    assert ledger[..|ledger|] == ledger;
    AfterMembers(ledger, ledger[k].resulting);
    assert BuiltUpon(ledger, ledger[k]) by {
      if ledger[j].affected.Some? {
        var key :| key in ledger[j].affected.value * ledger[k].affected.value;
      }
    }
    forall t | t in ledger && t.commandId == ledger[k].commandId ensures t == ledger[k] {
      FoundOnce(ledger, t);
      FoundOnce(ledger, ledger[k]);
    }
  }

  // ---------------------------------------------------------------------------------------
  // A refusal is not final on the server
  // ---------------------------------------------------------------------------------------

  lemma SomeRow(rows: seq<Record>)
    ensures rows == [] || exists r :: r in rows
  {
    if rows != [] {
      assert rows[0] in rows;
    }
  }

  /** Without other writers a request ends with its own row or with none. */
  lemma RanAlone(c: Command, reply: Reply, origin: nat, before: seq<Record>, ledger: seq<Record>,
                 states: seq<Workspace>)
    requires |before| <= |ledger| && |states| == |ledger| + 1 && ledger[..|before|] == before
    requires Ran(c, [], reply, origin, before, ledger, states)
    ensures reply != Contention
    ensures if reply.Committed? then |ledger| == |before| + 1 && WrittenBy(c, origin, states, ledger, |before|)
            && reply.revision == origin + |ledger|
            else ledger == before && Justified(c, reply, states[|before|], origin + |before|, before)
  {
    if reply.Committed? {
      SomeRow(ledger[|before|..|ledger| - 1]);
    } else {
      MeanwhileAll([], reply, |before|, ledger);
      SomeRow(ledger[|before|..]);
      assert ledger == before + ledger[|before|..];
    }
  }

  function Hesitant(): Command {
    Command("c", "p", 0, w => false, w => {}, w => {}, w => if w == map[] then NeedsConfirmation
            else Writes(map[], None))
  }

  function Adding(): Command {
    Command("o", "q", 0, w => false, w => {}, w => {}, w => Writes(map[EntityKey("actions", "a") := map[]], None))
  }

  lemma HesitantIsRefused(reply: Reply, ledger: seq<Record>, states: seq<Workspace>)
    requires |states| == |ledger| + 1 && states[0] == map[]
    requires Ran(Hesitant(), [], reply, 0, [], ledger, states)
    ensures reply == Conflict && ledger == []
  {
    RanAlone(Hesitant(), reply, 0, [], ledger, states);
  }

  lemma AddingIsCommitted(reply: Reply, ledger: seq<Record>, states: seq<Workspace>)
    requires |states| == |ledger| + 1
    requires Ran(Adding(), [], reply, 0, [], ledger, states)
    ensures |ledger| == 1 && EntityKey("actions", "a") in states[1] && ledger[0].commandId == "o"
            && ledger[0].affected.Some?
  {
    RanAlone(Adding(), reply, 0, [], ledger, states);
  }

  lemma HesitantIsCommitted(reply: Reply, before: seq<Record>, ledger: seq<Record>, states: seq<Workspace>)
    requires |before| == 1 && before[0].commandId == "o" && before[0].affected.Some?
    requires |before| <= |ledger| && |states| == |ledger| + 1 && ledger[..1] == before && states[1] != map[]
    requires Ran(Hesitant(), [], reply, 0, before, ledger, states)
    ensures reply == Committed(2)
  {
    RanAlone(Hesitant(), reply, 0, before, ledger, states);
  }

  /** The same request, sent twice under one identity: refused on the first snapshot, and committed after
      somebody else's write has removed the reason. */
  method RefusedThenCommitted() returns (first: Reply, second: Reply)
    ensures first == Conflict && second == Committed(2)
  {
    var server := new Workspaces(map[], 0);
    first := server.Execute(Hesitant(), []);
    HesitantIsRefused(first, server.ledger, server.states);
    var written := server.Execute(Adding(), []);
    AddingIsCommitted(written, server.ledger, server.states);
    ghost var before := server.ledger;
    second := server.Execute(Hesitant(), []);
    HesitantIsCommitted(second, before, server.ledger, server.states);
  }
}
