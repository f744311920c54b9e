/**
 One row under a chain of optimistic changes: what an acknowledgement settles, what a rejection
 unwinds and what a rebuild replays.

 A cached row is the last read authoritative row with the pending changes patched over it in
 order. The client never keeps that authoritative row: it rewrites the cached row in place from
 the preimages that the changes carry, so each result here compares the rewriting with the fold
 that it stands for.
 */
module RowChain {
  import opened Wrappers
  import opened WorkspaceDelta

  // ---------------------------------------------------------------------------------------
  // The fold
  // ---------------------------------------------------------------------------------------

  function Fold(row: Option<Row>, cs: seq<EntityChange>): Option<Row> {
    if cs == [] then row else Force(Fold(row, cs[..|cs| - 1]), cs[|cs| - 1])
  }

  /** Every update of the chain finds a row to patch. */
  predicate Hits(row: Option<Row>, cs: seq<EntityChange>) {
    cs == [] || (Hits(row, cs[..|cs| - 1]) && (cs[|cs| - 1].Whole() || Fold(row, cs[..|cs| - 1]).Some?))
  }

  predicate SetBy(cs: seq<EntityChange>, f: Field) {
    exists i | 0 <= i < |cs| :: cs[i].Sets(f)
  }

  lemma FoldConcat(row: Option<Row>, a: seq<EntityChange>, b: seq<EntityChange>)
    ensures Fold(row, a + b) == Fold(Fold(row, a), b)
    ensures Hits(row, a + b) <==> Hits(row, a) && Hits(Fold(row, a), b)
  {
    if b == [] {
      assert a + b == a;
    } else {
      assert (a + b)[..|a + b| - 1] == a + b[..|b| - 1];
      FoldConcat(row, a, b[..|b| - 1]);
    }
  }

  lemma FoldOne(row: Option<Row>, c: EntityChange, cs: seq<EntityChange>)
    ensures Fold(row, [c] + cs) == Fold(Force(row, c), cs)
    ensures Hits(row, [c] + cs) <==> (c.Whole() || row.Some?) && Hits(Force(row, c), cs)
  {
    FoldConcat(row, [c], cs);
    assert [c][..0] == [];
    assert Fold(row, [c]) == Force(row, c);
  }

  /** A field that the chain sets no longer depends on the row below; any other field is the row's own. */
  lemma {:induction false} FoldCell(row: Option<Row>, below: Option<Row>, cs: seq<EntityChange>, f: Field)
    requires row.Some? == below.Some? && Hits(row, cs)
    ensures Hits(below, cs) && Fold(row, cs).Some? == Fold(below, cs).Some?
    ensures SetBy(cs, f) ==> Cell(Fold(row, cs), f) == Cell(Fold(below, cs), f)
    ensures !SetBy(cs, f) ==> Cell(Fold(row, cs), f) == Cell(row, f)
    ensures !SetBy(cs, f) ==> Cell(Fold(below, cs), f) == Cell(below, f)
    decreases |cs|
  {
    if cs != [] {
      var init, last := cs[..|cs| - 1], cs[|cs| - 1];
      FoldCell(row, below, init, f);
      ForceCell(Fold(row, init), last, f);
      ForceCell(Fold(below, init), last, f);
      assert SetBy(cs, f) <==> SetBy(init, f) || last.Sets(f) by {
        if SetBy(init, f) {
          var i :| 0 <= i < |init| && init[i].Sets(f);
          assert cs[i].Sets(f);
        }
      }
    }
  }

  /** Every field a checked patch names ends at the patch's postimage. */
  lemma CheckedCell(current: Option<Row>, c: EntityChange, f: Field)
    requires PatchRow(current, c, true).Patched?
    ensures var row := PatchRow(current, c, true).row;
            Cell(row, f) == (if c.Names(f) then Cell(c.after, f) else Cell(current, f))
            && row.Some? == c.after.Some?
  {
    ForceCell(current, c, f);
  }

  // ---------------------------------------------------------------------------------------
  // Acknowledgement
  // ---------------------------------------------------------------------------------------

  function Assign(row: Row, overlays: seq<Row>): Row {
    if overlays == [] then row else Assign(row, overlays[..|overlays| - 1]) + overlays[|overlays| - 1]
  }

  /** The row that the acknowledged change is taken to have started from. */
  function Baseline(optimistic: Option<EntityChange>, priors: seq<Row>, accepted: EntityChange): Option<Row> {
    if accepted.before.Some? && optimistic.Some? && optimistic.value.before.Some?
    then Some(Assign(optimistic.value.before.value, priors) + accepted.before.value)
    else accepted.before
  }

  function OptimisticSide(optimistic: Option<EntityChange>, accepted: EntityChange): seq<EntityChange> {
    if optimistic.Some? then [optimistic.value] else []
  }

  /** The patch from the optimistic row to the confirmed row, both under the later changes;
      None where replaying them finds no row. */
  function Settlement(optimistic: Option<EntityChange>, priors: seq<Row>, accepted: EntityChange,
                      later: seq<EntityChange>): Option<EntityChange> {
    var baseline := Baseline(optimistic, priors, accepted);
    var left := OptimisticSide(optimistic, accepted) + later;
    var right := [accepted] + later;
    if Hits(baseline, left) && Hits(baseline, right)
    then Some(EntityChange(accepted.key, Fold(baseline, left), Fold(baseline, right)))
    else None
  }

  predicate SameShape(a: EntityChange, b: EntityChange) {
    a.before.Some? == b.before.Some? && a.after.Some? == b.after.Some?
  }

  /** The loop that replays the later changes on one side; None where one finds no row. */
  method Overlay(row: Option<Row>, later: seq<EntityChange>) returns (r: Option<Option<Row>>)
    ensures r == if Hits(row, later) then Some(Fold(row, later)) else None
  {
    var current := row;
    for n := 0 to |later|
      invariant current == Fold(row, later[..n]) && Hits(row, later[..n])
    {
      assert later[..n + 1][..n] == later[..n];
      if !later[n].Whole() && current.None? {
        assert later == later[..n + 1] + later[n + 1..];
        FoldConcat(row, later[..n + 1], later[n + 1..]);
        return None;
      }
      current := Force(current, later[n]);
    }
    assert later[..|later|] == later;
    return Some(current);
  }

  method BaselineRow(optimistic: Option<EntityChange>, priors: seq<Row>, accepted: EntityChange)
    returns (baseline: Option<Row>)
    ensures baseline == Baseline(optimistic, priors, accepted)
  {
    if accepted.before.None? || optimistic.None? || optimistic.value.before.None? {
      return accepted.before;
    }
    var row := optimistic.value.before.value;
    for n := 0 to |priors|
      invariant row == Assign(optimistic.value.before.value, priors[..n])
    {
      assert priors[..n + 1][..n] == priors[..n];
      row := row + priors[n];
    }
    assert priors[..|priors|] == priors;
    return Some(row + accepted.before.value);
  }

  /** One settled entity: both sides start from the baseline and carry the later changes. */
  method SettleRow(optimistic: Option<EntityChange>, priors: seq<Row>, accepted: EntityChange,
                   later: seq<EntityChange>) returns (r: Option<EntityChange>)
    ensures r == Settlement(optimistic, priors, accepted, later)
  {
    var baseline := BaselineRow(optimistic, priors, accepted);
    var before := Overlay(baseline, OptimisticSide(optimistic, accepted) + later);
    var after := Overlay(baseline, [accepted] + later);
    if before.None? || after.None? {
      return None;
    }
    return Some(EntityChange(accepted.key, before.value, after.value));
  }

  /** For the fields that no later change decides: where the accepted change decides the field, the
      baseline must not already hold its postimage behind the cache's back; where only the
      optimistic change did, the baseline must hold the authoritative value. */
  ghost predicate SettlesExactly(base: Option<Row>, baseline: Option<Row>, optimistic: EntityChange,
                                 accepted: EntityChange, later: seq<EntityChange>) {
    forall f | !SetBy(later, f) ::
      if accepted.Sets(f)
      then !optimistic.Sets(f) && Cell(baseline, f) == Cell(accepted.after, f) ==>
          Cell(base, f) == Cell(accepted.after, f)
      else optimistic.Sets(f) ==> Cell(baseline, f) == Cell(base, f)
  }

  lemma PatchFromPreimage(c: EntityChange)
    ensures PatchRow(c.before, c, true) == Patched(c.after)
  {
    if !c.Whole() {
      forall g ensures Cell(Force(c.before, c), g) == Cell(c.after, g) {
        ForceCell(c.before, c, g);
      }
      RowsEqual(Force(c.before, c), c.after);
    }
  }

  /** Acknowledging an update: if the settled patch is accepted, the cached row becomes the
      confirmed row under the later changes exactly on the stated condition. */
  lemma SettleUpdate(base: Option<Row>, optimistic: EntityChange, priors: seq<Row>, accepted: EntityChange,
                     later: seq<EntityChange>)
    requires !optimistic.Whole() && !accepted.Whole()
    requires Hits(base, [optimistic] + later)
    requires Settlement(Some(optimistic), priors, accepted, later).Some?
    requires var current := Fold(base, [optimistic] + later);
             PatchRow(current, Settlement(Some(optimistic), priors, accepted, later).value, true).Patched?
    ensures PatchRow(Fold(base, [optimistic] + later), Settlement(Some(optimistic), priors, accepted, later).value,
                     true).row
            == Fold(base, [accepted] + later)
            <==> SettlesExactly(base, Baseline(Some(optimistic), priors, accepted), optimistic, accepted, later)
  {
    var baseline := Baseline(Some(optimistic), priors, accepted);
    var s := Settlement(Some(optimistic), priors, accepted, later).value;
    var current := Fold(base, [optimistic] + later);
    var target := Fold(base, [accepted] + later);
    var result := PatchRow(current, s, true).row;
    FoldOne(base, optimistic, later);
    FoldOne(base, accepted, later);
    FoldOne(baseline, optimistic, later);
    FoldOne(baseline, accepted, later);
    forall f
      ensures result.Some? == target.Some?
      ensures Cell(result, f) == Cell(target, f) <==>
              (SetBy(later, f) ||
               if accepted.Sets(f)
               then !optimistic.Sets(f) && Cell(baseline, f) == Cell(accepted.after, f) ==>
                   Cell(base, f) == Cell(accepted.after, f)
               else optimistic.Sets(f) ==> Cell(baseline, f) == Cell(base, f))
    {
      SettledCell(base, baseline, optimistic, accepted, later, f);
    }
    if forall f :: Cell(result, f) == Cell(target, f) {
      RowsEqual(result, target);
    }
  }

  lemma SettledCell(base: Option<Row>, baseline: Option<Row>, optimistic: EntityChange, accepted: EntityChange,
                    later: seq<EntityChange>, f: Field)
    requires !optimistic.Whole() && !accepted.Whole() && base.Some? && baseline.Some?
    requires Hits(Force(base, optimistic), later)
    requires var s := EntityChange(accepted.key, Fold(Force(baseline, optimistic), later),
                                   Fold(Force(baseline, accepted), later));
             PatchRow(Fold(Force(base, optimistic), later), s, true).Patched?
    ensures var s := EntityChange(accepted.key, Fold(Force(baseline, optimistic), later),
                                  Fold(Force(baseline, accepted), later));
            var result := PatchRow(Fold(Force(base, optimistic), later), s, true).row;
            var target := Fold(Force(base, accepted), later);
            result.Some? == target.Some? &&
            (Cell(result, f) == Cell(target, f) <==>
             (SetBy(later, f) ||
              if accepted.Sets(f)
              then !optimistic.Sets(f) && Cell(baseline, f) == Cell(accepted.after, f) ==>
                  Cell(base, f) == Cell(accepted.after, f)
              else optimistic.Sets(f) ==> Cell(baseline, f) == Cell(base, f)))
  {
    var o, a := Force(base, optimistic), Force(base, accepted);
    var bo, ba := Force(baseline, optimistic), Force(baseline, accepted);
    FoldCell(o, a, later, f);
    FoldCell(o, bo, later, f);
    FoldCell(o, ba, later, f);
    ForceCell(base, optimistic, f);
    ForceCell(base, accepted, f);
    ForceCell(baseline, optimistic, f);
    ForceCell(baseline, accepted, f);
    var s := EntityChange(accepted.key, Fold(bo, later), Fold(ba, later));
    ForceCell(Fold(o, later), s, f);
  }

  /** Acknowledging a creation or a deletion always settles exactly. */
  lemma SettleWhole(base: Option<Row>, optimistic: EntityChange, priors: seq<Row>, accepted: EntityChange,
                    later: seq<EntityChange>)
    requires optimistic.Whole() && SameShape(optimistic, accepted)
    requires Hits(base, [optimistic] + later)
    ensures Settlement(Some(optimistic), priors, accepted, later).Some?
    ensures PatchRow(Fold(base, [optimistic] + later), Settlement(Some(optimistic), priors, accepted, later).value,
                     true)
            == Patched(Fold(base, [accepted] + later))
  {
    var baseline := Baseline(Some(optimistic), priors, accepted);
    FoldOne(base, optimistic, later);
    FoldOne(base, accepted, later);
    FoldOne(baseline, optimistic, later);
    FoldOne(baseline, accepted, later);
    FoldCell(optimistic.after, accepted.after, later, "");
    PatchFromPreimage(Settlement(Some(optimistic), priors, accepted, later).value);
  }

  /** A server-side change to an entity with no pending change settles as itself. */
  lemma SettleForeign(priors: seq<Row>, accepted: EntityChange)
    ensures Settlement(None, priors, accepted, []) == Some(accepted)
  {
    var none: seq<EntityChange> := [];
    assert [accepted] + none == [accepted] && none + none == none;
    FoldOne(accepted.before, accepted, none);
    PatchFromPreimage(accepted);
  }

  function Status(v: Value): Option<Row> {
    Some(map["status" := v])
  }

  function Note(note: Option<Value>, v: Value): Option<Row> {
    Some(if note.Some? then map["note" := note.value, "status" := v] else map["status" := v])
  }

  lemma FoldSingle(row: Option<Row>, c: EntityChange)
    ensures Fold(row, [c]) == Force(row, c) && (Hits(row, [c]) <==> c.Whole() || row.Some?)
  {
    assert [c] + [] == [c];
    FoldOne(row, c, []);
  }

  /** An edit of a note that was made before the receipt which removed the note. */
  function NoteEdit(): EntityChange {
    EntityChange(EntityKey("actions", "a1"), Some(map["note" := "old"]), Some(map["note" := "mine"]))
  }

  function StatusReceipt(): EntityChange {
    EntityChange(EntityKey("actions", "a1"), Status("todo"), Status("doing"))
  }

  lemma NoteBaseline()
    ensures Baseline(Some(NoteEdit()), [map["status" := "todo"]], StatusReceipt()) == Note(Some("old"), "todo")
  {
    var priors: seq<Row> := [map["status" := "todo"]];
    assert priors[..0] == [];
    RowsEqual(Baseline(Some(NoteEdit()), priors, StatusReceipt()), Note(Some("old"), "todo"));
  }

  lemma NoteEdited(note: Option<Value>)
    ensures Force(Note(note, "todo"), NoteEdit()) == Note(Some("mine"), "todo")
  {
    RowsEqual(Force(Note(note, "todo"), NoteEdit()), Note(Some("mine"), "todo"));
  }

  lemma StatusReceived(note: Option<Value>)
    ensures Force(Note(note, "todo"), StatusReceipt()) == Note(note, "doing")
  {
    RowsEqual(Force(Note(note, "todo"), StatusReceipt()), Note(note, "doing"));
  }

  /** Where an acknowledgement does not leave the confirmed row: a predecessor's receipt removed a
      field that the optimistic change writes, and the receipt leaves the field alone. Merging the
      predecessors' rows into the baseline cannot remove it, so the settlement brings back the value
      from before both. */
  lemma SettlementRevivesRemovedField()
    ensures var s := Settlement(Some(NoteEdit()), [map["status" := "todo"]], StatusReceipt(), []);
            && Fold(Status("todo"), [NoteEdit()]) == Note(Some("mine"), "todo")
            && s.Some? && PatchRow(Note(Some("mine"), "todo"), s.value, true) == Patched(Note(Some("old"), "doing"))
            && Fold(Status("todo"), [StatusReceipt()]) == Status("doing")
  {
    NoteBaseline();
    NoteEdited(Some("old"));
    NoteEdited(None);
    StatusReceived(Some("old"));
    StatusReceived(None);
    var baseline := Note(Some("old"), "todo");
    var none: seq<EntityChange> := [];
    assert [NoteEdit()] + none == [NoteEdit()] && [StatusReceipt()] + none == [StatusReceipt()];
    FoldSingle(baseline, NoteEdit());
    FoldSingle(baseline, StatusReceipt());
    FoldSingle(Status("todo"), NoteEdit());
    FoldSingle(Status("todo"), StatusReceipt());
    PatchFromPreimage(EntityChange(EntityKey("actions", "a1"), Note(Some("mine"), "todo"), Note(Some("old"), "doing")));
  }

  // ---------------------------------------------------------------------------------------
  // Rejection
  // ---------------------------------------------------------------------------------------

  /** The fields of a restored preimage that an accepted predecessor decided follow its receipt. */
  function OverlayAccepted(row: Row, accepted: EntityChange): Row {
    if accepted.after.None? then row
    else map f | f in row && (f in accepted.after.value || accepted.before.None? || f !in accepted.before.value)
         :: if f in accepted.after.value then accepted.after.value[f] else row[f]
  }

  function OverlayAll(row: Row, accepted: seq<EntityChange>): Row {
    if accepted == [] then row
    else OverlayAccepted(OverlayAll(row, accepted[..|accepted| - 1]), accepted[|accepted| - 1])
  }

  /** The inverse that a rejection applies. */
  function Rollback(c: EntityChange, accepted: seq<EntityChange>): EntityChange {
    EntityChange(c.key, c.after, if c.before.None? then None else Some(OverlayAll(c.before.value, accepted)))
  }

  /** The loop over the restored fields. */
  method OverlayFields(row: Row, prior: EntityChange) returns (after: Row)
    ensures after == OverlayAccepted(row, prior)
  {
    after := row;
    if prior.after.Some? {
      var todo := row.Keys;
      while todo != {}
        invariant todo <= row.Keys
        invariant forall f :: Cell(Some(after), f) ==
                    if f in row.Keys - todo then Cell(Some(OverlayAccepted(row, prior)), f) else Cell(Some(row), f)
        decreases todo
      {
        var f :| f in todo;
        if f in prior.after.value {
          after := after[f := prior.after.value[f]];
        } else if prior.before.Some? && f in prior.before.value {
          after := after - {f};
        }
        todo := todo - {f};
      }
      RowsEqual(Some(after), Some(OverlayAccepted(row, prior)));
    }
  }

  /** The loop over the confirmed predecessors. */
  method RollbackChange(c: EntityChange, accepted: seq<EntityChange>) returns (r: EntityChange)
    ensures r == Rollback(c, accepted)
  {
    if c.before.None? {
      return c.Reversed();
    }
    var after := c.before.value;
    for n := 0 to |accepted|
      invariant after == OverlayAll(c.before.value, accepted[..n])
    {
      assert accepted[..n + 1][..n] == accepted[..n];
      after := OverlayFields(after, accepted[n]);
    }
    assert accepted[..|accepted|] == accepted;
    return EntityChange(c.key, c.after, Some(after));
  }

  /** Inverses are applied last change first, each under its check; None where one is refused. */
  function Unwind(current: Option<Row>, inverses: seq<EntityChange>): Option<Option<Row>>
    decreases |inverses|
  {
    if inverses == [] then Some(current)
    else match PatchRow(current, inverses[|inverses| - 1], true)
         case Patched(row) => Unwind(row, inverses[..|inverses| - 1])
         case _ => None
  }

  /** The first change of the list that names the field. */
  function FirstNamer(cs: seq<EntityChange>, f: Field): (r: Option<nat>)
    ensures r.Some? ==> r.value < |cs| && cs[r.value].Names(f) && forall i | 0 <= i < r.value :: !cs[i].Names(f)
    ensures r.None? ==> forall i | 0 <= i < |cs| :: !cs[i].Names(f)
  {
    if cs == [] then None
    else match FirstNamer(cs[..|cs| - 1], f)
         case Some(i) => Some(i)
         case None => if cs[|cs| - 1].Names(f) then Some(|cs| - 1) else None
  }

  lemma {:induction false} UnwindCell(current: Option<Row>, inverses: seq<EntityChange>, f: Field)
    requires Unwind(current, inverses).Some?
    ensures var row := Unwind(current, inverses).value;
            && Cell(row, f) == (match FirstNamer(inverses, f)
                                case Some(i) => Cell(inverses[i].after, f)
                                case None => Cell(current, f))
            && row.Some? == if inverses == [] then current.Some? else inverses[0].after.Some?
    decreases |inverses|
  {
    if inverses != [] {
      var init, last := inverses[..|inverses| - 1], inverses[|inverses| - 1];
      CheckedCell(current, last, f);
      UnwindCell(PatchRow(current, last, true).row, init, f);
    }
  }

  /** Where a rejection does not give the kept row back: a change is withdrawn (with another root)
      whose confirmed predecessor and whose still pending predecessor both decided the field. The
      confirmed value is restored over the pending one. */
  lemma RollbackOverridesPending()
    ensures var key := EntityKey("actions", "a1");
            var confirmed := EntityChange(key, Status("todo"), Status("doing"));
            var pending := EntityChange(key, Status("doing"), Status("waiting"));
            var withdrawn := EntityChange(key, Status("waiting"), Status("done"));
            && Fold(Status("doing"), [pending]) == Status("waiting")
            && Fold(Status("doing"), [pending, withdrawn]) == Status("done")
            && Unwind(Status("done"), [Rollback(withdrawn, [confirmed])]) == Some(Status("doing"))
  {
    var key := EntityKey("actions", "a1");
    var confirmed := EntityChange(key, Status("todo"), Status("doing"));
    var pending := EntityChange(key, Status("doing"), Status("waiting"));
    var withdrawn := EntityChange(key, Status("waiting"), Status("done"));
    var none: seq<EntityChange> := [];
    assert [pending, withdrawn][..1] == [pending] && [pending][..0] == none;
    PatchFromPreimage(pending);
    PatchFromPreimage(withdrawn);
    assert [confirmed][..0] == none;
    assert OverlayAll(withdrawn.before.value, none) == withdrawn.before.value;
    var back := Rollback(withdrawn, [confirmed]);
    RowsEqual(back.after, Status("doing"));
    assert [back][..0] == none;
    PatchFromPreimage(back);
  }

  /** Another one: a confirmed predecessor removed a field and a later confirmed predecessor brought
      it back. Withdrawing a change of the field restores neither value: the field is gone. */
  lemma RollbackDropsReturnedField()
    ensures var key := EntityKey("actions", "a1");
            var removed := EntityChange(key, Note(Some("old"), "todo"), Note(None, "todo"));
            var returned := EntityChange(key, Note(None, "todo"), Note(Some("new"), "todo"));
            var withdrawn := EntityChange(key, Note(Some("new"), "todo"), Note(Some("mine"), "todo"));
            && Fold(Note(Some("old"), "todo"), [removed, returned]) == Note(Some("new"), "todo")
            && Unwind(Note(Some("mine"), "todo"), [Rollback(withdrawn, [removed, returned])])
               == Some(Note(None, "todo"))
  {
    var key := EntityKey("actions", "a1");
    var removed := EntityChange(key, Note(Some("old"), "todo"), Note(None, "todo"));
    var returned := EntityChange(key, Note(None, "todo"), Note(Some("new"), "todo"));
    var withdrawn := EntityChange(key, Note(Some("new"), "todo"), Note(Some("mine"), "todo"));
    var none: seq<EntityChange> := [];
    assert [removed, returned][..1] == [removed] && [removed][..0] == none;
    PatchFromPreimage(removed);
    PatchFromPreimage(returned);
    assert Fold(Note(Some("old"), "todo"), [removed]) == Force(Note(Some("old"), "todo"), removed) == removed.after;
    var row := withdrawn.before.value;
    assert OverlayAll(row, none) == row && OverlayAll(row, [removed]) == OverlayAccepted(row, removed);
    var back := Rollback(withdrawn, [removed, returned]);
    RowsEqual(Some(OverlayAccepted(row, removed)), Note(None, "todo"));
    RowsEqual(back.after, Note(None, "todo"));
    assert [back][..0] == none;
    PatchFromPreimage(back);
  }

  // ---------------------------------------------------------------------------------------
  // Rebuilding a cleared cache
  // ---------------------------------------------------------------------------------------

  /** The receipt says what the field holds now. */
  predicate Decides(accepted: EntityChange, f: Field) {
    accepted.after.Some? && (f in accepted.after.value || (accepted.before.Some? && f in accepted.before.value))
  }

  /** What a receipt says a field now holds; a field it does not mention keeps what it held. */
  function Follow(accepted: EntityChange, f: Field, held: Option<Value>): Option<Value>
    requires accepted.after.Some?
  {
    if f in accepted.after.value then Some(accepted.after.value[f])
    else if accepted.before.Some? && f in accepted.before.value then None
    else held
  }

  function RebasedBefore(c: EntityChange, accepted: EntityChange, f: Field): Option<Value>
    requires accepted.after.Some?
  {
    if f == "id" then Cell(c.before, f) else Follow(accepted, f, Cell(c.before, f))
  }

  /** A field the change left alone follows the receipt; a field it changed keeps its new value. */
  function RebasedAfter(c: EntityChange, accepted: EntityChange, f: Field): Option<Value>
    requires accepted.after.Some?
  {
    if f != "id" && Cell(c.before, f) == Cell(c.after, f) then RebasedBefore(c, accepted, f) else Cell(c.after, f)
  }

  /** One receipt moved under one retained change. */
  function RebaseOver(c: EntityChange, accepted: EntityChange): EntityChange {
    if c.before.None? || accepted.after.None? then c
    else if c.after.None? then EntityChange(c.key, Force(c.before, accepted), None)
    else
      var keys := c.before.value.Keys + c.after.value.Keys;
      EntityChange(c.key,
        Some(map f | f in keys && RebasedBefore(c, accepted, f).Some? :: RebasedBefore(c, accepted, f).value),
        Some(map f | f in keys && RebasedAfter(c, accepted, f).Some? :: RebasedAfter(c, accepted, f).value))
  }

  function Rebase(c: EntityChange, accepted: seq<EntityChange>): EntityChange {
    if accepted == [] then c else RebaseOver(Rebase(c, accepted[..|accepted| - 1]), accepted[|accepted| - 1])
  }

  /** The loop over the fields of one retained update. */
  method RebaseFields(c: EntityChange, accepted: EntityChange) returns (r: EntityChange)
    requires !c.Whole() && accepted.after.Some?
    ensures r == RebaseOver(c, accepted)
  {
    var before, after := c.before.value, c.after.value;
    var keys := before.Keys + after.Keys;
    var todo := keys;
    while todo != {}
      invariant todo <= keys
      invariant forall f :: Cell(Some(before), f) ==
                  if f in keys - todo then RebasedBefore(c, accepted, f) else Cell(c.before, f)
      invariant forall f :: Cell(Some(after), f) ==
                  if f in keys - todo then RebasedAfter(c, accepted, f) else Cell(c.after, f)
      decreases todo
    {
      var f :| f in todo;
      if f != "id" {
        var untouched := Cell(Some(before), f) == Cell(Some(after), f);
        if f in accepted.after.value {
          before := before[f := accepted.after.value[f]];
        } else if accepted.before.Some? && f in accepted.before.value {
          before := before - {f};
        }
        if untouched {
          if f in before {
            after := after[f := before[f]];
          } else {
            after := after - {f};
          }
        }
      }
      todo := todo - {f};
    }
    r := EntityChange(c.key, Some(before), Some(after));
    RowsEqual(r.before, RebaseOver(c, accepted).before);
    RowsEqual(r.after, RebaseOver(c, accepted).after);
  }

  /** A rebased change never sets a field that the original left alone, and never to another value. */
  lemma {:induction false} RebaseKeepsIntent(c: EntityChange, accepted: seq<EntityChange>, f: Field)
    ensures SameShape(Rebase(c, accepted), c) && Rebase(c, accepted).key == c.key
    ensures Rebase(c, accepted).Names(f) ==> c.Names(f)
    ensures Rebase(c, accepted).Sets(f) ==> c.Sets(f) && Cell(Rebase(c, accepted).after, f) == Cell(c.after, f)
    decreases |accepted|
  {
    if accepted != [] {
      RebaseKeepsIntent(c, accepted[..|accepted| - 1], f);
    }
  }

  /** Replaying one rebased change gives the row that replaying the original would have given,
      exactly when every field that rebasing dropped already holds the original's new value. */
  lemma RebaseExact(row: Option<Row>, c: EntityChange, accepted: seq<EntityChange>)
    requires PatchRow(row, Rebase(c, accepted), true).Patched?
    ensures PatchRow(row, Rebase(c, accepted), true).row == Force(row, c)
            <==> forall f | c.Sets(f) && !Rebase(c, accepted).Sets(f) :: Cell(row, f) == Cell(c.after, f)
  {
    var r := Rebase(c, accepted);
    RebaseKeepsIntent(c, accepted, "");
    if !c.Whole() {
      var result, want := Force(row, r), Force(row, c);
      forall f
        ensures Cell(result, f) == Cell(want, f)
                <==> (c.Sets(f) && !r.Sets(f) ==> Cell(row, f) == Cell(c.after, f))
      {
        RebaseKeepsIntent(c, accepted, f);
        ForceCell(row, r, f);
        ForceCell(row, c, f);
      }
      if forall f :: Cell(result, f) == Cell(want, f) {
        RowsEqual(result, want);
      }
    }
  }

  /** Retained changes are replayed in order, each under its check. */
  function Rebuild(row: Option<Row>, cs: seq<EntityChange>): Option<Option<Row>>
    decreases |cs|
  {
    if cs == [] then Some(row)
    else match Rebuild(row, cs[..|cs| - 1])
         case None => None
         case Some(below) =>
           match PatchRow(below, cs[|cs| - 1], true)
           case Patched(r) => Some(r)
           case _ => None
  }

  function RebaseEach(cs: seq<EntityChange>, accepted: seq<seq<EntityChange>>): (r: seq<EntityChange>)
    requires |accepted| == |cs|
    ensures |r| == |cs| && forall i | 0 <= i < |cs| :: r[i] == Rebase(cs[i], accepted[i])
  {
    seq(|cs|, i requires 0 <= i < |cs| => Rebase(cs[i], accepted[i]))
  }

  /** What the receipts that a retained update is rebased over make of one of its fields: it is named no
      more, it follows the receipts, or its new value is still wanted over the one they hold. */
  datatype Fate = Gone | Merged(value: Value) | Wanted(held: Option<Value>)

  function Merge(value: Option<Value>): Fate {
    if value.None? then Gone else Merged(value.value)
  }

  function FateOf(c: EntityChange, accepted: seq<EntityChange>, f: Field): Fate {
    if accepted == [] then
      if Cell(c.before, f) == Cell(c.after, f) then Merge(Cell(c.before, f)) else Wanted(Cell(c.before, f))
    else
      var below, last := FateOf(c, accepted[..|accepted| - 1], f), accepted[|accepted| - 1];
      if last.after.None? || f == "id" then below
      else match below
           case Gone => Gone
           case Merged(v) => Merge(Follow(last, f, Some(v)))
           case Wanted(held) =>
             if Follow(last, f, held) == Cell(c.after, f) then Merge(Cell(c.after, f))
               else Wanted(Follow(last, f, held))
  }

  lemma {:induction false} RebasedField(c: EntityChange, accepted: seq<EntityChange>, f: Field)
    requires !c.Whole()
    ensures var r := Rebase(c, accepted);
            && !r.Whole()
            && match FateOf(c, accepted, f)
               case Gone => !r.Names(f)
               case Merged(v) => Cell(r.before, f) == Some(v) && Cell(r.after, f) == Some(v)
               case Wanted(held) => r.Sets(f) && Cell(r.before, f) == held && Cell(r.after, f) == Cell(c.after, f)
    decreases |accepted|
  {
    if accepted != [] {
      RebasedField(c, accepted[..|accepted| - 1], f);
    }
  }

  /** A retained deletion expects the row as the receipts leave it. */
  function Surviving(row: Option<Row>, accepted: seq<EntityChange>): Option<Row> {
    if accepted == [] then row
    else
      var below, last := Surviving(row, accepted[..|accepted| - 1]), accepted[|accepted| - 1];
      if row.None? || last.after.None? then below else Force(below, last)
  }

  lemma {:induction false} RebasedWhole(c: EntityChange, accepted: seq<EntityChange>)
    requires c.Whole()
    ensures Rebase(c, accepted).Whole() && Rebase(c, accepted).after == c.after
    ensures Rebase(c, accepted).before == if c.before.None? then None else Surviving(c.before, accepted)
    decreases |accepted|
  {
    if accepted != [] {
      RebasedWhole(c, accepted[..|accepted| - 1]);
      RebaseKeepsIntent(c, accepted[..|accepted| - 1], "");
    }
  }

  /** The rebased change fits the row, in terms of the receipts: a field that follows them is where they
      left it, and one that is still wanted is where they left it or already new. */
  ghost predicate Admissible(row: Option<Row>, c: EntityChange, accepted: seq<EntityChange>) {
    if c.Whole() then row == c.after || row == if c.before.None? then None else Surviving(c.before, accepted)
    else row.Some? && forall f :: FieldAdmits(row, c, accepted, f)
  }

  ghost predicate FieldAdmits(row: Option<Row>, c: EntityChange, accepted: seq<EntityChange>, f: Field) {
    match FateOf(c, accepted, f)
    case Gone => true
    case Merged(v) => Cell(row, f) == Some(v)
    case Wanted(held) => Cell(row, f) == held || Cell(row, f) == Cell(c.after, f)
  }

  /** A rebased change is accepted exactly when it is admissible. */
  lemma RebaseAccepted(row: Option<Row>, c: EntityChange, accepted: seq<EntityChange>)
    ensures PatchRow(row, Rebase(c, accepted), true).Patched? <==> Admissible(row, c, accepted)
  {
    if c.Whole() {
      RebasedWhole(c, accepted);
    } else {
      RebaseKeepsIntent(c, accepted, "");
      forall f ensures
        (Rebase(c, accepted).Names(f) ==>
           Cell(row, f) == Cell(Rebase(c, accepted).before, f) || Cell(row, f) == Cell(Rebase(c, accepted).after, f))
        <==> FieldAdmits(row, c, accepted, f)
      {
        RebasedField(c, accepted, f);
      }
    }
  }

  /** The rebased change is accepted and does what the original would have done. */
  ghost predicate Rebases(row: Option<Row>, c: EntityChange, accepted: seq<EntityChange>) {
    && Admissible(row, c, accepted)
    && (!c.Whole() ==> forall f | c.Sets(f) && !FateOf(c, accepted, f).Wanted? :: Cell(row, f) == Cell(c.after, f))
  }

  lemma RebasesExactly(row: Option<Row>, c: EntityChange, accepted: seq<EntityChange>)
    ensures PatchRow(row, Rebase(c, accepted), true) == Patched(Force(row, c)) <==> Rebases(row, c, accepted)
  {
    RebaseAccepted(row, c, accepted);
    if Admissible(row, c, accepted) {
      RebaseExact(row, c, accepted);
      if c.Whole() {
        RebasedWhole(c, accepted);
      } else {
        forall f ensures Rebase(c, accepted).Sets(f) <==> FateOf(c, accepted, f).Wanted? {
          RebasedField(c, accepted, f);
        }
      }
    }
  }

  /** A retained chain, each change rebased over its own receipts, is replayed over the authoritative row
      of whatever revision without refusal and change by change as the original chain would be, exactly
      when every change fits the row below it and drops no field that is not already there. */
  lemma {:induction false} RebuildExact(row: Option<Row>, cs: seq<EntityChange>, accepted: seq<seq<EntityChange>>)
    requires |accepted| == |cs|
    ensures (forall n | 0 <= n <= |cs| :: Rebuild(row, RebaseEach(cs, accepted)[..n]) == Some(Fold(row, cs[..n])))
            <==> forall i | 0 <= i < |cs| :: Rebases(Fold(row, cs[..i]), cs[i], accepted[i])
    decreases |cs|
  {
    var rs := RebaseEach(cs, accepted);
    if forall n | 0 <= n <= |cs| :: Rebuild(row, rs[..n]) == Some(Fold(row, cs[..n])) {
      forall i | 0 <= i < |cs| ensures Rebases(Fold(row, cs[..i]), cs[i], accepted[i]) {
        assert Rebuild(row, rs[..i]) == Some(Fold(row, cs[..i]))
               && Rebuild(row, rs[..i + 1]) == Some(Fold(row, cs[..i + 1]));
        NextRebuilt(row, cs, accepted, i);
      }
    }
    if forall i | 0 <= i < |cs| :: Rebases(Fold(row, cs[..i]), cs[i], accepted[i]) {
      forall n | 0 <= n <= |cs| ensures Rebuild(row, rs[..n]) == Some(Fold(row, cs[..n])) {
        RebuiltUpTo(row, cs, accepted, n);
      }
    }
  }

  lemma NextRebuilt(row: Option<Row>, cs: seq<EntityChange>, accepted: seq<seq<EntityChange>>, i: nat)
    requires |accepted| == |cs| && i < |cs| && Rebuild(row, RebaseEach(cs, accepted)[..i]) == Some(Fold(row, cs[..i]))
    ensures Rebuild(row, RebaseEach(cs, accepted)[..i + 1]) == Some(Fold(row, cs[..i + 1]))
            <==> Rebases(Fold(row, cs[..i]), cs[i], accepted[i])
  {
    var rs := RebaseEach(cs, accepted);
    assert rs[..i + 1][..i] == rs[..i] && cs[..i + 1][..i] == cs[..i];
    RebasesExactly(Fold(row, cs[..i]), cs[i], accepted[i]);
  }

  lemma {:induction false} RebuiltUpTo(row: Option<Row>, cs: seq<EntityChange>, accepted: seq<seq<EntityChange>>,
                                       n: nat)
    requires |accepted| == |cs| && n <= |cs|
    requires forall i | 0 <= i < |cs| :: Rebases(Fold(row, cs[..i]), cs[i], accepted[i])
    ensures Rebuild(row, RebaseEach(cs, accepted)[..n]) == Some(Fold(row, cs[..n]))
    decreases n
  {
    if n > 0 {
      RebuiltUpTo(row, cs, accepted, n - 1);
      NextRebuilt(row, cs, accepted, n - 1);
    }
  }

  // ---------------------------------------------------------------------------------------
  // Rebasing over retained commands
  // ---------------------------------------------------------------------------------------

  /** A chain that no receipt has reached is rebased all the same: each change over the earlier ones of
      the chain, as they were rebased themselves. */
  function RebaseChain(cs: seq<EntityChange>): (r: seq<EntityChange>)
    ensures |r| == |cs|
  {
    if cs == [] then []
    else RebaseChain(cs[..|cs| - 1]) + [Rebase(cs[|cs| - 1], RebaseChain(cs[..|cs| - 1]))]
  }

  lemma {:induction false} RebaseChainAt(cs: seq<EntityChange>, n: nat)
    requires n <= |cs|
    ensures RebaseChain(cs)[..n] == RebaseChain(cs[..n])
    ensures n < |cs| ==> RebaseChain(cs)[n] == Rebase(cs[n], RebaseChain(cs[..n]))
    decreases |cs|
  {
    if n < |cs| {
      var init := cs[..|cs| - 1];
      RebaseChainAt(init, n);
      assert init[..n] == cs[..n];
    } else {
      assert cs[..n] == cs;
    }
  }

  /** What the last of the changes to decide the field leaves in it. */
  function LeftLast(cs: seq<EntityChange>, f: Field, held: Option<Value>): Option<Value> {
    if cs == [] then held
    else if Decides(cs[|cs| - 1], f) then Cell(cs[|cs| - 1].after, f)
    else LeftLast(cs[..|cs| - 1], f, held)
  }

  /** One of the changes decides the field and leaves this value. */
  predicate LeftBefore(cs: seq<EntityChange>, f: Field, v: Option<Value>) {
    exists i | 0 <= i < |cs| :: Decides(cs[i], f) && Cell(cs[i].after, f) == v
  }

  lemma LeftOneMore(cs: seq<EntityChange>, f: Field, v: Option<Value>)
    requires cs != []
    ensures var last := cs[|cs| - 1];
            LeftBefore(cs, f, v) <==> LeftBefore(cs[..|cs| - 1], f, v) || (Decides(last, f) && Cell(last.after, f) == v)
  {
    var init := cs[..|cs| - 1];
    if LeftBefore(cs, f, v) {
      var i :| 0 <= i < |cs| && Decides(cs[i], f) && Cell(cs[i].after, f) == v;
      assert i < |init| ==> init[i] == cs[i];
    }
    if LeftBefore(init, f, v) {
      var i :| 0 <= i < |init| && Decides(init[i], f) && Cell(init[i].after, f) == v;
      assert cs[i] == init[i];
    }
  }

  /** The new value of a field is still wanted after rebasing exactly when none of the changes rebased over
      left it there, and then over what the last of them left. */
  lemma {:induction false} StillWanted(c: EntityChange, over: seq<EntityChange>, f: Field)
    requires !c.Whole() && c.Sets(f) && f != "id"
    ensures FateOf(c, over, f).Wanted? <==> !LeftBefore(over, f, Cell(c.after, f))
    ensures FateOf(c, over, f).Wanted? ==>
              FateOf(c, over, f).held == LeftLast(over, f, Cell(c.before, f))
                && FateOf(c, over, f).held != Cell(c.after, f)
    decreases |over|
  {
    if over != [] {
      StillWanted(c, over[..|over| - 1], f);
      LeftOneMore(over, f, Cell(c.after, f));
    }
  }

  /** A field that the change names and leaves alone follows them, as long as it is named. */
  lemma {:induction false} FollowsLast(c: EntityChange, over: seq<EntityChange>, f: Field)
    requires !c.Whole() && !c.Sets(f) && f != "id"
    ensures match FateOf(c, over, f)
            case Gone => true
            case Merged(v) => Some(v) == LeftLast(over, f, Cell(c.before, f))
            case Wanted(_) => false
    decreases |over|
  {
    if over != [] {
      FollowsLast(c, over[..|over| - 1], f);
    }
  }

  lemma {:induction false} IdentityStays(c: EntityChange, over: seq<EntityChange>)
    requires !c.Whole()
    ensures FateOf(c, over, "id") == if c.Sets("id") then Wanted(Cell(c.before, "id")) else Merge(Cell(c.before, "id"))
    decreases |over|
  {
    if over != [] {
      IdentityStays(c, over[..|over| - 1]);
    }
  }

  /** Each change was made on the row under the earlier ones. */
  ghost predicate Sits(base: Option<Row>, cs: seq<EntityChange>) {
    forall i | 0 <= i < |cs| :: Fits(Fold(base, cs[..i]), cs[i])
  }

  /** The changes replayed up to here did what the original ones did. */
  ghost predicate Exactly(base: Option<Row>, cs: seq<EntityChange>, over: seq<EntityChange>, n: nat)
    requires n <= |cs| == |over|
  {
    forall i | 0 <= i < n :: PatchRow(Fold(base, cs[..i]), over[i], true) == Patched(Fold(base, cs[..i + 1]))
  }

  /** A field that the row has holds what the last replayed change to decide it left. */
  lemma {:induction false} LastIsRow(base: Option<Row>, cs: seq<EntityChange>, over: seq<EntityChange>, n: nat,
                                     f: Field)
    requires n <= |cs| == |over| && Exactly(base, cs, over, n)
    requires Cell(Fold(base, cs[..n]), f).Some?
    ensures LeftLast(over[..n], f, Cell(Fold(base, cs[..n]), f)) == Cell(Fold(base, cs[..n]), f)
    decreases n
  {
    if n > 0 {
      var row, r := Fold(base, cs[..n - 1]), over[n - 1];
      assert PatchRow(row, r, true) == Patched(Fold(base, cs[..n]));
      assert over[..n][..n - 1] == over[..n - 1];
      if !Decides(r, f) {
        CheckedCell(row, r, f);
        LastIsRow(base, cs, over, n - 1, f);
      } else {
        CheckedCell(row, r, f);
      }
    }
  }

  /** What a deletion expects after rebasing has in every field what the row has or what it had. */
  lemma {:induction false} SurvivingOrRow(base: Option<Row>, cs: seq<EntityChange>, over: seq<EntityChange>, n: nat,
                                          x: Row, f: Field)
    requires n <= |cs| == |over| && Exactly(base, cs, over, n) && Fold(base, cs[..n]).Some?
    ensures var s := Surviving(Some(x), over[..n]);
            s.Some? && (Cell(s, f) == Cell(Fold(base, cs[..n]), f) || Cell(s, f) == Cell(Some(x), f))
    decreases n
  {
    if n > 0 {
      var row, r := Fold(base, cs[..n - 1]), over[n - 1];
      assert PatchRow(row, r, true) == Patched(Fold(base, cs[..n]));
      assert over[..n][..n - 1] == over[..n - 1];
      CheckedCell(row, r, f);
      if !r.Whole() {
        SurvivingOrRow(base, cs, over, n - 1, x, f);
        ForceCell(Surviving(Some(x), over[..n - 1]), r, f);
      }
    }
  }

  lemma DeletionFits(base: Option<Row>, cs: seq<EntityChange>, over: seq<EntityChange>, n: nat)
    requires n <= |cs| == |over| && Exactly(base, cs, over, n) && Fold(base, cs[..n]).Some?
    ensures Surviving(Fold(base, cs[..n]), over[..n]) == Fold(base, cs[..n])
  {
    var row := Fold(base, cs[..n]);
    SurvivingOrRow(base, cs, over, n, row.value, "");
    forall f ensures Cell(Surviving(row, over[..n]), f) == Cell(row, f) {
      SurvivingOrRow(base, cs, over, n, row.value, f);
    }
    RowsEqual(Surviving(row, over[..n]), row);
  }

  /** None of the changes that the update is rebased over left the new value of a field it sets, and the last
      of them to decide the field left the value it was made on. */
  ghost predicate Unopposed(c: EntityChange, over: seq<EntityChange>) {
    c.Whole() || forall f :: FieldUnopposed(c, over, f)
  }

  ghost predicate FieldUnopposed(c: EntityChange, over: seq<EntityChange>, f: Field) {
    f != "id" && c.Sets(f) ==>
      !LeftBefore(over, f, Cell(c.after, f)) && LeftLast(over, f, Cell(c.before, f)) == Cell(c.before, f)
  }

  lemma RetainedField(base: Option<Row>, cs: seq<EntityChange>, over: seq<EntityChange>, n: nat, f: Field)
    requires n < |cs| == |over| && Exactly(base, cs, over, n)
    requires !cs[n].Whole() && Fits(Fold(base, cs[..n]), cs[n])
    ensures FieldRebases(Fold(base, cs[..n]), cs[n], over[..n], f) <==> FieldUnopposed(cs[n], over[..n], f)
  {
    var row, c := Fold(base, cs[..n]), cs[n];
    assert c.Names(f) ==> Cell(row, f) == Cell(c.before, f);
    if f == "id" {
      IdentityStays(c, over[..n]);
    } else if c.Sets(f) {
      StillWanted(c, over[..n], f);
    } else {
      FollowsLast(c, over[..n], f);
      if Cell(row, f).Some? {
        LastIsRow(base, cs, over, n, f);
      }
      if !c.Names(f) {
        UnnamedIsGone(c, over[..n], f);
      }
    }
  }

  lemma {:induction false} UnnamedIsGone(c: EntityChange, over: seq<EntityChange>, f: Field)
    requires !c.Whole() && !c.Names(f)
    ensures FateOf(c, over, f) == Gone
    decreases |over|
  {
    if over != [] {
      UnnamedIsGone(c, over[..|over| - 1], f);
    }
  }

  /** One more change of a chain that no receipt has reached. */
  lemma RetainedStep(base: Option<Row>, cs: seq<EntityChange>, n: nat)
    requires Sits(base, cs) && n < |cs| && Exactly(base, cs, RebaseChain(cs), n)
    ensures Exactly(base, cs, RebaseChain(cs), n + 1) <==> Unopposed(cs[n], RebaseChain(cs)[..n])
  {
    var over := RebaseChain(cs);
    RebaseChainAt(cs, n);
    ExactlyNext(base, cs, over, n);
    RebasesExactly(Fold(base, cs[..n]), cs[n], over[..n]);
    if cs[n].Whole() {
      RetainedWhole(base, cs, over, n);
    } else {
      RetainedUpdate(base, cs, over, n);
    }
  }

  lemma ExactlyNext(base: Option<Row>, cs: seq<EntityChange>, over: seq<EntityChange>, n: nat)
    requires n < |cs| == |over| && Exactly(base, cs, over, n)
    ensures Exactly(base, cs, over, n + 1)
            <==> PatchRow(Fold(base, cs[..n]), over[n], true) == Patched(Force(Fold(base, cs[..n]), cs[n]))
  {
    assert cs[..n + 1][..n] == cs[..n];
  }

  lemma RetainedWhole(base: Option<Row>, cs: seq<EntityChange>, over: seq<EntityChange>, n: nat)
    requires n < |cs| == |over| && Exactly(base, cs, over, n) && cs[n].Whole() && Fits(Fold(base, cs[..n]), cs[n])
    ensures Rebases(Fold(base, cs[..n]), cs[n], over[..n])
  {
    if cs[n].before.Some? {
      DeletionFits(base, cs, over, n);
    }
  }

  lemma RetainedUpdate(base: Option<Row>, cs: seq<EntityChange>, over: seq<EntityChange>, n: nat)
    requires n < |cs| == |over| && Exactly(base, cs, over, n) && !cs[n].Whole() && Fits(Fold(base, cs[..n]), cs[n])
    ensures Rebases(Fold(base, cs[..n]), cs[n], over[..n]) <==> Unopposed(cs[n], over[..n])
  {
    var row, c := Fold(base, cs[..n]), cs[n];
    forall f ensures FieldRebases(row, c, over[..n], f) <==> FieldUnopposed(c, over[..n], f) {
      RetainedField(base, cs, over, n, f);
    }
    RebasesByField(row, c, over[..n]);
  }

  ghost predicate FieldRebases(row: Option<Row>, c: EntityChange, over: seq<EntityChange>, f: Field) {
    FieldAdmits(row, c, over, f) && (c.Sets(f) ==> FateOf(c, over, f).Wanted?)
  }

  lemma RebasesByField(row: Option<Row>, c: EntityChange, over: seq<EntityChange>)
    requires !c.Whole() && Fits(row, c)
    ensures Rebases(row, c, over) <==> forall f :: FieldRebases(row, c, over, f)
  {
    forall f | c.Sets(f) ensures Cell(row, f) != Cell(c.after, f) {
      assert c.Names(f);
    }
    if forall f :: FieldRebases(row, c, over, f) {
      forall f ensures FieldAdmits(row, c, over, f) && (c.Sets(f) ==> FateOf(c, over, f).Wanted?) {
        assert FieldRebases(row, c, over, f);
      }
    }
  }

  ghost predicate UnopposedUpTo(cs: seq<EntityChange>, n: nat)
    requires n <= |cs|
  {
    forall i | 0 <= i < n :: Unopposed(cs[i], RebaseChain(cs)[..i])
  }

  lemma UnopposedNext(cs: seq<EntityChange>, n: nat)
    requires n < |cs|
    ensures UnopposedUpTo(cs, n + 1) <==> UnopposedUpTo(cs, n) && Unopposed(cs[n], RebaseChain(cs)[..n])
  {}

  lemma {:induction false} RetainedUpTo(base: Option<Row>, cs: seq<EntityChange>, n: nat)
    requires Sits(base, cs) && n <= |cs|
    ensures Exactly(base, cs, RebaseChain(cs), n) <==> UnopposedUpTo(cs, n)
    decreases n
  {
    if n > 0 {
      RetainedUpTo(base, cs, n - 1);
      UnopposedNext(cs, n - 1);
      if Exactly(base, cs, RebaseChain(cs), n - 1) {
        RetainedStep(base, cs, n - 1);
      }
    }
  }

  lemma {:induction false} ExactlyRebuilt(base: Option<Row>, cs: seq<EntityChange>, over: seq<EntityChange>, n: nat)
    requires n <= |cs| == |over| && Exactly(base, cs, over, n)
    ensures Rebuild(base, over[..n]) == Some(Fold(base, cs[..n]))
    decreases n
  {
    if n > 0 {
      ExactlyRebuilt(base, cs, over, n - 1);
      assert over[..n][..n - 1] == over[..n - 1];
    }
  }

  lemma RebuiltStep(base: Option<Row>, cs: seq<EntityChange>, over: seq<EntityChange>, i: nat)
    requires i < |cs| == |over|
    requires Rebuild(base, over[..i]) == Some(Fold(base, cs[..i]))
             && Rebuild(base, over[..i + 1]) == Some(Fold(base, cs[..i + 1]))
    ensures PatchRow(Fold(base, cs[..i]), over[i], true) == Patched(Fold(base, cs[..i + 1]))
  {
    assert over[..i + 1][..i] == over[..i];
  }

  /** A retained chain that no receipt has reached is replayed change by change as it was made, and so gives
      the cached row back, exactly when no change sets a field to a value that an earlier one left there
      already, as that one was rebased itself, and each was made on what the last of them left. */
  lemma RetainedExact(base: Option<Row>, cs: seq<EntityChange>)
    requires Sits(base, cs)
    ensures (forall n | 0 <= n <= |cs| :: Rebuild(base, RebaseChain(cs)[..n]) == Some(Fold(base, cs[..n])))
            <==> UnopposedUpTo(cs, |cs|)
  {
    var over := RebaseChain(cs);
    RetainedUpTo(base, cs, |cs|);
    if Exactly(base, cs, over, |cs|) {
      forall n | 0 <= n <= |cs| ensures Rebuild(base, over[..n]) == Some(Fold(base, cs[..n])) {
        ExactlyRebuilt(base, cs, over, n);
      }
    }
    if forall n | 0 <= n <= |cs| :: Rebuild(base, over[..n]) == Some(Fold(base, cs[..n])) {
      forall i | 0 <= i < |cs|
        ensures PatchRow(Fold(base, cs[..i]), over[i], true) == Patched(Fold(base, cs[..i + 1]))
      {
        assert Rebuild(base, over[..i]) == Some(Fold(base, cs[..i]))
               && Rebuild(base, over[..i + 1]) == Some(Fold(base, cs[..i + 1]));
        RebuiltStep(base, cs, over, i);
      }
    }
  }

  /** While the row was created at most at the start, every field holds what the last replayed change to
      decide it left. */
  lemma {:induction false} LastIsField(base: Option<Row>, cs: seq<EntityChange>, over: seq<EntityChange>, n: nat,
                                       f: Field)
    requires n <= |cs| == |over| && Exactly(base, cs, over, n) && Fold(base, cs[..n]).Some?
    requires forall i | 0 < i < |over| :: over[i].before.Some?
    ensures LeftLast(over[..n], f, Cell(Fold(base, cs[..n]), f)) == Cell(Fold(base, cs[..n]), f)
    decreases n
  {
    if n > 0 {
      var row, r := Fold(base, cs[..n - 1]), over[n - 1];
      assert PatchRow(row, r, true) == Patched(Fold(base, cs[..n]));
      assert over[..n][..n - 1] == over[..n - 1];
      CheckedCell(row, r, f);
      if !Decides(r, f) && !r.Whole() {
        LastIsField(base, cs, over, n - 1, f);
      }
    }
  }

  /** No change up to here sets a field to a value that an earlier one left there, as that one was rebased. */
  ghost predicate NoneLeftUpTo(cs: seq<EntityChange>, n: nat)
    requires n <= |cs|
  {
    forall i | 0 <= i < n :: NoneLeft(cs[i], RebaseChain(cs)[..i])
  }

  ghost predicate NoneLeft(c: EntityChange, over: seq<EntityChange>) {
    c.Whole() || forall f | f != "id" && c.Sets(f) :: !LeftBefore(over, f, Cell(c.after, f))
  }

  lemma NoneLeftNext(cs: seq<EntityChange>, n: nat)
    requires n < |cs|
    ensures NoneLeftUpTo(cs, n + 1) <==> NoneLeftUpTo(cs, n) && NoneLeft(cs[n], RebaseChain(cs)[..n])
  {}

  lemma OrdinaryStep(base: Option<Row>, cs: seq<EntityChange>, n: nat)
    requires Sits(base, cs) && n < |cs| && Exactly(base, cs, RebaseChain(cs), n)
    requires forall i | 0 < i < |cs| :: cs[i].before.Some?
    ensures Unopposed(cs[n], RebaseChain(cs)[..n]) <==> NoneLeft(cs[n], RebaseChain(cs)[..n])
  {
    var over, c := RebaseChain(cs), cs[n];
    if !c.Whole() {
      forall i | 0 < i < |over| ensures over[i].before.Some? {
        RebaseChainAt(cs, i);
        RebaseKeepsIntent(cs[i], RebaseChain(cs[..i]), "");
      }
      forall f | c.Sets(f) ensures LeftLast(over[..n], f, Cell(c.before, f)) == Cell(c.before, f) {
        assert c.Names(f);
        LastIsField(base, cs, over, n, f);
      }
      if NoneLeft(c, over[..n]) {
        forall f ensures FieldUnopposed(c, over[..n], f) {}
      }
      if Unopposed(c, over[..n]) {
        forall f | f != "id" && c.Sets(f) ensures !LeftBefore(over[..n], f, Cell(c.after, f)) {
          assert FieldUnopposed(c, over[..n], f);
        }
      }
    }
  }

  /** A chain that creates the row at most at its start is replayed as it was made exactly when no change sets
      a field to a value that an earlier one left there already. */
  lemma {:induction false} OrdinaryChain(base: Option<Row>, cs: seq<EntityChange>, n: nat)
    requires Sits(base, cs) && n <= |cs| && forall i | 0 < i < |cs| :: cs[i].before.Some?
    ensures UnopposedUpTo(cs, n) <==> NoneLeftUpTo(cs, n)
    decreases n
  {
    if n > 0 {
      OrdinaryChain(base, cs, n - 1);
      UnopposedNext(cs, n - 1);
      NoneLeftNext(cs, n - 1);
      if UnopposedUpTo(cs, n - 1) {
        RetainedUpTo(base, cs, n - 1);
        OrdinaryStep(base, cs, n - 1);
      }
    }
  }

  /** A field toggled three times. With nothing committed, and just so once the first two commands are, the
      third change is rebased over both, is dropped, and a rebuilt cache shows the value before it. */
  lemma RebaseLosesThirdToggle()
    ensures var key := EntityKey("actions", "a1");
            var first := EntityChange(key, Status("todo"), Status("done"));
            var second := EntityChange(key, Status("done"), Status("todo"));
            var third := EntityChange(key, Status("todo"), Status("done"));
            && Fold(Status("todo"), [first, second, third]) == Status("done")
            && Rebuild(Status("todo"), RebaseChain([first, second, third])) == Some(Status("todo"))
            && Fold(Status("todo"), [third]) == Status("done")
            && Rebuild(Status("todo"), [Rebase(third, [first, second])]) == Some(Status("todo"))
  {
    var key := EntityKey("actions", "a1");
    var first := EntityChange(key, Status("todo"), Status("done"));
    var second := EntityChange(key, Status("done"), Status("todo"));
    var third := EntityChange(key, Status("todo"), Status("done"));
    var none: seq<EntityChange> := [];
    assert [third][..0] == none;
    PatchFromPreimage(first);
    PatchFromPreimage(second);
    PatchFromPreimage(third);
    var once := RebaseOver(third, first);
    var twice := RebaseOver(once, second);
    RowsEqual(once.before, Status("done"));
    RowsEqual(once.after, Status("done"));
    RowsEqual(twice.before, Status("todo"));
    RowsEqual(twice.after, Status("todo"));
    assert [first, second][..1] == [first] && [first][..0] == none;
    assert Rebase(third, none) == third && Rebase(third, [first]) == once;
    assert Rebase(third, [first, second]) == twice;
    assert [twice][..0] == none;
    PatchFromPreimage(twice);
    ToggledChain(first, second, third, twice);
  }

  lemma ToggledChain(first: EntityChange, second: EntityChange, third: EntityChange, twice: EntityChange)
    requires first == EntityChange(EntityKey("actions", "a1"), Status("todo"), Status("done"))
    requires second == EntityChange(EntityKey("actions", "a1"), Status("done"), Status("todo")) && third == first
    requires twice == EntityChange(first.key, Status("todo"), Status("todo")) && Rebase(third, [first, second]) == twice
    ensures Fold(Status("todo"), [first, second, third]) == Status("done")
    ensures Rebuild(Status("todo"), RebaseChain([first, second, third])) == Some(Status("todo"))
  {
    var three := [first, second, third];
    assert three[..2] == [first, second];
    ToggledTwice(first, second);
    assert RebaseChain(three) == RebaseChain(three[..2]) + [Rebase(third, RebaseChain(three[..2]))];
    assert RebaseChain(three) == [first, second, twice];
    assert [first, second, twice][..2] == [first, second];
    PatchFromPreimage(third);
    PatchFromPreimage(twice);
  }

  lemma ToggledTwice(first: EntityChange, second: EntityChange)
    requires first == EntityChange(EntityKey("actions", "a1"), Status("todo"), Status("done"))
    requires second == EntityChange(EntityKey("actions", "a1"), Status("done"), Status("todo"))
    ensures RebaseChain([first, second]) == [first, second]
    ensures Fold(Status("todo"), [first, second]) == Status("todo")
    ensures Rebuild(Status("todo"), [first, second]) == Some(Status("todo"))
  {
    var none: seq<EntityChange> := [];
    assert [first, second][..1] == [first] && [first][..0] == none;
    PatchFromPreimage(first);
    PatchFromPreimage(second);
    FoldSingle(Status("todo"), first);
    assert Fold(Status("todo"), [first]) == Status("done") == second.before;
    assert Rebuild(Status("todo"), none) == Some(Status("todo"));
    assert Rebuild(Status("todo"), [first]) == Some(Status("done"));
    RebasedOverFirst(first, second);
  }

  lemma RebasedOverFirst(first: EntityChange, second: EntityChange)
    requires first == EntityChange(EntityKey("actions", "a1"), Status("todo"), Status("done"))
    requires second == EntityChange(EntityKey("actions", "a1"), Status("done"), Status("todo"))
    ensures RebaseChain([first, second]) == [first, second]
  {
    var none: seq<EntityChange> := [];
    var kept := RebaseOver(second, first);
    RowsEqual(kept.before, Status("done"));
    RowsEqual(kept.after, Status("todo"));
    assert [first, second][..1] == [first] && [first][..0] == none;
    assert RebaseChain([first]) == [Rebase(first, none)] == [first];
    assert Rebase(second, [first]) == kept == second;
  }
}
