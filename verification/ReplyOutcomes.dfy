/**
 Which replies go through. A receipt's delta is settled on the cached rows, and a refusal's inverses
 are applied to them, each under its check; here is when the checks pass, field by field, in terms of
 the receipts, the commands and the rows alone.
 */
module ReplyOutcomes {
  import opened Wrappers
  import opened WorkspaceDelta
  import opened Interactions
  import opened InteractionOrder
  import opened RowChain
  import opened CacheRow
  import opened JournalViews
  import opened OptimisticCache
  import opened InstantClient

  // ---------------------------------------------------------------------------------------
  // One settled row
  // ---------------------------------------------------------------------------------------

  /** What the field is taken to have held below a command: the value of the last of its predecessors' receipts
      that holds the field, or else that of its own preimage. */
  ghost function Held(optimistic: EntityChange, receipts: seq<EntityChange>, f: Field): Option<Value> {
    if LastHeld(receipts, f).Some? then LastHeld(receipts, f) else Cell(optimistic.before, f)
  }

  function Afters(receipts: seq<EntityChange>): seq<Row> {
    if receipts == [] then []
    else Afters(receipts[..|receipts| - 1])
         + if receipts[|receipts| - 1].after.Some? then [receipts[|receipts| - 1].after.value] else []
  }

  lemma {:induction false} AssignedCell(row: Row, receipts: seq<EntityChange>, f: Field)
    ensures Cell(Some(Assign(row, Afters(receipts))), f)
            == if LastHeld(receipts, f).Some? then LastHeld(receipts, f) else Cell(Some(row), f)
    decreases |receipts|
  {
    if receipts != [] {
      var init, last := receipts[..|receipts| - 1], receipts[|receipts| - 1];
      AssignedCell(row, init, f);
      AssignLast(row, Afters(init), last, f);
    }
  }

  lemma AssignLast(row: Row, rows: seq<Row>, last: EntityChange, f: Field)
    ensures var more := rows + if last.after.Some? then [last.after.value] else [];
            Cell(Some(Assign(row, more)), f)
            == if Cell(last.after, f).Some? then Cell(last.after, f) else Cell(Some(Assign(row, rows)), f)
  {
    if last.after.Some? {
      assert (rows + [last.after.value])[..|rows|] == rows;
    } else {
      assert rows + [] == rows;
    }
  }

  /** On a field that no later command sets and that the receipt's preimage does not hold: a value that the
      command sets the receipt sets too, or the field is still what it was taken to have held; and if the command
      leaves it alone, it is still that unless it was nothing. */
  ghost predicate FieldStands(base: Option<Row>, optimistic: EntityChange, receipts: seq<EntityChange>,
                              accepted: EntityChange, f: Field)
  {
    if optimistic.Sets(f) then accepted.Sets(f) || Cell(base, f) == Held(optimistic, receipts, f)
    else Held(optimistic, receipts, f).Some? ==> Cell(base, f) == Held(optimistic, receipts, f)
  }

  ghost predicate FieldsStand(base: Option<Row>, optimistic: EntityChange, receipts: seq<EntityChange>,
                              accepted: EntityChange, later: seq<EntityChange>)
  {
    forall f | !SetBy(later, f) && Cell(accepted.before, f) == None ::
      FieldStands(base, optimistic, receipts, accepted, f)
  }

  lemma BaselineCell(optimistic: EntityChange, receipts: seq<EntityChange>, accepted: EntityChange, f: Field)
    requires optimistic.before.Some? && accepted.before.Some?
    ensures var baseline := Baseline(Some(optimistic), Afters(receipts), accepted);
            && baseline.Some?
            && Cell(baseline, f) == if Cell(accepted.before, f).Some? then Cell(accepted.before, f)
                                    else Held(optimistic, receipts, f)
  {
    AssignedCell(optimistic.before.value, receipts, f);
  }

  /** A row under changes that leave nothing was deleted by one of them. */
  lemma {:induction false} GoneIsSet(row: Option<Row>, cs: seq<EntityChange>, f: Field)
    requires row.Some? && Fold(row, cs).None?
    ensures SetBy(cs, f)
    decreases |cs|
  {
    var init, last := cs[..|cs| - 1], cs[|cs| - 1];
    if last.Whole() {
      assert cs[|cs| - 1].Sets(f);
    } else {
      GoneIsSet(row, init, f);
      var i :| 0 <= i < |init| && init[i].Sets(f);
      assert cs[i].Sets(f);
    }
  }

  /** The row under one update and the later changes, whichever update and whichever row. */
  lemma SideCell(base: Option<Row>, row: Option<Row>, o: EntityChange, c: EntityChange, later: seq<EntityChange>,
                 f: Field)
    requires !o.Whole() && !c.Whole() && base.Some? && row.Some? && Hits(base, [o] + later)
    ensures Hits(row, [c] + later) && Fold(row, [c] + later).Some? == Fold(base, [o] + later).Some?
    ensures SetBy(later, f) ==> Cell(Fold(row, [c] + later), f) == Cell(Fold(base, [o] + later), f)
    ensures !SetBy(later, f) ==>
              Cell(Fold(row, [c] + later), f) == if c.Sets(f) then Cell(c.after, f) else Cell(row, f)
  {
    FoldOne(base, o, later);
    FoldOne(row, c, later);
    ForceCell(base, o, f);
    ForceCell(row, c, f);
    FoldCell(Force(base, o), Force(row, c), later, f);
  }

  /** In the field the patch is admitted and leads to the target. */
  ghost predicate Leads(current: Option<Value>, before: Option<Value>, after: Option<Value>, target: Option<Value>) {
    if before.Some? || after.Some? then (current == before || current == after) && target == after
    else target == current
  }

  lemma PatchedTo(current: Option<Row>, patch: EntityChange, target: Option<Row>)
    requires current.Some? == target.Some? == patch.before.Some? == patch.after.Some?
    ensures PatchRow(current, patch, true) == Patched(target) <==>
              forall f :: Leads(Cell(current, f), Cell(patch.before, f), Cell(patch.after, f), Cell(target, f))
  {
    if current.Some? {
      if forall f :: Leads(Cell(current, f), Cell(patch.before, f), Cell(patch.after, f), Cell(target, f)) {
        forall f | f in patch.before.value.Keys + patch.after.value.Keys
          ensures Cell(current, f) == Cell(patch.before, f) || Cell(current, f) == Cell(patch.after, f)
        {
          assert Leads(Cell(current, f), Cell(patch.before, f), Cell(patch.after, f), Cell(target, f));
        }
        forall f ensures Cell(Force(current, patch), f) == Cell(target, f) {
          ForceCell(current, patch, f);
          assert Leads(Cell(current, f), Cell(patch.before, f), Cell(patch.after, f), Cell(target, f));
        }
        RowsEqual(Force(current, patch), target);
      }
      if PatchRow(current, patch, true) == Patched(target) {
        forall f ensures Leads(Cell(current, f), Cell(patch.before, f), Cell(patch.after, f), Cell(target, f)) {
          CheckedCell(current, patch, f);
        }
      }
    }
  }

  /** Acknowledging an update: the patch is admitted and makes the row the confirmed row under the later commands
      exactly when every field stands. */
  lemma UpdateSettles(base: Option<Row>, optimistic: EntityChange, receipts: seq<EntityChange>, accepted: EntityChange,
                      later: seq<EntityChange>)
    requires !optimistic.Whole() && !accepted.Whole() && Fits(base, accepted) && Hits(base, [optimistic] + later)
    ensures var patch := Settlement(Some(optimistic), Afters(receipts), accepted, later);
            && patch.Some?
            && (PatchRow(Fold(base, [optimistic] + later), patch.value, true) == Patched(Fold(base, [accepted] + later))
                <==> FieldsStand(base, optimistic, receipts, accepted, later))
  {
    var baseline := Baseline(Some(optimistic), Afters(receipts), accepted);
    BaselineCell(optimistic, receipts, accepted, "");
    SideCell(base, base, optimistic, accepted, later, "");
    SideCell(base, baseline, optimistic, optimistic, later, "");
    SideCell(base, baseline, optimistic, accepted, later, "");
    var current, target := Fold(base, [optimistic] + later), Fold(base, [accepted] + later);
    var patch := EntityChange(accepted.key, Fold(baseline, [optimistic] + later), Fold(baseline, [accepted] + later));
    PatchedTo(current, patch, target);
    forall f
      ensures Leads(Cell(current, f), Cell(patch.before, f), Cell(patch.after, f), Cell(target, f))
              <==> (!SetBy(later, f) && Cell(accepted.before, f) == None ==>
                      FieldStands(base, optimistic, receipts, accepted, f))
    {
      UpdateCell(base, optimistic, receipts, accepted, later, f);
    }
  }

  lemma UpdateCell(base: Option<Row>, optimistic: EntityChange, receipts: seq<EntityChange>, accepted: EntityChange,
                   later: seq<EntityChange>, f: Field)
    requires !optimistic.Whole() && !accepted.Whole() && Fits(base, accepted) && Hits(base, [optimistic] + later)
    ensures var baseline := Baseline(Some(optimistic), Afters(receipts), accepted);
            Leads(Cell(Fold(base, [optimistic] + later), f), Cell(Fold(baseline, [optimistic] + later), f),
                  Cell(Fold(baseline, [accepted] + later), f), Cell(Fold(base, [accepted] + later), f))
            <==> (!SetBy(later, f) && Cell(accepted.before, f) == None ==>
                    FieldStands(base, optimistic, receipts, accepted, f))
  {
    var baseline := Baseline(Some(optimistic), Afters(receipts), accepted);
    BaselineCell(optimistic, receipts, accepted, f);
    SideCell(base, base, optimistic, optimistic, later, f);
    SideCell(base, base, optimistic, accepted, later, f);
    SideCell(base, baseline, optimistic, optimistic, later, f);
    SideCell(base, baseline, optimistic, accepted, later, f);
    SidesLead(base, optimistic, receipts, accepted, Cell(baseline, f), f);
  }

  lemma SidesLead(base: Option<Row>, optimistic: EntityChange, receipts: seq<EntityChange>, accepted: EntityChange,
                  held: Option<Value>, f: Field)
    requires !optimistic.Whole() && !accepted.Whole() && Fits(base, accepted)
    requires held == if Cell(accepted.before, f).Some? then Cell(accepted.before, f) else Held(optimistic, receipts, f)
    ensures Leads(if optimistic.Sets(f) then Cell(optimistic.after, f) else Cell(base, f),
                  if optimistic.Sets(f) then Cell(optimistic.after, f) else held,
                  if accepted.Sets(f) then Cell(accepted.after, f) else held,
                  if accepted.Sets(f) then Cell(accepted.after, f) else Cell(base, f))
            <==> (Cell(accepted.before, f) == None ==> FieldStands(base, optimistic, receipts, accepted, f))
  {
    assert accepted.Names(f) ==> Cell(base, f) == Cell(accepted.before, f);
  }

  // ---------------------------------------------------------------------------------------
  // One acknowledged entity
  // ---------------------------------------------------------------------------------------

  lemma {:induction false} PriorRowsAre(priors: seq<Interaction>, e: EntityKey)
    ensures PriorRows(priors, e) == Afters(ChangesOf(On(priors, e), e))
    decreases |priors|
  {
    if priors != [] {
      var init, last := priors[..|priors| - 1], priors[|priors| - 1];
      assert priors == init + [last];
      PriorRowsAre(init, e);
      OnLast(init, last, e);
      if Touches(last, e) {
        var was := On(init, e);
        assert (was + [last])[..|was|] == was;
        var cs := ChangesOf(was, e);
        assert (cs + [ChangeOf(last, e)])[..|cs|] == cs;
      }
    }
  }

  /** The receipt's delta agrees with the cache on the entity. If the command changed it, nothing that the command
      stands on is still pending there, the receipt creates, updates or deletes as the command does, every field
      stands, and what later commands were made on is kept; if it did not, nothing is pending there. */
  ghost predicate ReceiptStands(s: Cache, r: Interaction, accepted: seq<EntityChange>, e: EntityKey) {
    if ChangeAt(accepted, e).None? then !Touches(r, e)
    else if !Touches(r, e) then forall p | p in s.pending :: !Touches(p, e)
    else
      var base, own, c, later := Lookup(s.base, e), ChangeOf(r, e), ChangeAt(accepted, e).value,
          On(Drop(s.pending, {r.commandId}), e);
      && (forall p | p in s.pending && Touches(p, e) :: p.commandId !in r.predecessors)
      && SameShape(own, c)
      && (!c.Whole() ==> FieldsStand(base, own, AcceptedOn(s.log, r, e), c, ChangesOf(later, e)))
      && AllLaterKept(base, own, c, LinksOf(s.log, later, e))
  }

  /** The receipt's delta agrees with the cache on every entity. */
  ghost predicate Agrees(s: Cache, r: Interaction, accepted: seq<EntityChange>) {
    forall e :: ReceiptStands(s, r, accepted, e)
  }

  /** The settled patch of the entity is found, and admitted. */
  ghost predicate PatchesAt(rows: Workspace, r: Interaction, priors: seq<Interaction>, order: seq<Interaction>,
                            c: EntityChange, e: EntityKey)
  {
    var patch := Settlement(ChangeAt(r.changes, e), PriorRows(priors, e), c, ChangesOf(On(order, e), e));
    patch.Some? && PatchRow(Lookup(rows, e), patch.value, true).Patched?
  }

  /** The entity's part of an acknowledgement: its patch is found and admitted and it disturbs nothing. */
  ghost predicate SettledWell(s: Cache, r: Interaction, priors: seq<Interaction>, order: seq<Interaction>,
                              accepted: seq<EntityChange>, e: EntityKey)
    requires ChangeAt(accepted, e).Some?
  {
    PatchesAt(s.rows, r, priors, order, ChangeAt(accepted, e).value, e) && SettlesAt(s, r, priors, accepted, e)
  }

  lemma ForeignSettles(s: Cache, r: Interaction, priors: seq<Interaction>, order: seq<Interaction>,
                       accepted: seq<EntityChange>, e: EntityKey)
    requires EntitySound(s, e) && IsCascade(s.pending, r.commandId, order) && !Touches(r, e)
    requires ChangeAt(accepted, e).Some? && Fits(Lookup(s.base, e), ChangeAt(accepted, e).value)
    ensures SettledWell(s, r, priors, order, accepted, e) <==> ReceiptStands(s, r, accepted, e)
  {
    NobodyOn(s.pending, e);
    if On(s.pending, e) == [] {
      NothingOn(s.pending, r.commandId, order, e);
      SettleForeign(PriorRows(priors, e), ChangeAt(accepted, e).value);
    }
  }

  lemma NobodyOn(pending: seq<Interaction>, e: EntityKey)
    ensures On(pending, e) == [] <==> forall p | p in pending :: !Touches(p, e)
  {
    OnMembers(pending, e);
    if On(pending, e) == [] {
      forall p | p in pending ensures !Touches(p, e) {
        assert p !in On(pending, e);
      }
    } else {
      assert On(pending, e)[0] in On(pending, e);
    }
  }

  lemma OwnSettles(s: Cache, r: Interaction, priors: seq<Interaction>, order: seq<Interaction>,
                   accepted: seq<EntityChange>, e: EntityKey)
    requires Wellformed(s) && EntitySound(s, e) && r in s.pending && Cascade(s.pending, r.commandId, order)
    requires Ordered(Pick(s.log, r.predecessors)) == Some(priors) && Touches(r, e)
    requires forall p | p in On(s.pending, e) :: p.commandId !in r.predecessors
    requires ChangeAt(accepted, e).Some? && Fits(Lookup(s.base, e), ChangeAt(accepted, e).value)
    requires SameShape(ChangeOf(r, e), ChangeAt(accepted, e).value)
    ensures SettledWell(s, r, priors, order, accepted, e) <==> ReceiptStands(s, r, accepted, e)
  {
    var later := On(Drop(s.pending, {r.commandId}), e);
    OnMembers(s.pending, e);
    OwnPriors(s, r, priors, e);
    OldestOn(s.pending, r, e);
    LinksChanges(s.log, later, e);
    OwnGuard(s, r, priors, accepted, e, later);
    OwnPatch(s, r, priors, order, accepted, e);
    OwnRow(s, r, e);
    RowSettles(Lookup(s.base, e), ChangeOf(r, e), AcceptedOn(s.log, r, e), ChangeAt(accepted, e).value,
               ChangesOf(later, e));
  }

  lemma OwnPatch(s: Cache, r: Interaction, priors: seq<Interaction>, order: seq<Interaction>,
                 accepted: seq<EntityChange>, e: EntityKey)
    requires Wellformed(s) && EntitySound(s, e) && r in s.pending && Cascade(s.pending, r.commandId, order)
    requires Ordered(Pick(s.log, r.predecessors)) == Some(priors) && Touches(r, e)
    requires forall p | p in On(s.pending, e) :: p.commandId !in r.predecessors
    requires ChangeAt(accepted, e).Some?
    ensures var patch := Settlement(Some(ChangeOf(r, e)), Afters(AcceptedOn(s.log, r, e)), ChangeAt(accepted, e).value,
                                    ChangesOf(On(Drop(s.pending, {r.commandId}), e), e));
            PatchesAt(s.rows, r, priors, order, ChangeAt(accepted, e).value, e)
            <==> patch.Some? && PatchRow(Lookup(s.rows, e), patch.value, true).Patched?
  {
    OwnPriors(s, r, priors, e);
    OldestOn(s.pending, r, e);
    DependentsOn(s, r, order, e);
  }

  lemma OwnGuard(s: Cache, r: Interaction, priors: seq<Interaction>, accepted: seq<EntityChange>, e: EntityKey,
                 later: seq<Interaction>)
    requires Touches(r, e) && PriorRows(priors, e) == Afters(AcceptedOn(s.log, r, e))
    requires forall p | p in On(s.pending, e) :: p.commandId !in r.predecessors
    requires ChangeAt(accepted, e).Some? && SameShape(ChangeOf(r, e), ChangeAt(accepted, e).value)
    requires later == Drop(On(s.pending, e), {r.commandId})
             && Changes(LinksOf(s.log, later, e)) == ChangesOf(later, e)
    ensures var base, own, c := Lookup(s.base, e), ChangeOf(r, e), ChangeAt(accepted, e).value;
            SettlesAt(s, r, priors, accepted, e) <==>
              && (own.Whole() || SettlesExactly(base, Baseline(Some(own), Afters(AcceptedOn(s.log, r, e)), c), own, c,
                                                ChangesOf(later, e)))
              && AllLaterKept(base, own, c, LinksOf(s.log, later, e))
  {
  }

  /** The cached row of the entity is the base under the oldest command and the later ones. */
  lemma OwnRow(s: Cache, r: Interaction, e: EntityKey)
    requires UniqueIds(s.pending) && EntitySound(s, e) && r in s.pending && Touches(r, e)
    requires forall p | p in On(s.pending, e) :: p.commandId !in r.predecessors
    ensures var later := ChangesOf(On(Drop(s.pending, {r.commandId}), e), e);
            && Hits(Lookup(s.base, e), [ChangeOf(r, e)] + later)
            && Lookup(s.rows, e) == Fold(Lookup(s.base, e), [ChangeOf(r, e)] + later)
  {
    var later := On(Drop(s.pending, {r.commandId}), e);
    OldestOn(s.pending, r, e);
    LinksSplit(s.log, r, later, e);
    ChangesConcat([LinkOf(s.log, r, e)], LinksOf(s.log, later, e));
    assert Changes([LinkOf(s.log, r, e)]) == [ChangeOf(r, e)];
    SoundHits(Lookup(s.base, e), LinksOf(s.log, On(s.pending, e), e));
  }

  lemma OwnPriors(s: Cache, r: Interaction, priors: seq<Interaction>, e: EntityKey)
    requires UniqueIds(s.log) && EntitySound(s, e) && r in s.pending && Touches(r, e)
    requires Ordered(Pick(s.log, r.predecessors)) == Some(priors)
    ensures PriorRows(priors, e) == Afters(AcceptedOn(s.log, r, e))
  {
    OnMembers(s.pending, e);
    PickMembers(s.log, r.predecessors);
    assert r in On(s.pending, e);
    OrderedOn(Pick(s.log, r.predecessors), e);
    PriorRowsAre(priors, e);
  }

  /** The patch is found, admitted and exact on one row. */
  lemma RowSettles(base: Option<Row>, own: EntityChange, receipts: seq<EntityChange>, c: EntityChange,
                   later: seq<EntityChange>)
    requires SameShape(own, c) && Fits(base, c) && Hits(base, [own] + later)
    ensures var patch := Settlement(Some(own), Afters(receipts), c, later);
            && patch.Some?
            && (PatchRow(Fold(base, [own] + later), patch.value, true).Patched?
                && (own.Whole() || SettlesExactly(base, Baseline(Some(own), Afters(receipts), c), own, c, later))
                <==> (c.Whole() || FieldsStand(base, own, receipts, c, later)))
  {
    if own.Whole() {
      SettleWhole(base, own, Afters(receipts), c, later);
    } else {
      UpdateSettles(base, own, receipts, c, later);
      if PatchRow(Fold(base, [own] + later), Settlement(Some(own), Afters(receipts), c, later).value, true).Patched? {
        SettleUpdate(base, own, Afters(receipts), c, later);
      }
    }
  }

  lemma EntitySettles(s: Cache, r: Interaction, priors: seq<Interaction>, order: seq<Interaction>,
                      accepted: seq<EntityChange>, e: EntityKey)
    requires Wellformed(s) && EntitySound(s, e) && r in s.pending && Cascade(s.pending, r.commandId, order)
    requires Ordered(Pick(s.log, r.predecessors)) == Some(priors)
    requires ChangeAt(accepted, e).Some? && Fits(Lookup(s.base, e), ChangeAt(accepted, e).value)
    ensures SettledWell(s, r, priors, order, accepted, e) <==> ReceiptStands(s, r, accepted, e)
  {
    OnMembers(s.pending, e);
    if !Touches(r, e) {
      ForeignSettles(s, r, priors, order, accepted, e);
    } else if (forall p | p in On(s.pending, e) :: p.commandId !in r.predecessors)
              && SameShape(ChangeOf(r, e), ChangeAt(accepted, e).value) {
      OwnSettles(s, r, priors, order, accepted, e);
    }
  }

  lemma DiffFits(before: Workspace, after: Workspace, cs: seq<EntityChange>, e: EntityKey)
    requires IsDiff(before, after, cs) && ChangeAt(cs, e).Some?
    ensures Fits(Lookup(before, e), ChangeAt(cs, e).value)
  {
    var full := FullChange(before, after, e);
    if !full.Whole() {
      forall f | Compact(full).Names(f) ensures Cell(Lookup(before, e), f) == Cell(Compact(full).before, f) {
        CompactSets(full, f);
      }
    }
  }

  /** The settlements of all accepted changes exist together when each exists. */
  lemma {:induction false} AllSettle(r: Interaction, priors: seq<Interaction>, accepted: seq<EntityChange>,
                                     later: seq<Interaction>, n: nat) returns (settled: seq<EntityChange>)
    requires n <= |accepted|
    requires forall c | c in accepted ::
               Settlement(ChangeAt(r.changes, c.key), PriorRows(priors, c.key), c,
                          ChangesOf(On(later, c.key), c.key)).Some?
    ensures Settles(r, priors, accepted[..n], later, settled)
    decreases n
  {
    if n == 0 {
      settled := [];
    } else {
      var init := AllSettle(r, priors, accepted, later, n - 1);
      var c := accepted[n - 1];
      assert c in accepted;
      settled := init + [Settlement(ChangeAt(r.changes, c.key), PriorRows(priors, c.key), c,
                                    ChangesOf(On(later, c.key), c.key)).value];
      assert accepted[..n] == accepted[..n - 1] + [c];
    }
  }

  lemma SettledPatch(rows: Workspace, r: Interaction, priors: seq<Interaction>, accepted: seq<EntityChange>,
                     later: seq<Interaction>, settled: seq<EntityChange>, e: EntityKey)
    requires Settles(r, priors, accepted, later, settled) && UniqueKeys(accepted) && ChangeAt(accepted, e).Some?
    ensures ChangeAt(settled, e).Some? && ChangeAt(settled, e).value in settled
    ensures PatchesAt(rows, r, priors, later, ChangeAt(accepted, e).value, e)
            <==> PatchRow(Lookup(rows, e), ChangeAt(settled, e).value, true).Patched?
  {
    SettledKeys(r, priors, accepted, later, settled, e);
    ChangeAtMember(settled, e);
  }

  lemma PatchAccepted(r: Interaction, priors: seq<Interaction>, accepted: seq<EntityChange>, later: seq<Interaction>,
                      settled: seq<EntityChange>, c: EntityChange)
    requires Settles(r, priors, accepted, later, settled) && UniqueKeys(accepted) && c in settled
    ensures ChangeAt(accepted, c.key).Some? && ChangeAt(settled, c.key) == Some(c)
  {
    SettledKeys(r, priors, accepted, later, settled, c.key);
    ChangeAtUnique(settled, c);
  }

  ghost predicate AllPatched(rows: Workspace, r: Interaction, priors: seq<Interaction>, order: seq<Interaction>,
                             accepted: seq<EntityChange>)
  {
    forall e | ChangeAt(accepted, e).Some? :: PatchesAt(rows, r, priors, order, ChangeAt(accepted, e).value, e)
  }

  /** The settled patches are admitted together exactly when each is. */
  lemma AdmittedPatched(rows: Workspace, r: Interaction, priors: seq<Interaction>, accepted: seq<EntityChange>,
                        later: seq<Interaction>, settled: seq<EntityChange>)
    requires Settles(r, priors, accepted, later, settled) && UniqueKeys(accepted) && AllAdmitted(rows, settled)
    ensures AllPatched(rows, r, priors, later, accepted)
  {
    forall e | ChangeAt(accepted, e).Some?
      ensures PatchesAt(rows, r, priors, later, ChangeAt(accepted, e).value, e)
    {
      AdmittedPatch(rows, r, priors, accepted, later, settled, e);
    }
  }

  lemma AdmittedPatch(rows: Workspace, r: Interaction, priors: seq<Interaction>, accepted: seq<EntityChange>,
                      later: seq<Interaction>, settled: seq<EntityChange>, e: EntityKey)
    requires Settles(r, priors, accepted, later, settled) && UniqueKeys(accepted) && AllAdmitted(rows, settled)
    requires ChangeAt(accepted, e).Some?
    ensures PatchesAt(rows, r, priors, later, ChangeAt(accepted, e).value, e)
  {
    SettledPatch(rows, r, priors, accepted, later, settled, e);
    ChangeAtMember(settled, e);
    var c := ChangeAt(settled, e).value;
    assert PatchRow(Lookup(rows, c.key), c, true).Patched?;
  }

  lemma PatchedAdmitted(rows: Workspace, r: Interaction, priors: seq<Interaction>, accepted: seq<EntityChange>,
                        later: seq<Interaction>, settled: seq<EntityChange>)
    requires Settles(r, priors, accepted, later, settled) && UniqueKeys(accepted)
    requires AllPatched(rows, r, priors, later, accepted)
    ensures AllAdmitted(rows, settled)
  {
    forall c | c in settled ensures PatchRow(Lookup(rows, c.key), c, true).Patched? {
      PatchAccepted(r, priors, accepted, later, settled, c);
      SettledPatch(rows, r, priors, accepted, later, settled, c.key);
    }
  }

  lemma SettledKeysUnique(r: Interaction, priors: seq<Interaction>, accepted: seq<EntityChange>,
                          later: seq<Interaction>, settled: seq<EntityChange>)
    requires Settles(r, priors, accepted, later, settled) && UniqueKeys(accepted)
    ensures UniqueKeys(settled)
  {
    SettledKeys(r, priors, accepted, later, settled, EntityKey("", ""));
  }

  /** Records of a list without a cycle can be put in order. */
  lemma OrderedPart(part: seq<Interaction>, all: seq<Interaction>)
    requires UniqueIds(part) && Acyclic(all) && forall x | x in part :: x in all
    ensures Ordered(part).Some?
  {
    forall x | x in part ensures LinkedIn(x, all) {
      assert Ties(x) == Ties(x);
    }
    AcyclicAlike(part, all);
    OrderSpecification(part);
  }

  /** The dependents of a record have an order. */
  lemma DependentsExist(pending: seq<Interaction>, root: string) returns (order: seq<Interaction>)
    requires UniqueIds(pending) && Acyclic(pending) && forall p | p in pending :: Unsettled(p.state)
    ensures OrderedDependents(pending, root, Some(order)) && Cascade(pending, root, order)
  {
    ghost var ids := set id | id in Ids(pending) && id != root && DependsOn(pending, root, id);
    var found := Pick(pending, ids);
    PickMembers(pending, ids);
    assert IsCascade(pending, root, found) by {
      forall x | x in pending ensures x.commandId in Ids(pending) {}
    }
    OrderedPart(found, pending);
    order := Ordered(found).value;
    CascadeFound(pending, root, found, order);
  }

  // ---------------------------------------------------------------------------------------
  // A whole acknowledgement
  // ---------------------------------------------------------------------------------------

  lemma SettlementsExist(s: Cache, r: Interaction, priors: seq<Interaction>, order: seq<Interaction>,
                         accepted: seq<EntityChange>) returns (settled: seq<EntityChange>)
    requires UniqueKeys(accepted) && AllPatched(s.rows, r, priors, order, accepted)
    ensures Settles(r, priors, accepted, order, settled) && ApplyChanges(s.rows, settled).Some?
  {
    forall c | c in accepted
      ensures Settlement(ChangeAt(r.changes, c.key), PriorRows(priors, c.key), c,
                         ChangesOf(On(order, c.key), c.key)).Some?
    {
      ChangeAtUnique(accepted, c);
      assert PatchesAt(s.rows, r, priors, order, ChangeAt(accepted, c.key).value, c.key);
    }
    settled := AllSettle(r, priors, accepted, order, |accepted|);
    assert accepted[..|accepted|] == accepted;
    PatchedAdmitted(s.rows, r, priors, accepted, order, settled);
    SettledKeysUnique(r, priors, accepted, order, settled);
    ApplyByKey(s.rows, settled);
  }

  /** A receipt of the next revision, for a client that has incorporated everything before it. */
  ghost predicate NextReceipt(s: Cache, r: Interaction, accepted: seq<EntityChange>) {
    && Inv(s) && s.disturbed == {} && s.level && Acyclic(s.log)
    && r in s.pending && UniqueKeys(accepted)
    && s.version + 1 < |s.history| && IsDiff(s.history[s.version], s.history[s.version + 1], accepted)
  }

  lemma EveryEntity(s: Cache, r: Interaction, priors: seq<Interaction>, order: seq<Interaction>,
                    accepted: seq<EntityChange>, e: EntityKey)
    requires NextReceipt(s, r, accepted) && Cascade(s.pending, r.commandId, order)
    requires Ordered(Pick(s.log, r.predecessors)) == Some(priors)
    ensures ReceiptStands(s, r, accepted, e) <==>
              && (ChangeAt(accepted, e).Some? ==>
                    PatchesAt(s.rows, r, priors, order, ChangeAt(accepted, e).value, e))
              && SettlesAt(s, r, priors, accepted, e)
  {
    assert EntitySound(s, e);
    if ChangeAt(accepted, e).Some? {
      DiffFits(s.history[s.version], s.history[s.version + 1], accepted, e);
      EntitySettles(s, r, priors, order, accepted, e);
    }
  }

  /** Such a receipt is projected, and the cache stays exactly the new revision under the other commands, exactly
      when its delta agrees with the cache on every entity. */
  lemma ReceiptGoesThrough(s: Cache, r: Interaction, accepted: seq<EntityChange>)
    requires NextReceipt(s, r, accepted)
    ensures (exists t :: AcknowledgesReceipt(s, r, accepted, s.version, t) && t.disturbed == {})
            <==> Agrees(s, r, accepted)
    ensures Agrees(s, r, accepted) ==> CanSettle(s.rows, s.pending, s.log, r, accepted)
  {
    if Agrees(s, r, accepted) {
      StandsGoesThrough(s, r, accepted);
    }
    if exists t :: AcknowledgesReceipt(s, r, accepted, s.version, t) && t.disturbed == {} {
      var t :| AcknowledgesReceipt(s, r, accepted, s.version, t) && t.disturbed == {};
      var priors, order, settled :| Acknowledges(s, r, priors, order, accepted, settled, s.version, t);
      UndisturbedStands(s, r, priors, order, accepted, settled, t);
    }
  }

  /** Every entity settles well. */
  ghost predicate AllSettled(s: Cache, r: Interaction, priors: seq<Interaction>, order: seq<Interaction>,
                             accepted: seq<EntityChange>)
  {
    AllPatched(s.rows, r, priors, order, accepted) && forall e :: SettlesAt(s, r, priors, accepted, e)
  }

  lemma StandsSettled(s: Cache, r: Interaction, priors: seq<Interaction>, order: seq<Interaction>,
                      accepted: seq<EntityChange>)
    requires NextReceipt(s, r, accepted) && Cascade(s.pending, r.commandId, order)
    requires Ordered(Pick(s.log, r.predecessors)) == Some(priors)
    ensures Agrees(s, r, accepted) <==> AllSettled(s, r, priors, order, accepted)
  {
    forall e
      ensures ReceiptStands(s, r, accepted, e) <==>
                && (ChangeAt(accepted, e).Some? ==>
                      PatchesAt(s.rows, r, priors, order, ChangeAt(accepted, e).value, e))
                && SettlesAt(s, r, priors, accepted, e)
    {
      EveryEntity(s, r, priors, order, accepted, e);
    }
  }

  lemma StandsGoesThrough(s: Cache, r: Interaction, accepted: seq<EntityChange>)
    requires NextReceipt(s, r, accepted) && Agrees(s, r, accepted)
    ensures exists t :: AcknowledgesReceipt(s, r, accepted, s.version, t) && t.disturbed == {}
    ensures CanSettle(s.rows, s.pending, s.log, r, accepted)
  {
    PickMembers(s.log, r.predecessors);
    OrderedPart(Pick(s.log, r.predecessors), s.log);
    var priors := Ordered(Pick(s.log, r.predecessors)).value;
    var order := DependentsExist(s.pending, r.commandId);
    StandsSettled(s, r, priors, order, accepted);
    var settled := SettlementsExist(s, r, priors, order, accepted);
    CanSettleWith(s, r, priors, order, accepted, settled);
    var a := Acknowledgement(priors, order, settled, ApplyChanges(s.rows, settled).value);
    Untouching(s, r, a, accepted);
    GoesThrough(s, r, a, accepted);
  }

  lemma GoesThrough(s: Cache, r: Interaction, a: Acknowledgement, accepted: seq<EntityChange>)
    requires r in s.pending && s.version + 1 < |s.history|
    requires IsDiff(s.history[s.version], s.history[s.version + 1], accepted)
    requires Ordered(Pick(s.log, r.predecessors)) == Some(a.priors) && Cascade(s.pending, r.commandId, a.later)
    requires Settles(r, a.priors, accepted, a.later, a.settled) && ApplyChanges(s.rows, a.settled) == Some(a.rows)
    requires Acknowledging(s, r, a, accepted, s.version).disturbed == {}
    ensures exists t :: AcknowledgesReceipt(s, r, accepted, s.version, t) && t.disturbed == {}
  {
    var t := TakesReceipt(s, r, a, accepted);
  }

  lemma TakesReceipt(s: Cache, r: Interaction, a: Acknowledgement, accepted: seq<EntityChange>) returns (t: Cache)
    requires r in s.pending && s.version + 1 < |s.history|
    requires IsDiff(s.history[s.version], s.history[s.version + 1], accepted)
    requires Ordered(Pick(s.log, r.predecessors)) == Some(a.priors) && Cascade(s.pending, r.commandId, a.later)
    requires Settles(r, a.priors, accepted, a.later, a.settled) && ApplyChanges(s.rows, a.settled) == Some(a.rows)
    ensures t == Acknowledging(s, r, a, accepted, s.version) && AcknowledgesReceipt(s, r, accepted, s.version, t)
  {
    AcknowledgingSteps(s, r, a, accepted, s.version);
    t := Acknowledging(s, r, a, accepted, s.version);
  }

  lemma CanSettleWith(s: Cache, r: Interaction, priors: seq<Interaction>, order: seq<Interaction>,
                      accepted: seq<EntityChange>, settled: seq<EntityChange>)
    requires OrderedDependents(s.pending, r.commandId, Some(order)) && Settles(r, priors, accepted, order, settled)
    requires Ordered(Pick(s.log, r.predecessors)) == Some(priors) && ApplyChanges(s.rows, settled).Some?
    ensures CanSettle(s.rows, s.pending, s.log, r, accepted)
  {
  }

  lemma Untouching(s: Cache, r: Interaction, a: Acknowledgement, accepted: seq<EntityChange>)
    requires s.disturbed == {} && forall e :: SettlesAt(s, r, a.priors, accepted, e)
    ensures Acknowledging(s, r, a, accepted, s.version).disturbed == {}
  {
  }

  lemma UndisturbedStands(s: Cache, r: Interaction, priors: seq<Interaction>, order: seq<Interaction>,
                          accepted: seq<EntityChange>, settled: seq<EntityChange>, t: Cache)
    requires NextReceipt(s, r, accepted) && t.disturbed == {}
    requires Acknowledges(s, r, priors, order, accepted, settled, s.version, t)
    ensures Agrees(s, r, accepted)
  {
    SettledKeysUnique(r, priors, accepted, order, settled);
    ApplyByKey(s.rows, settled);
    AdmittedPatched(s.rows, r, priors, accepted, order, settled);
    forall e ensures SettlesAt(s, r, priors, accepted, e) {
      Undisturbing(s, r, priors, order, accepted, settled, t, e);
    }
    StandsSettled(s, r, priors, order, accepted);
  }

  lemma Undisturbing(s: Cache, r: Interaction, priors: seq<Interaction>, order: seq<Interaction>,
                     accepted: seq<EntityChange>, settled: seq<EntityChange>, t: Cache, e: EntityKey)
    requires Acknowledges(s, r, priors, order, accepted, settled, s.version, t) && t.disturbed == {}
    ensures SettlesAt(s, r, priors, accepted, e)
  {
    ChangeAtMember(accepted, e);
    ChangeAtMember(r.changes, e);
    assert e in Keys(accepted) + Keys(r.changes) && !SettlesAt(s, r, priors, accepted, e) ==> e in t.disturbed;
    assert ChangeAt(accepted, e).Some? || Touches(r, e) ==> e in Keys(accepted) + Keys(r.changes);
  }

  /** Every row is then the row of the next revision under the other pending commands. */
  lemma ReceiptShowsRevision(s: Cache, r: Interaction, accepted: seq<EntityChange>, t: Cache, e: EntityKey)
    requires NextReceipt(s, r, accepted) && Agrees(s, r, accepted)
    requires AcknowledgesReceipt(s, r, accepted, s.version, t)
    ensures t.version == s.version + 1 && t.level && t.disturbed == {}
    ensures t.pending == Drop(s.pending, {r.commandId})
    ensures Lookup(t.rows, e) == Fold(Lookup(s.history[s.version + 1], e), ChangesOf(On(t.pending, e), e))
  {
    TookReceipt(s, r, accepted, t);
    RowShows(t, e);
  }

  lemma TookReceipt(s: Cache, r: Interaction, accepted: seq<EntityChange>, t: Cache)
    requires NextReceipt(s, r, accepted) && Agrees(s, r, accepted)
    requires AcknowledgesReceipt(s, r, accepted, s.version, t)
    ensures Inv(t) && t.level && t.version == s.version + 1 && t.history == s.history
    ensures t.pending == Drop(s.pending, {r.commandId}) && t.disturbed == {}
  {
    var priors, order, settled :| Acknowledges(s, r, priors, order, accepted, settled, s.version, t);
    StandsUndisturbed(s, r, priors, order, accepted, settled, t);
    AcknowledgedState(s, r, priors, order, accepted, settled, t);
  }

  lemma RowShows(t: Cache, e: EntityKey)
    requires Inv(t) && t.level && t.disturbed == {}
    ensures Lookup(t.rows, e) == Fold(Lookup(t.history[t.version], e), ChangesOf(On(t.pending, e), e))
  {
    UnclearedRow(t, e);
  }

  lemma AcknowledgedState(s: Cache, r: Interaction, priors: seq<Interaction>, order: seq<Interaction>,
                          accepted: seq<EntityChange>, settled: seq<EntityChange>, t: Cache)
    requires Inv(s) && s.level && Acknowledges(s, r, priors, order, accepted, settled, s.version, t)
    ensures Inv(t) && t.level && t.version == s.version + 1 && t.history == s.history
    ensures t.pending == Drop(s.pending, {r.commandId})
  {
    AcknowledgeInv(s, r, priors, order, accepted, settled, s.version, t);
  }

  lemma StandsUndisturbed(s: Cache, r: Interaction, priors: seq<Interaction>, order: seq<Interaction>,
                          accepted: seq<EntityChange>, settled: seq<EntityChange>, t: Cache)
    requires NextReceipt(s, r, accepted) && Agrees(s, r, accepted)
    requires Acknowledges(s, r, priors, order, accepted, settled, s.version, t)
    ensures t.disturbed == {}
  {
    StandsSettled(s, r, priors, order, accepted);
    assert t.disturbed == s.disturbed + (set e | e in Keys(accepted) + Keys(r.changes)
                                                 && !SettlesAt(s, r, priors, accepted, e));
  }

  // ---------------------------------------------------------------------------------------
  // One withdrawn row
  // ---------------------------------------------------------------------------------------

  /** Where the receipts of a change's predecessors decide a field that it names, they say what the row below it
      holds: nothing where the change was made without the field or a receipt took it away, and the last receipt's
      value otherwise. */
  ghost predicate RestoresBelow(l: Link, below: Option<Row>) {
    forall f | l.change.Names(f) && DecidedBy(l.accepted, f) ::
      Cell(below, f) == if Cell(l.change.before, f).None? || RemovedBy(l.accepted, f) then None
                        else LastHeld(l.accepted, f)
  }

  lemma {:induction false} DecidedHolds(accepted: seq<EntityChange>, f: Field)
    requires DecidedBy(accepted, f)
    ensures RemovedBy(accepted, f) || LastHeld(accepted, f).Some?
    decreases |accepted|
  {
    var init, last := accepted[..|accepted| - 1], accepted[|accepted| - 1];
    LastReceipt(accepted, f);
    if !Decides(last, f) {
      DecidedHolds(init, f);
    }
  }

  lemma RestoredBelow(base: Option<Row>, init: seq<Link>, l: Link, f: Field)
    requires LinkSound(base, init, l) && RestoresBelow(l, Under(base, init)) && l.change.Names(f)
    ensures Restored(l, f) == Cell(Under(base, init), f)
    ensures DecidedBy(l.accepted, f) || Cell(l.change.before, f) == Cell(Under(base, init), f)
  {
    RestoredFrom(l, f);
    if DecidedBy(l.accepted, f) {
      DecidedHolds(l.accepted, f);
    }
  }

  /** The inverse of the newest change is admitted and gives the row below back. */
  lemma InverseRestores(base: Option<Row>, init: seq<Link>, l: Link)
    requires LinkSound(base, init, l) && RestoresBelow(l, Under(base, init))
    ensures PatchRow(Force(Under(base, init), l.change), Rollback(l.change, l.accepted), true)
            == Patched(Under(base, init))
  {
    var below, c, back := Under(base, init), l.change, Rollback(l.change, l.accepted);
    if c.before.Some? {
      forall f ensures back.Names(f) ==> c.Names(f)
               ensures c.Names(f) ==> Cell(back.after, f) == Cell(below, f)
               ensures c.Names(f) && !c.Sets(f) ==>
                         Cell(c.before, f) == Cell(below, f) || Cell(back.after, f) == Cell(below, f)
      {
        if back.Names(f) {
          RollbackNames(l, f);
        }
        if c.Names(f) {
          RestoredBelow(base, init, l, f);
        }
      }
      if c.after.None? {
        RowsEqual(back.after, below);
      } else {
        UpdateInverse(below, c, back);
      }
    }
  }

  lemma UpdateInverse(below: Option<Row>, c: EntityChange, back: EntityChange)
    requires !c.Whole() && below.Some? && back.before == c.after && back.after.Some?
    requires forall f | back.Names(f) :: c.Names(f)
    requires forall f | c.Names(f) :: Cell(back.after, f) == Cell(below, f)
    ensures PatchRow(Force(below, c), back, true) == Patched(below)
  {
    var current := Force(below, c);
    forall f
      ensures Cell(current, f) == if c.Sets(f) then Cell(c.after, f) else Cell(below, f)
      ensures Cell(Force(current, back), f) == if back.Sets(f) then Cell(back.after, f) else Cell(current, f)
    {
      ForceCell(below, c, f);
      ForceCell(current, back, f);
    }
    RowsEqual(Force(current, back), below);
  }

  // ---------------------------------------------------------------------------------------
  // A whole withdrawal
  // ---------------------------------------------------------------------------------------

  ghost predicate RestoresOn(log: seq<Interaction>, base: Option<Row>, kept: seq<Interaction>, gone: seq<Interaction>,
                             e: EntityKey)
  {
    forall i | 0 <= i < |gone| ::
      RestoresBelow(LinkOf(log, gone[i], e), Fold(base, ChangesOf(kept + gone[..i], e)))
  }

  /** The entity while the steps are still applied. */
  ghost predicate Unwinding(log: seq<Interaction>, base: Workspace, kept: seq<Interaction>, steps: seq<Interaction>,
                            w: Workspace, e: EntityKey)
  {
    var ps := On(kept, e) + On(steps, e);
    && RowSound(Lookup(base, e), Lookup(w, e), LinksOf(log, ps, e))
    && RestoresOn(log, Lookup(base, e), On(kept, e), On(steps, e), e)
  }

  ghost predicate StepReversible(log: seq<Interaction>, p: Interaction) {
    && ReversalOf(log, p).Some? && UniqueKeys(p.changes)
    && forall e | Touches(p, e) :: Chained(On(Pick(log, p.predecessors), e))
  }

  lemma StepBack(log: seq<Interaction>, base: Workspace, kept: seq<Interaction>, init: seq<Interaction>,
                 last: Interaction, w: Workspace, e: EntityKey)
    requires Unwinding(log, base, kept, init + [last], w, e) && Touches(last, e)
    ensures var below := Under(Lookup(base, e), LinksOf(log, On(kept, e) + On(init, e), e));
            && PatchRow(Lookup(w, e), Rollback(ChangeOf(last, e), AcceptedOn(log, last, e)), true) == Patched(below)
            && RowSound(Lookup(base, e), below, LinksOf(log, On(kept, e) + On(init, e), e))
            && RestoresOn(log, Lookup(base, e), On(kept, e), On(init, e), e)
  {
    GoneLast(kept, init, last, e);
    RestoresLast(log, Lookup(base, e), On(kept, e), On(init, e), last, e);
    RowBack(log, Lookup(base, e), On(kept, e) + On(init, e), last, Lookup(w, e), e);
  }

  lemma GoneLast(kept: seq<Interaction>, init: seq<Interaction>, last: Interaction, e: EntityKey)
    requires Touches(last, e)
    ensures On(init + [last], e) == On(init, e) + [last]
    ensures On(kept, e) + On(init + [last], e) == On(kept, e) + On(init, e) + [last]
  {
    OnLast(init, last, e);
  }

  lemma RestoresLast(log: seq<Interaction>, base: Option<Row>, kept: seq<Interaction>, init: seq<Interaction>,
                     last: Interaction, e: EntityKey)
    requires RestoresOn(log, base, kept, init + [last], e)
    ensures RestoresOn(log, base, kept, init, e)
    ensures RestoresBelow(LinkOf(log, last, e), Fold(base, ChangesOf(kept + init, e)))
  {
    var gone := init + [last];
    assert gone[|init|] == last && gone[..|init|] == init;
    forall i | 0 <= i < |init|
      ensures RestoresBelow(LinkOf(log, init[i], e), Fold(base, ChangesOf(kept + init[..i], e)))
    {
      assert gone[i] == init[i] && gone[..i] == init[..i];
    }
  }

  lemma RowBack(log: seq<Interaction>, base: Option<Row>, ps: seq<Interaction>, last: Interaction, row: Option<Row>,
                e: EntityKey)
    requires RowSound(base, row, LinksOf(log, ps + [last], e))
    requires RestoresBelow(LinkOf(log, last, e), Fold(base, ChangesOf(ps, e)))
    ensures var below := Under(base, LinksOf(log, ps, e));
            && PatchRow(row, Rollback(ChangeOf(last, e), AcceptedOn(log, last, e)), true) == Patched(below)
            && RowSound(base, below, LinksOf(log, ps, e))
  {
    var links, l := LinksOf(log, ps, e), LinkOf(log, last, e);
    LinksLast(log, ps, last, e);
    LinksSoundLast(base, links, l);
    UnderLast(base, links, l);
    LinksChanges(log, ps, e);
    InverseRestores(base, links, l);
  }

  lemma StepAway(log: seq<Interaction>, base: Workspace, kept: seq<Interaction>, init: seq<Interaction>,
                 last: Interaction, w: Workspace, e: EntityKey)
    requires Unwinding(log, base, kept, init + [last], w, e) && !Touches(last, e)
    ensures Unwinding(log, base, kept, init, w, e)
  {
    OnLast(init, last, e);
  }

  lemma StepUnwinds(log: seq<Interaction>, base: Workspace, kept: seq<Interaction>, init: seq<Interaction>,
                    last: Interaction, w: Workspace) returns (w1: Workspace)
    requires UniqueIds(log) && StepReversible(log, last)
    requires forall e :: Unwinding(log, base, kept, init + [last], w, e)
    ensures ApplyChanges(w, ReversalOf(log, last).value) == Some(w1)
    ensures forall e :: Unwinding(log, base, kept, init, w1, e)
  {
    var cs := ReversalOf(log, last).value;
    ReversalAt(log, last, EntityKey("", ""));
    ApplyByKey(w, cs);
    forall c | c in cs ensures PatchRow(Lookup(w, c.key), c, true).Patched? {
      ChangeAtUnique(cs, c);
      ReversalAt(log, last, c.key);
      StepBack(log, base, kept, init, last, w, c.key);
    }
    w1 := ApplyChanges(w, cs).value;
    forall e ensures Unwinding(log, base, kept, init, w1, e) {
      UnwindsOne(log, base, kept, init, last, w, w1, e);
    }
  }

  lemma UnwindsOne(log: seq<Interaction>, base: Workspace, kept: seq<Interaction>, init: seq<Interaction>,
                   last: Interaction, w: Workspace, w1: Workspace, e: EntityKey)
    requires UniqueIds(log) && StepReversible(log, last) && Unwinding(log, base, kept, init + [last], w, e)
    requires ApplyChanges(w, ReversalOf(log, last).value) == Some(w1)
    ensures Unwinding(log, base, kept, init, w1, e)
  {
    ReversalAt(log, last, e);
    AppliedAt(w, ReversalOf(log, last).value, e);
    if Touches(last, e) {
      StepBack(log, base, kept, init, last, w, e);
    } else {
      StepAway(log, base, kept, init, last, w, e);
    }
  }

  lemma Unwound(log: seq<Interaction>, base: Workspace, kept: seq<Interaction>, w: Workspace, e: EntityKey)
    requires Unwinding(log, base, kept, [], w, e)
    ensures Lookup(w, e) == Fold(Lookup(base, e), ChangesOf(On(kept, e), e))
  {
    assert On(kept, e) + On([], e) == On(kept, e);
    LinksChanges(log, On(kept, e), e);
  }

  lemma {:induction false} AllUnwind(log: seq<Interaction>, base: Workspace, kept: seq<Interaction>,
                                     steps: seq<Interaction>, w: Workspace)
    requires UniqueIds(log) && (forall p | p in steps :: StepReversible(log, p))
    requires forall e :: Unwinding(log, base, kept, steps, w, e)
    ensures UnwindAll(log, w, steps).Some?
    ensures forall e :: Lookup(UnwindAll(log, w, steps).value, e) == Fold(Lookup(base, e), ChangesOf(On(kept, e), e))
    decreases |steps|
  {
    if steps != [] {
      var init, last := steps[..|steps| - 1], steps[|steps| - 1];
      assert steps == init + [last];
      var w1 := StepUnwinds(log, base, kept, init, last, w);
      AllUnwind(log, base, kept, init, w1);
    } else {
      forall e ensures Lookup(w, e) == Fold(Lookup(base, e), ChangesOf(On(kept, e), e)) {
        Unwound(log, base, kept, w, e);
      }
    }
  }

  /** The command goes with the refused one. */
  ghost predicate GoesWith(s: Cache, root: Interaction, p: Interaction) {
    p == root || DependsOn(s.pending, root.commandId, p.commandId)
  }

  /** On the entity the receipts below every withdrawn command say what the row below it holds. */
  ghost predicate RefusalStands(s: Cache, root: Interaction, e: EntityKey) {
    var ps := On(s.pending, e);
    forall i | 0 <= i < |ps| && GoesWith(s, root, ps[i]) ::
      RestoresBelow(LinkOf(s.log, ps[i], e), Fold(Lookup(s.base, e), ChangesOf(ps[..i], e)))
  }

  lemma StepsGoWith(s: Cache, root: Interaction, order: seq<Interaction>, p: Interaction)
    requires root in s.pending && IsCascade(s.pending, root.commandId, order) && p in [root] + order
    ensures p in s.pending && GoesWith(s, root, p)
  {
    if p != root {
      assert p in order;
    }
  }

  /** The records of the entity are the ones that stay and then the withdrawn ones. */
  lemma WithdrawnLast(s: Cache, root: Interaction, order: seq<Interaction>, e: EntityKey)
    requires Wellformed(s) && EntitySound(s, e) && root in s.pending && Cascade(s.pending, root.commandId, order)
    ensures On(s.pending, e) == On(Drop(s.pending, Ids([root] + order)), e) + On([root] + order, e)
  {
    CascadeTopological(s.pending, root, order);
    CascadeSuffix(s.pending, root, order, e);
  }

  lemma RestoresGone(s: Cache, root: Interaction, kept: seq<Interaction>, gone: seq<Interaction>, e: EntityKey)
    requires RefusalStands(s, root, e) && On(s.pending, e) == kept + gone
    requires forall p | p in gone :: GoesWith(s, root, p)
    ensures RestoresOn(s.log, Lookup(s.base, e), kept, gone, e)
  {
    var ps := On(s.pending, e);
    forall i | 0 <= i < |gone|
      ensures RestoresBelow(LinkOf(s.log, gone[i], e), Fold(Lookup(s.base, e), ChangesOf(kept + gone[..i], e)))
    {
      var k := |kept| + i;
      assert ps[k] == gone[i] && ps[..k] == kept + gone[..i];
      assert gone[i] in gone;
    }
  }

  lemma WithdrawnOn(s: Cache, root: Interaction, order: seq<Interaction>, e: EntityKey)
    requires Wellformed(s) && EntitySound(s, e) && root in s.pending && Cascade(s.pending, root.commandId, order)
    requires RefusalStands(s, root, e)
    ensures Unwinding(s.log, s.base, Drop(s.pending, Ids([root] + order)), [root] + order, s.rows, e)
  {
    var steps, kept := [root] + order, Drop(s.pending, Ids([root] + order));
    WithdrawnLast(s, root, order, e);
    OnMembers(steps, e);
    forall p | p in On(steps, e) ensures GoesWith(s, root, p) {
      StepsGoWith(s, root, order, p);
    }
    RestoresGone(s, root, On(kept, e), On(steps, e), e);
  }

  lemma StepsReversible(s: Cache, root: Interaction, order: seq<Interaction>, p: Interaction)
    requires Inv(s) && s.disturbed == {} && Acyclic(s.log) && root in s.pending
    requires IsCascade(s.pending, root.commandId, order) && p in [root] + order
    ensures StepReversible(s.log, p)
  {
    StepsGoWith(s, root, order, p);
    PickMembers(s.log, p.predecessors);
    OrderedPart(Pick(s.log, p.predecessors), s.log);
    forall e | Touches(p, e) ensures Chained(On(Pick(s.log, p.predecessors), e)) {
      assert EntitySound(s, e);
      OnMembers(s.pending, e);
      assert p in On(s.pending, e);
    }
  }

  /** A refusal is projected, and leaves every row the authoritative row under the commands that stay, whenever
      the receipts below the withdrawn commands say what the rows below them hold. */
  lemma RefusalGoesThrough(s: Cache, root: Interaction)
    requires Inv(s) && s.disturbed == {} && Acyclic(s.log) && root in s.pending
    requires forall e :: RefusalStands(s, root, e)
    ensures CanWithdraw(s.rows, s.pending, s.log, root)
    ensures forall order, t | Rejects(s, root, order, t) ::
              && t.disturbed == {}
              && forall e :: Lookup(t.rows, e) == Fold(Lookup(s.base, e), ChangesOf(On(t.pending, e), e))
  {
    var order := DependentsExist(s.pending, root.commandId);
    RefusalUnwinds(s, root, order);
    assert UnwindAll(s.log, s.rows, [root] + order).Some?;
    forall order, t | Rejects(s, root, order, t)
      ensures t.disturbed == {}
      ensures forall e :: Lookup(t.rows, e) == Fold(Lookup(s.base, e), ChangesOf(On(t.pending, e), e))
    {
      RefusalUnwinds(s, root, order);
      RefusalUndisturbed(s, root, order, t);
    }
  }

  lemma RefusalUndisturbed(s: Cache, root: Interaction, order: seq<Interaction>, t: Cache)
    requires Inv(s) && s.disturbed == {} && Rejects(s, root, order, t)
    requires forall e :: Lookup(t.rows, e) == Fold(Lookup(s.base, e), ChangesOf(On(t.pending, e), e))
    ensures t.disturbed == {}
  {
    forall e ensures WithdrawsAt(s, Ids([root] + order), [root] + order, e) {
      RejectEntity(s, root, order, t, e);
      LinksChanges(t.log, On(t.pending, e), e);
    }
  }

  lemma RefusalUnwinds(s: Cache, root: Interaction, order: seq<Interaction>)
    requires Inv(s) && s.disturbed == {} && Acyclic(s.log) && root in s.pending
    requires (forall e :: RefusalStands(s, root, e)) && Cascade(s.pending, root.commandId, order)
    ensures UnwindAll(s.log, s.rows, [root] + order).Some?
    ensures forall e :: Lookup(UnwindAll(s.log, s.rows, [root] + order).value, e)
                        == Fold(Lookup(s.base, e), ChangesOf(On(Drop(s.pending, Ids([root] + order)), e), e))
  {
    forall p | p in [root] + order ensures StepReversible(s.log, p) {
      StepsReversible(s, root, order, p);
    }
    forall e ensures Unwinding(s.log, s.base, Drop(s.pending, Ids([root] + order)), [root] + order, s.rows, e) {
      assert EntitySound(s, e);
      WithdrawnOn(s, root, order, e);
    }
    AllUnwind(s.log, s.base, Drop(s.pending, Ids([root] + order)), [root] + order, s.rows);
  }
}
