/**
 What stays true of one cached row while its pending changes are added, acknowledged and
 withdrawn: the row is the authoritative row under the pending changes, and every pending change
 carries the preimage it was made on. Each of the three steps keeps that exactly on a stated
 condition about the records, the reply and the rows that the step itself handles.
 */
module CacheRow {
  import opened Wrappers
  import opened WorkspaceDelta
  import opened RowChain

  /** A pending change with the accepted changes of its confirmed predecessors, oldest first. */
  datatype Link = Link(change: EntityChange, accepted: seq<EntityChange>)

  function Changes(links: seq<Link>): (cs: seq<EntityChange>)
    ensures |cs| == |links| && forall i | 0 <= i < |links| :: cs[i] == links[i].change
  {
    if links == [] then [] else Changes(links[..|links| - 1]) + [links[|links| - 1].change]
  }

  function Inverses(links: seq<Link>): (cs: seq<EntityChange>)
    ensures |cs| == |links|
  {
    if links == [] then []
    else Inverses(links[..|links| - 1]) + [Rollback(links[|links| - 1].change, links[|links| - 1].accepted)]
  }

  /** The authoritative row under the pending changes. */
  function Under(base: Option<Row>, links: seq<Link>): Option<Row> {
    Fold(base, Changes(links))
  }

  lemma UnderLast(base: Option<Row>, init: seq<Link>, l: Link)
    ensures Changes(init + [l]) == Changes(init) + [l.change]
    ensures Inverses(init + [l]) == Inverses(init) + [Rollback(l.change, l.accepted)]
    ensures Under(base, init + [l]) == Force(Under(base, init), l.change)
    ensures Hits(base, Changes(init + [l])) <==>
              Hits(base, Changes(init)) && (l.change.Whole() || Under(base, init).Some?)
  {
    assert (init + [l])[..|init|] == init;
    var cs := Changes(init);
    assert (cs + [l.change])[..|cs|] == cs;
  }

  lemma ChangesConcat(a: seq<Link>, b: seq<Link>)
    ensures Changes(a + b) == Changes(a) + Changes(b)
  {}

  lemma UnderFirst(base: Option<Row>, first: Link, later: seq<Link>)
    ensures Changes([first] + later) == [first.change] + Changes(later)
    ensures Under(base, [first] + later) == Under(Force(base, first.change), later)
    ensures Hits(base, Changes([first] + later))
            <==> (first.change.Whole() || base.Some?) && Hits(Force(base, first.change), Changes(later))
  {
    ChangesConcat([first], later);
    FoldOne(base, first.change, Changes(later));
  }

  predicate DecidedBy(accepted: seq<EntityChange>, f: Field) {
    exists i | 0 <= i < |accepted| :: Decides(accepted[i], f)
  }

  /** A pending change sits on the row below it: it was made on a row that was there or was not there
      just the same, and on the values below it, except where a receipt of one of its predecessors
      decides the field and no pending change in between does. */
  ghost predicate LinkSound(base: Option<Row>, init: seq<Link>, l: Link) {
    && l.change.before.Some? == Under(base, init).Some?
    && forall f | l.change.Names(f) && (!DecidedBy(l.accepted, f) || SetBy(Changes(init), f)) ::
         Cell(l.change.before, f) == Cell(Under(base, init), f)
  }

  ghost predicate LinksSound(base: Option<Row>, links: seq<Link>) {
    links == [] || (LinksSound(base, links[..|links| - 1]) && LinkSound(base, links[..|links| - 1], links[|links| - 1]))
  }

  ghost predicate RowSound(base: Option<Row>, row: Option<Row>, links: seq<Link>) {
    row == Under(base, links) && LinksSound(base, links)
  }

  lemma LinksSoundLast(base: Option<Row>, init: seq<Link>, l: Link)
    ensures LinksSound(base, init + [l]) <==> LinksSound(base, init) && LinkSound(base, init, l)
  {
    assert (init + [l])[..|init|] == init;
  }

  lemma {:induction false} LinkAt(base: Option<Row>, links: seq<Link>, i: nat)
    requires LinksSound(base, links) && i < |links|
    ensures LinksSound(base, links[..i]) && LinkSound(base, links[..i], links[i])
    decreases |links|
  {
    var init, l := links[..|links| - 1], links[|links| - 1];
    assert links == init + [l];
    LinksSoundLast(base, init, l);
    if i < |init| {
      LinkAt(base, init, i);
      assert init[..i] == links[..i];
    }
  }

  lemma {:induction false} SoundHits(base: Option<Row>, links: seq<Link>)
    requires LinksSound(base, links)
    ensures Hits(base, Changes(links))
    decreases |links|
  {
    if links != [] {
      var init, l := links[..|links| - 1], links[|links| - 1];
      assert links == init + [l];
      SoundHits(base, init);
      UnderLast(base, init, l);
    }
  }

  // ---------------------------------------------------------------------------------------
  // A new change
  // ---------------------------------------------------------------------------------------

  /** The change was computed from the row it is applied to, up to fields that only receipts decide. */
  ghost predicate AddsCleanly(row: Option<Row>, links: seq<Link>, l: Link) {
    && l.change.before.Some? == row.Some?
    && forall f | l.change.Names(f) && (!DecidedBy(l.accepted, f) || SetBy(Changes(links), f)) ::
         Cell(l.change.before, f) == Cell(row, f)
  }

  /** A new change keeps the row sound exactly when it was computed from it. */
  lemma RowAdd(base: Option<Row>, row: Option<Row>, links: seq<Link>, l: Link)
    requires RowSound(base, row, links)
    requires PatchRow(row, l.change, true).Patched?
    ensures RowSound(base, PatchRow(row, l.change, true).row, links + [l]) <==> AddsCleanly(row, links, l)
  {
    LinksSoundLast(base, links, l);
    UnderLast(base, links, l);
  }

  // ---------------------------------------------------------------------------------------
  // A withdrawal
  // ---------------------------------------------------------------------------------------

  /** The value that withdrawing the change restores in this field. */
  function Restored(l: Link, f: Field): Option<Value> {
    Cell(Rollback(l.change, l.accepted).after, f)
  }

  /** A predecessor's receipt took the field away. */
  predicate RemovedBy(accepted: seq<EntityChange>, f: Field) {
    exists i | 0 <= i < |accepted| :: Decides(accepted[i], f) && f !in accepted[i].after.value
  }

  /** The value that the last receipt to hold the field gives it. */
  function LastHeld(accepted: seq<EntityChange>, f: Field): Option<Value> {
    if accepted == [] then None
    else if accepted[|accepted| - 1].after.Some? && f in accepted[|accepted| - 1].after.value
    then Some(accepted[|accepted| - 1].after.value[f])
    else LastHeld(accepted[..|accepted| - 1], f)
  }

  lemma LastReceipt(accepted: seq<EntityChange>, f: Field)
    requires accepted != []
    ensures RemovedBy(accepted, f) <==>
            RemovedBy(accepted[..|accepted| - 1], f)
            || (Decides(accepted[|accepted| - 1], f) && f !in accepted[|accepted| - 1].after.value)
    ensures DecidedBy(accepted, f) <==> DecidedBy(accepted[..|accepted| - 1], f) || Decides(accepted[|accepted| - 1], f)
  {
    var init := accepted[..|accepted| - 1];
    if RemovedBy(init, f) {
      var i :| 0 <= i < |init| && Decides(init[i], f) && f !in init[i].after.value;
      assert accepted[i] == init[i];
    }
    if DecidedBy(init, f) {
      var i :| 0 <= i < |init| && Decides(init[i], f);
      assert accepted[i] == init[i];
    }
    assert Decides(accepted[|accepted| - 1], f) ==> DecidedBy(accepted, f);
  }

  lemma {:induction false} OverlaidCell(row: Row, accepted: seq<EntityChange>, f: Field)
    ensures Cell(Some(OverlayAll(row, accepted)), f) ==
            if f !in row || RemovedBy(accepted, f) then None
            else if LastHeld(accepted, f).Some? then LastHeld(accepted, f) else Cell(Some(row), f)
    decreases |accepted|
  {
    if accepted != [] {
      OverlaidCell(row, accepted[..|accepted| - 1], f);
      LastReceipt(accepted, f);
    }
  }

  /** What a withdrawal restores, in terms of the receipts: nothing where the change was made without
      the field or a predecessor's receipt took it away, the last receipt's value where one holds
      it, and the preimage otherwise. */
  lemma RestoredFrom(l: Link, f: Field)
    ensures Restored(l, f) ==
            if Cell(l.change.before, f).None? || RemovedBy(l.accepted, f) then None
            else if LastHeld(l.accepted, f).Some? then LastHeld(l.accepted, f)
            else Cell(l.change.before, f)
    ensures !DecidedBy(l.accepted, f) ==> Restored(l, f) == Cell(l.change.before, f)
  {
    if l.change.before.Some? {
      OverlaidCell(l.change.before.value, l.accepted, f);
    }
    if !DecidedBy(l.accepted, f) {
      UndecidedHolds(l.accepted, f);
    }
  }

  lemma {:induction false} UndecidedHolds(accepted: seq<EntityChange>, f: Field)
    requires !DecidedBy(accepted, f)
    ensures !RemovedBy(accepted, f) && LastHeld(accepted, f).None?
    decreases |accepted|
  {
    if accepted != [] {
      LastReceipt(accepted, f);
      UndecidedHolds(accepted[..|accepted| - 1], f);
    }
  }

  lemma {:induction false} OverlayShrinks(row: Row, accepted: seq<EntityChange>)
    ensures OverlayAll(row, accepted).Keys <= row.Keys
    decreases |accepted|
  {
    if accepted != [] {
      OverlayShrinks(row, accepted[..|accepted| - 1]);
    }
  }

  lemma RollbackNames(l: Link, f: Field)
    requires Rollback(l.change, l.accepted).Names(f)
    ensures l.change.Names(f)
  {
    if l.change.before.Some? {
      OverlayShrinks(l.change.before.value, l.accepted);
    }
  }

  /** The changes name the field, but none of their inverses does. */
  ghost predicate Silent(gone: seq<Link>, f: Field) {
    FirstNamer(Changes(gone), f).Some? && FirstNamer(Inverses(gone), f).None?
  }

  lemma NamerLast(cs: seq<EntityChange>, c: EntityChange, f: Field)
    ensures FirstNamer(cs + [c], f) ==
            if FirstNamer(cs, f).Some? then FirstNamer(cs, f) else if c.Names(f) then Some(|cs|) else None
  {
    assert (cs + [c])[..|cs|] == cs;
  }

  lemma SetByLast(cs: seq<EntityChange>, c: EntityChange, f: Field)
    ensures SetBy(cs + [c], f) <==> SetBy(cs, f) || c.Sets(f)
  {
    if SetBy(cs, f) {
      var i :| 0 <= i < |cs| && cs[i].Sets(f);
      assert (cs + [c])[i].Sets(f);
    }
    assert (cs + [c])[|cs|] == c;
  }

  lemma NamersOfLast(init: seq<Link>, l: Link, f: Field)
    ensures FirstNamer(Changes(init + [l]), f) ==
            if FirstNamer(Changes(init), f).Some? then FirstNamer(Changes(init), f)
            else if l.change.Names(f) then Some(|init|) else None
    ensures FirstNamer(Inverses(init + [l]), f) ==
            if FirstNamer(Inverses(init), f).Some? then FirstNamer(Inverses(init), f)
            else if Rollback(l.change, l.accepted).Names(f) then Some(|init|) else None
  {
    UnderLast(None, init, l);
    NamerLast(Changes(init), l.change, f);
    NamerLast(Inverses(init), Rollback(l.change, l.accepted), f);
  }

  /** A change that names a field which its inverse does not name takes the field away. */
  lemma SilentNamed(below: Option<Row>, l: Link, f: Field)
    requires l.change.before.Some? == below.Some?
    requires l.change.Names(f) && !Rollback(l.change, l.accepted).Names(f)
    ensures l.change.Sets(f) && Cell(Force(below, l.change), f).None?
  {
    ForceCell(below, l.change, f);
  }

  /** A field that changes name and no inverse names was taken away by them. */
  lemma {:induction false} SilentIsGone(base: Option<Row>, kept: seq<Link>, gone: seq<Link>, f: Field)
    requires LinksSound(base, kept + gone) && Silent(gone, f)
    ensures SetBy(Changes(kept + gone), f) && Cell(Under(base, kept + gone), f).None?
    decreases |gone|
  {
    var init, l := gone[..|gone| - 1], gone[|gone| - 1];
    assert gone == init + [l] && kept + gone == (kept + init) + [l];
    LinksSoundLast(base, kept + init, l);
    UnderLast(base, kept + init, l);
    NamersOfLast(init, l, f);
    SetByLast(Changes(kept + init), l.change, f);
    if l.change.Names(f) {
      SilentNamed(Under(base, kept + init), l, f);
    } else {
      SilentIsGone(base, kept, init, f);
      UnnamedStep(Under(base, kept + init), l, f);
    }
  }

  /** An inverse names no field that its change does not name. */
  lemma {:induction false} InversesName(gone: seq<Link>, f: Field)
    requires FirstNamer(Changes(gone), f).None?
    ensures FirstNamer(Inverses(gone), f).None?
    decreases |gone|
  {
    if gone != [] {
      var init, l := gone[..|gone| - 1], gone[|gone| - 1];
      assert gone == init + [l];
      NamersOfLast(init, l, f);
      InversesName(init, f);
      if Rollback(l.change, l.accepted).Names(f) {
        RollbackNames(l, f);
      }
    }
  }

  /** The first inverse of a withdrawal that is applied. */
  lemma WithdrawStep(base: Option<Row>, kept: seq<Link>, init: seq<Link>, l: Link, row: Option<Row>, f: Field)
    requires LinksSound(base, kept + init) && LinkSound(base, kept + init, l)
    requires PatchRow(row, Rollback(l.change, l.accepted), true).Patched?
    requires Silent(init + [l], f) ==> Cell(row, f).None?
    ensures var back := PatchRow(row, Rollback(l.change, l.accepted), true).row;
            && (Silent(init, f) ==> Cell(back, f).None?)
            && (FirstNamer(Changes(init), f).None? ==>
                  Cell(back, f) == if l.change.Names(f) then Restored(l, f) else Cell(row, f))
  {
    NamersOfLast(init, l, f);
    CheckedCell(row, Rollback(l.change, l.accepted), f);
    RestoredFrom(l, f);
    if Rollback(l.change, l.accepted).Names(f) {
      RollbackNames(l, f);
      if Silent(init, f) {
        SilentIsGone(base, kept, init, f);
      }
    }
    if FirstNamer(Changes(init), f).None? {
      InversesName(init, f);
    }
  }

  lemma UnwindInit(row: Option<Row>, init: seq<Link>, l: Link)
    requires Unwind(row, Inverses(init + [l])).Some?
    ensures PatchRow(row, Rollback(l.change, l.accepted), true).Patched?
    ensures Unwind(row, Inverses(init + [l]))
            == Unwind(PatchRow(row, Rollback(l.change, l.accepted), true).row, Inverses(init))
  {
    UnderLast(None, init, l);
    assert (Inverses(init) + [Rollback(l.change, l.accepted)])[..|init|] == Inverses(init);
  }

  /** What the oldest change that names the field restores; a field that none names stays. */
  function Ends(gone: seq<Link>, row: Option<Row>, f: Field): Option<Value> {
    var i := FirstNamer(Changes(gone), f);
    if i.Some? then Restored(gone[i.value], f) else Cell(row, f)
  }

  lemma EndsLast(init: seq<Link>, l: Link, row: Option<Row>, back: Option<Row>, f: Field)
    requires FirstNamer(Changes(init), f).None? ==>
               Cell(back, f) == if l.change.Names(f) then Restored(l, f) else Cell(row, f)
    ensures Ends(init + [l], row, f) == Ends(init, back, f)
  {
    NamersOfLast(init, l, f);
  }

  lemma SoundSplit(base: Option<Row>, kept: seq<Link>, init: seq<Link>, l: Link)
    ensures kept + (init + [l]) == (kept + init) + [l]
    ensures LinksSound(base, kept + (init + [l])) <==> LinksSound(base, kept + init) && LinkSound(base, kept + init, l)
  {
    assert kept + (init + [l]) == (kept + init) + [l];
    LinksSoundLast(base, kept + init, l);
  }

  lemma WithdrawNothing(row: Option<Row>, f: Field)
    ensures Unwind(row, Inverses([])) == Some(row) && Ends([], row, f) == Cell(row, f)
  {}

  /** Field by field, a withdrawal ends at what the oldest withdrawn change that names the field
      restores, and leaves the other fields. */
  lemma {:induction false} WithdrawCell(base: Option<Row>, kept: seq<Link>, gone: seq<Link>, row: Option<Row>, f: Field)
    requires LinksSound(base, kept + gone) && Unwind(row, Inverses(gone)).Some?
    requires Silent(gone, f) ==> Cell(row, f).None?
    ensures Cell(Unwind(row, Inverses(gone)).value, f) == Ends(gone, row, f)
    decreases |gone|, 0
  {
    if gone == [] {
      WithdrawNothing(row, f);
    } else {
      WithdrawCellLast(base, kept, gone, gone[..|gone| - 1], gone[|gone| - 1], row, f);
    }
  }

  lemma {:induction false} WithdrawCellLast(base: Option<Row>, kept: seq<Link>, gone: seq<Link>, init: seq<Link>,
                                            l: Link, row: Option<Row>, f: Field)
    requires gone == init + [l]
    requires LinksSound(base, kept + gone) && Unwind(row, Inverses(gone)).Some?
    requires Silent(gone, f) ==> Cell(row, f).None?
    ensures Cell(Unwind(row, Inverses(gone)).value, f) == Ends(gone, row, f)
    decreases |init|, 1
  {
    SoundSplit(base, kept, init, l);
    UnwindInit(row, init, l);
    WithdrawStep(base, kept, init, l, row, f);
    var back := PatchRow(row, Rollback(l.change, l.accepted), true).row;
    WithdrawCell(base, kept, init, back, f);
    EndsLast(init, l, row, back, f);
  }

  lemma UnnamedStep(below: Option<Row>, l: Link, f: Field)
    requires l.change.before.Some? == below.Some? && !l.change.Names(f)
    ensures Cell(Force(below, l.change), f) == Cell(below, f)
  {
    ForceCell(below, l.change, f);
  }

  lemma {:induction false} UnnamedUnder(base: Option<Row>, kept: seq<Link>, gone: seq<Link>, f: Field)
    requires LinksSound(base, kept + gone) && FirstNamer(Changes(gone), f).None?
    ensures Cell(Under(base, kept + gone), f) == Cell(Under(base, kept), f)
    decreases |gone|, 0
  {
    if gone == [] {
      assert kept + gone == kept;
    } else {
      assert gone == gone[..|gone| - 1] + [gone[|gone| - 1]];
      UnnamedLast(base, kept, gone[..|gone| - 1], gone[|gone| - 1], f);
    }
  }

  lemma {:induction false} UnnamedLast(base: Option<Row>, kept: seq<Link>, init: seq<Link>, l: Link, f: Field)
    requires LinksSound(base, kept + (init + [l])) && FirstNamer(Changes(init + [l]), f).None?
    ensures Cell(Under(base, kept + (init + [l])), f) == Cell(Under(base, kept), f)
    decreases |init|, 1
  {
    SoundSplit(base, kept, init, l);
    UnderLast(base, kept + init, l);
    NamersOfLast(init, l, f);
    UnnamedStep(Under(base, kept + init), l, f);
    UnnamedUnder(base, kept, init, f);
  }

  /** For every field that a withdrawn change names: the oldest such change has no confirmed
      predecessor that decides the field, or what the receipts restore is the kept value. */
  ghost predicate WithdrawsExactly(base: Option<Row>, kept: seq<Link>, gone: seq<Link>) {
    forall f :: FirstNamer(Changes(gone), f).Some? ==>
      var l := gone[FirstNamer(Changes(gone), f).value];
      DecidedBy(l.accepted, f) ==> Restored(l, f) == Cell(Under(base, kept), f)
  }

  lemma NoneBefore(gone: seq<Link>, i: nat, f: Field)
    requires i < |gone| && FirstNamer(Changes(gone), f) == Some(i)
    ensures FirstNamer(Changes(gone[..i]), f).None? && gone[i].change.Names(f)
  {
    assert forall k | 0 <= k < i :: Changes(gone[..i])[k] == Changes(gone)[k];
  }

  lemma LinkBelow(base: Option<Row>, kept: seq<Link>, gone: seq<Link>, i: nat)
    requires LinksSound(base, kept + gone) && i < |gone|
    ensures LinksSound(base, kept + gone[..i]) && LinkSound(base, kept + gone[..i], gone[i])
  {
    LinkAt(base, kept + gone, |kept| + i);
    assert (kept + gone)[|kept| + i] == gone[i] && (kept + gone)[..|kept| + i] == kept + gone[..i];
  }

  /** The oldest change that names a field was made on the kept value of it. */
  lemma OldestRestores(base: Option<Row>, kept: seq<Link>, gone: seq<Link>, i: nat, f: Field)
    requires LinksSound(base, kept + gone) && i < |gone| && FirstNamer(Changes(gone), f) == Some(i)
    requires !DecidedBy(gone[i].accepted, f)
    ensures Restored(gone[i], f) == Cell(Under(base, kept), f)
  {
    NoneBefore(gone, i, f);
    LinkBelow(base, kept, gone, i);
    UnnamedUnder(base, kept, gone[..i], f);
    RestoredFrom(gone[i], f);
  }

  /** Withdrawing the newest changes gives back the row under the older ones exactly when, field by
      field, the receipts below the oldest withdrawn change agree with it. */
  lemma RowWithdraw(base: Option<Row>, row: Option<Row>, kept: seq<Link>, gone: seq<Link>)
    requires RowSound(base, row, kept + gone) && Unwind(row, Inverses(gone)).Some?
    ensures LinksSound(base, kept)
    ensures RowSound(base, Unwind(row, Inverses(gone)).value, kept) <==> WithdrawsExactly(base, kept, gone)
  {
    var back := Unwind(row, Inverses(gone)).value;
    WithdrawShape(base, row, kept, gone);
    forall f
      ensures Cell(back, f) == Cell(Under(base, kept), f) <==>
              (FirstNamer(Changes(gone), f).Some? ==>
                 var l := gone[FirstNamer(Changes(gone), f).value];
                 DecidedBy(l.accepted, f) ==> Restored(l, f) == Cell(Under(base, kept), f))
    {
      WithdrawnCell(base, row, kept, gone, f);
    }
    if WithdrawsExactly(base, kept, gone) {
      forall f ensures Cell(back, f) == Cell(Under(base, kept), f) {}
      RowsEqual(back, Under(base, kept));
    }
  }

  lemma WithdrawnCell(base: Option<Row>, row: Option<Row>, kept: seq<Link>, gone: seq<Link>, f: Field)
    requires RowSound(base, row, kept + gone) && Unwind(row, Inverses(gone)).Some?
    ensures Cell(Unwind(row, Inverses(gone)).value, f) == Cell(Under(base, kept), f) <==>
            (FirstNamer(Changes(gone), f).Some? ==>
               var l := gone[FirstNamer(Changes(gone), f).value];
               DecidedBy(l.accepted, f) ==> Restored(l, f) == Cell(Under(base, kept), f))
  {
    if Silent(gone, f) {
      SilentIsGone(base, kept, gone, f);
    }
    WithdrawCell(base, kept, gone, row, f);
    if FirstNamer(Changes(gone), f).None? {
      UnnamedUnder(base, kept, gone, f);
    } else if !DecidedBy(gone[FirstNamer(Changes(gone), f).value].accepted, f) {
      OldestRestores(base, kept, gone, FirstNamer(Changes(gone), f).value, f);
    }
  }

  lemma WithdrawShape(base: Option<Row>, row: Option<Row>, kept: seq<Link>, gone: seq<Link>)
    requires RowSound(base, row, kept + gone) && Unwind(row, Inverses(gone)).Some?
    ensures LinksSound(base, kept)
    ensures Unwind(row, Inverses(gone)).value.Some? == Under(base, kept).Some?
  {
    UnwindCell(row, Inverses(gone), "");
    if gone == [] {
      assert kept + gone == kept;
    } else {
      assert (kept + gone)[|kept|] == gone[0] && (kept + gone)[..|kept|] == kept;
      LinkAt(base, kept + gone, |kept|);
      FirstInverse(gone);
    }
  }

  lemma {:induction false} FirstInverse(gone: seq<Link>)
    requires gone != []
    ensures Inverses(gone)[0] == Rollback(gone[0].change, gone[0].accepted)
    decreases |gone|
  {
    if |gone| > 1 {
      FirstInverse(gone[..|gone| - 1]);
    }
  }

  // ---------------------------------------------------------------------------------------
  // An acknowledgement
  // ---------------------------------------------------------------------------------------

  /** The receipt joins the confirmed predecessors of every later change. */
  function Acknowledged(links: seq<Link>, accepted: EntityChange): (r: seq<Link>)
    ensures |r| == |links| && Changes(r) == Changes(links)
  {
    if links == [] then []
    else Acknowledged(links[..|links| - 1], accepted)
         + [Link(links[|links| - 1].change, links[|links| - 1].accepted + [accepted])]
  }

  lemma AcknowledgedLast(init: seq<Link>, l: Link, accepted: EntityChange)
    ensures Acknowledged(init + [l], accepted) == Acknowledged(init, accepted)
            + [Link(l.change, l.accepted + [accepted])]
  {
    assert (init + [l])[..|init|] == init;
  }

  /** Where neither a receipt nor a pending change in between decides a field that a later change was
      made on, the confirmed row holds what the optimistic one held. */
  ghost predicate LaterKept(base: Option<Row>, optimistic: EntityChange, accepted: EntityChange, init: seq<Link>,
                            l: Link)
  {
    forall f | l.change.Names(f) && !DecidedBy(l.accepted + [accepted], f) && !SetBy(Changes(init), f) ::
      Cell(Force(base, accepted), f) == Cell(Force(base, optimistic), f)
  }

  ghost predicate AllLaterKept(base: Option<Row>, optimistic: EntityChange, accepted: EntityChange, later: seq<Link>) {
    later == [] ||
    (AllLaterKept(base, optimistic, accepted, later[..|later| - 1])
     && LaterKept(base, optimistic, accepted, later[..|later| - 1], later[|later| - 1]))
  }

  ghost predicate SettlesCleanly(base: Option<Row>, optimistic: EntityChange, priors: seq<Row>, accepted: EntityChange,
                                 later: seq<Link>) {
    && (!optimistic.Whole() ==> SettlesExactly(base, Baseline(Some(optimistic), priors, accepted), optimistic,
                                               accepted, Changes(later)))
    && AllLaterKept(base, optimistic, accepted, later)
  }

  lemma SettledRow(base: Option<Row>, optimistic: EntityChange, priors: seq<Row>, accepted: EntityChange,
                   later: seq<EntityChange>)
    requires SameShape(optimistic, accepted) && Hits(base, [optimistic] + later)
    requires Settlement(Some(optimistic), priors, accepted, later).Some?
    requires PatchRow(Fold(base, [optimistic] + later), Settlement(Some(optimistic), priors, accepted, later).value,
                      true).Patched?
    ensures PatchRow(Fold(base, [optimistic] + later), Settlement(Some(optimistic), priors, accepted, later).value,
                     true).row
            == Fold(base, [accepted] + later)
            <==> (optimistic.Whole() || SettlesExactly(base, Baseline(Some(optimistic), priors, accepted),
                                                       optimistic, accepted, later))
  {
    if optimistic.Whole() {
      SettleWhole(base, optimistic, priors, accepted, later);
    } else {
      SettleUpdate(base, optimistic, priors, accepted, later);
    }
  }

  /** One later change after the receipt. */
  lemma SettledLink(base: Option<Row>, o: EntityChange, accepted: EntityChange, first: Link, init: seq<Link>, l: Link)
    requires first.change == o && SameShape(o, accepted) && o.before.Some? == base.Some?
    requires LinksSound(base, [first] + init) && LinkSound(base, [first] + init, l)
    ensures LinkSound(Force(base, accepted), Acknowledged(init, accepted), Link(l.change, l.accepted + [accepted]))
            <==> LaterKept(base, o, accepted, init, l)
  {
    LinkFields(Force(base, accepted), init, l, accepted);
    SoundHits(base, [first] + init);
    UnderFirst(base, first, init);
    SettledLinkPresence(base, o, accepted, first, init, l);
    SettledLinkFields(base, o, accepted, first, init, l);
  }

  lemma SettledLinkFields(base: Option<Row>, o: EntityChange, accepted: EntityChange, first: Link, init: seq<Link>,
                          l: Link)
    requires first.change == o && SameShape(o, accepted) && o.before.Some? == base.Some?
    requires Hits(Force(base, o), Changes(init)) && LinkSound(base, [first] + init, l)
    ensures AllLinkFields(Force(base, accepted), init, l, accepted) <==> LaterKept(base, o, accepted, init, l)
  {
    forall f | l.change.Names(f)
      ensures LinkField(Force(base, accepted), init, l, accepted, f)
              <==> (!DecidedBy(l.accepted + [accepted], f) && !SetBy(Changes(init), f) ==>
                      Cell(Force(base, accepted), f) == Cell(Force(base, o), f))
    {
      SettledLinkCell(base, o, accepted, first, init, l, f);
    }
  }

  lemma SettledLinkPresence(base: Option<Row>, o: EntityChange, accepted: EntityChange, first: Link, init: seq<Link>,
                            l: Link)
    requires first.change == o && SameShape(o, accepted) && o.before.Some? == base.Some?
    requires Hits(Force(base, o), Changes(init)) && LinkSound(base, [first] + init, l)
    ensures l.change.before.Some? == Under(Force(base, accepted), init).Some?
  {
    UnderFirst(base, first, init);
    SettledPresence(base, o, accepted, Changes(init));
  }

  lemma LinkFields(base: Option<Row>, init: seq<Link>, l: Link, accepted: EntityChange)
    ensures LinkSound(base, Acknowledged(init, accepted), Link(l.change, l.accepted + [accepted]))
            <==> l.change.before.Some? == Under(base, init).Some? && AllLinkFields(base, init, l, accepted)
  {
    assert Under(base, Acknowledged(init, accepted)) == Under(base, init);
  }

  /** What the settled link asks of one field. */
  ghost predicate LinkField(base: Option<Row>, init: seq<Link>, l: Link, accepted: EntityChange, f: Field) {
    !DecidedBy(l.accepted + [accepted], f) || SetBy(Changes(init), f) ==>
        Cell(l.change.before, f) == Cell(Under(base, init), f)
  }

  ghost predicate AllLinkFields(base: Option<Row>, init: seq<Link>, l: Link, accepted: EntityChange) {
    forall f | l.change.Names(f) :: LinkField(base, init, l, accepted, f)
  }

  lemma SettledPresence(base: Option<Row>, o: EntityChange, accepted: EntityChange, mid: seq<EntityChange>)
    requires SameShape(o, accepted) && o.before.Some? == base.Some? && Hits(Force(base, o), mid)
    ensures Fold(Force(base, accepted), mid).Some? == Fold(Force(base, o), mid).Some?
    ensures Force(base, o).Some? == Force(base, accepted).Some?
  {
    ForceCell(base, o, "");
    ForceCell(base, accepted, "");
    FoldCell(Force(base, o), Force(base, accepted), mid, "");
  }

  lemma SettledLinkCell(base: Option<Row>, o: EntityChange, accepted: EntityChange, first: Link, init: seq<Link>,
                        l: Link, f: Field)
    requires first.change == o && SameShape(o, accepted) && o.before.Some? == base.Some?
    requires Hits(Force(base, o), Changes(init)) && LinkSound(base, [first] + init, l) && l.change.Names(f)
    ensures (!DecidedBy(l.accepted + [accepted], f) || SetBy(Changes(init), f) ==>
               Cell(l.change.before, f) == Cell(Fold(Force(base, accepted), Changes(init)), f))
            <==> (!DecidedBy(l.accepted + [accepted], f) && !SetBy(Changes(init), f) ==>
                    Cell(Force(base, accepted), f) == Cell(Force(base, o), f))
  {
    UnderFirst(base, first, init);
    SettledPresence(base, o, accepted, Changes(init));
    FoldCell(Force(base, o), Force(base, accepted), Changes(init), f);
    LastReceipt(l.accepted + [accepted], f);
    assert (l.accepted + [accepted])[..|l.accepted|] == l.accepted;
    if SetBy(Changes(init), f) {
      var i :| 0 <= i < |init| && Changes(init)[i].Sets(f);
      assert Changes([first] + init)[i + 1].Sets(f);
    }
  }

  lemma {:induction false} SettledLinks(base: Option<Row>, first: Link, accepted: EntityChange, later: seq<Link>)
    requires LinksSound(base, [first] + later) && SameShape(first.change, accepted)
    ensures LinksSound(Force(base, accepted), Acknowledged(later, accepted))
            <==> AllLaterKept(base, first.change, accepted, later)
    decreases |later|
  {
    if later != [] {
      var init, l := later[..|later| - 1], later[|later| - 1];
      assert later == init + [l] && [first] + later == ([first] + init) + [l];
      LinksSoundLast(base, [first] + init, l);
      SettledLinks(base, first, accepted, init);
      AcknowledgedLast(init, l, accepted);
      FirstSound(base, first, init);
      SettledLink(base, first.change, accepted, first, init, l);
      LinksSoundLast(Force(base, accepted), Acknowledged(init, accepted), Link(l.change, l.accepted + [accepted]));
    }
  }

  lemma FirstSound(base: Option<Row>, first: Link, later: seq<Link>)
    requires LinksSound(base, [first] + later)
    ensures LinkSound(base, [], first) && first.change.before.Some? == base.Some?
  {
    LinkAt(base, [first] + later, 0);
    assert ([first] + later)[..0] == [];
  }

  /** An acknowledgement of the oldest pending change moves it from the pending side of the row to
      the authoritative side, exactly on the stated condition. */
  lemma RowSettle(base: Option<Row>, row: Option<Row>, first: Link, priors: seq<Row>, accepted: EntityChange,
                  later: seq<Link>)
    requires RowSound(base, row, [first] + later) && SameShape(first.change, accepted)
    requires Settlement(Some(first.change), priors, accepted, Changes(later)).Some?
    requires PatchRow(row, Settlement(Some(first.change), priors, accepted, Changes(later)).value, true).Patched?
    ensures RowSound(Force(base, accepted),
                     PatchRow(row, Settlement(Some(first.change), priors, accepted, Changes(later)).value, true).row,
                     Acknowledged(later, accepted))
            <==> SettlesCleanly(base, first.change, priors, accepted, later)
  {
    SoundHits(base, [first] + later);
    UnderFirst(base, first, later);
    SettledRow(base, first.change, priors, accepted, Changes(later));
    FoldOne(base, accepted, Changes(later));
    SettledLinks(base, first, accepted, later);
  }

  /** A receipt that confirms exactly the optimistic change always settles cleanly. */
  lemma {:induction false} ExactSettles(base: Option<Row>, optimistic: EntityChange, priors: seq<Row>, later: seq<Link>)
    ensures SettlesCleanly(base, optimistic, priors, optimistic, later)
    decreases |later|
  {
    if later != [] {
      ExactSettles(base, optimistic, priors, later[..|later| - 1]);
    }
  }

  // ---------------------------------------------------------------------------------------
  // A rebuild
  // ---------------------------------------------------------------------------------------

  /** A change that no receipt has reached fits the row below it. */
  lemma UndecidedFits(base: Option<Row>, init: seq<Link>, l: Link)
    requires LinkSound(base, init, l) && l.accepted == []
    ensures Fits(Under(base, init), l.change)
  {
    forall f | l.change.Names(f) ensures Cell(Under(base, init), f) == Cell(l.change.before, f) {
      assert !DecidedBy(l.accepted, f);
    }
    if l.change.Whole() {
      RowsEqual(Under(base, init), l.change.before);
    }
  }

  /** A chain that no receipt has reached sits on the row, change upon change. */
  lemma UndecidedSits(base: Option<Row>, links: seq<Link>)
    requires LinksSound(base, links) && forall l | l in links :: l.accepted == []
    ensures Sits(base, Changes(links))
  {
    forall i | 0 <= i < |links| ensures Fits(Fold(base, Changes(links)[..i]), Changes(links)[i]) {
      UndecidedSitsAt(base, links, i);
    }
  }

  lemma UndecidedSitsAt(base: Option<Row>, links: seq<Link>, i: nat)
    requires LinksSound(base, links) && i < |links| && links[i].accepted == []
    ensures Fits(Fold(base, Changes(links)[..i]), Changes(links)[i])
  {
    LinkAt(base, links, i);
    UndecidedFits(base, links[..i], links[i]);
    assert Changes(links[..i]) == Changes(links)[..i];
  }
}
