/**
 One row under receipts and retained changes. The retained ones are rebased over the receipts of their
 confirmed ancestors and over one another; replayed over the authoritative row they do what they did
 exactly when none sets a field to a value that has come and gone below it.
 */
module CommittedRow {
  import opened Wrappers
  import opened WorkspaceDelta
  import opened RowChain
  import opened CacheRow

  /** Each change over the receipts and then over the earlier changes as they were rebased themselves. */
  function RebaseFrom(receipts: seq<EntityChange>, cs: seq<EntityChange>): (r: seq<EntityChange>)
    ensures |r| == |cs|
  {
    if cs == [] then []
    else
      var init := RebaseFrom(receipts, cs[..|cs| - 1]);
      init + [Rebase(cs[|cs| - 1], receipts + init)]
  }

  lemma {:induction false} RebaseFromAt(receipts: seq<EntityChange>, cs: seq<EntityChange>, n: nat)
    requires n <= |cs|
    ensures RebaseFrom(receipts, cs)[..n] == RebaseFrom(receipts, cs[..n])
    ensures n < |cs| ==> RebaseFrom(receipts, cs)[n] == Rebase(cs[n], receipts + RebaseFrom(receipts, cs[..n]))
    decreases |cs|
  {
    if n < |cs| {
      var init := cs[..|cs| - 1];
      RebaseFromAt(receipts, init, n);
      assert init[..n] == cs[..n];
    } else {
      assert cs[..n] == cs;
    }
  }

  /** The value was left in the field only by the last change to decide it, or by none. */
  ghost predicate Unrepeated(c: EntityChange, over: seq<EntityChange>) {
    c.Whole() || forall f | f != "id" && c.Sets(f) && LeftBefore(over, f, Cell(c.after, f)) ::
      LeftLast(over, f, Cell(c.before, f)) == Cell(c.after, f)
  }

  /** The change was made on a row that was there or was not there just the same, and on the values of the row,
      except where one of the changes below it sets the field; and under the row's own identity. */
  ghost predicate MadeOn(row: Option<Row>, c: EntityChange, over: seq<EntityChange>) {
    && c.before.Some? == row.Some?
    && forall f | c.Names(f) && Cell(c.before, f) != Cell(row, f) ::
         f != "id" && DecidedBy(over, f) && SetBy(over, f)
  }

  lemma {:induction false} DecidedIsLast(over: seq<EntityChange>, f: Field, v: Option<Value>, w: Option<Value>)
    requires DecidedBy(over, f)
    ensures LeftLast(over, f, v) == LeftLast(over, f, w)
    decreases |over|
  {
    var init := over[..|over| - 1];
    if !Decides(over[|over| - 1], f) {
      var i :| 0 <= i < |over| && Decides(over[i], f);
      assert init[i] == over[i];
      DecidedIsLast(init, f, v, w);
    }
  }

  /** A field that a change no longer wants follows the last change to decide it, as long as it is named. */
  lemma {:induction false} UnwantedFollowsLast(c: EntityChange, over: seq<EntityChange>, f: Field)
    requires !c.Whole() && f != "id" && !FateOf(c, over, f).Wanted?
    ensures FateOf(c, over, f).Merged? ==> Some(FateOf(c, over, f).value) == LeftLast(over, f, Cell(c.before, f))
    decreases |over|
  {
    if !c.Sets(f) {
      FollowsLast(c, over, f);
    } else if over != [] {
      var init := over[..|over| - 1];
      StillWanted(c, init, f);
      if !FateOf(c, init, f).Wanted? {
        UnwantedFollowsLast(c, init, f);
      }
    }
  }

  /** What the last change to decide a field of the row left there is what the row holds. */
  lemma LastHolds(below: Option<Row>, all: seq<EntityChange>, done: seq<EntityChange>, n: nat, c: EntityChange,
                  f: Field)
    requires n < |all| == |done| && Exactly(below, all, done, n) && Fold(below, all[..n]).Some?
    requires (forall i | 0 < i < |done| :: done[i].before.Some?) && c.Names(f)
    requires MadeOn(Fold(below, all[..n]), c, done[..n])
    ensures LeftLast(done[..n], f, Cell(c.before, f)) == Cell(Fold(below, all[..n]), f)
  {
    var row := Fold(below, all[..n]);
    LastIsField(below, all, done, n, f);
    if DecidedBy(done[..n], f) {
      DecidedIsLast(done[..n], f, Cell(c.before, f), Cell(row, f));
    }
  }

  lemma UpdateField(below: Option<Row>, all: seq<EntityChange>, done: seq<EntityChange>, n: nat, c: EntityChange,
                    f: Field)
    requires n < |all| == |done| && Exactly(below, all, done, n) && !c.Whole()
    requires (forall i | 0 < i < |done| :: done[i].before.Some?)
    requires MadeOn(Fold(below, all[..n]), c, done[..n])
    ensures var row := Fold(below, all[..n]);
            && FieldAdmits(row, c, done[..n], f)
            && (f != "id" && c.Sets(f) ==>
                  && (FateOf(c, done[..n], f).Wanted? <==> !LeftBefore(done[..n], f, Cell(c.after, f)))
                  && LeftLast(done[..n], f, Cell(c.before, f)) == Cell(row, f))
            && (f == "id" && c.Sets(f) ==> FateOf(c, done[..n], f).Wanted?)
  {
    var row := Fold(below, all[..n]);
    if !c.Names(f) {
      UnnamedIsGone(c, done[..n], f);
    } else if f == "id" {
      IdentityStays(c, done[..n]);
    } else {
      LastHolds(below, all, done, n, c, f);
      if c.Sets(f) {
        StillWanted(c, done[..n], f);
      }
      if !FateOf(c, done[..n], f).Wanted? {
        UnwantedFollowsLast(c, done[..n], f);
      } else if !c.Sets(f) {
        FollowsLast(c, done[..n], f);
      }
    }
  }

  /** An update is accepted in any case, and does what it did exactly when it is not repeated. */
  lemma UpdateStep(below: Option<Row>, all: seq<EntityChange>, done: seq<EntityChange>, n: nat, c: EntityChange)
    requires n < |all| == |done| && Exactly(below, all, done, n) && !c.Whole()
    requires (forall i | 0 < i < |done| :: done[i].before.Some?)
    requires MadeOn(Fold(below, all[..n]), c, done[..n])
    ensures Rebases(Fold(below, all[..n]), c, done[..n]) <==> Unrepeated(c, done[..n])
  {
    forall f
      ensures FieldAdmits(Fold(below, all[..n]), c, done[..n], f)
      ensures f != "id" && c.Sets(f) ==>
                && (FateOf(c, done[..n], f).Wanted? <==> !LeftBefore(done[..n], f, Cell(c.after, f)))
                && LeftLast(done[..n], f, Cell(c.before, f)) == Cell(Fold(below, all[..n]), f)
      ensures f == "id" && c.Sets(f) ==> FateOf(c, done[..n], f).Wanted?
    {
      UpdateField(below, all, done, n, c, f);
    }
  }

  /** A deletion rebased over changes expects what they left in the fields that they set. */
  lemma {:induction false} SurvivingSet(below: Option<Row>, all: seq<EntityChange>, done: seq<EntityChange>, n: nat,
                                        x: Row, f: Field)
    requires n <= |all| == |done| && Exactly(below, all, done, n) && Fold(below, all[..n]).Some?
    requires forall i | 0 < i < |done| :: done[i].before.Some?
    ensures var s := Surviving(Some(x), done[..n]);
            s.Some? && Cell(s, f) == if SetBy(done[..n], f) then Cell(Fold(below, all[..n]), f) else Cell(Some(x), f)
    decreases n
  {
    if n > 0 {
      var row, r := Fold(below, all[..n - 1]), done[n - 1];
      assert PatchRow(row, r, true) == Patched(Fold(below, all[..n]));
      assert done[..n][..n - 1] == done[..n - 1];
      SetByLast(done[..n - 1], r, f);
      assert done[..n] == done[..n - 1] + [r];
      if !r.Whole() {
        SurvivingSet(below, all, done, n - 1, x, f);
        ForceCell(Surviving(Some(x), done[..n - 1]), r, f);
        ForceCell(row, r, f);
      }
    }
  }

  lemma DeletionStep(below: Option<Row>, all: seq<EntityChange>, done: seq<EntityChange>, n: nat, c: EntityChange)
    requires n < |all| == |done| && Exactly(below, all, done, n) && c.before.Some? && c.after.None?
    requires (forall i | 0 < i < |done| :: done[i].before.Some?)
    requires MadeOn(Fold(below, all[..n]), c, done[..n])
    ensures Rebases(Fold(below, all[..n]), c, done[..n])
  {
    var row := Fold(below, all[..n]);
    SurvivingSet(below, all, done, n, c.before.value, "");
    forall f ensures Cell(Surviving(c.before, done[..n]), f) == Cell(row, f) {
      SurvivingSet(below, all, done, n, c.before.value, f);
    }
    RowsEqual(Surviving(c.before, done[..n]), row);
  }

  lemma CommittedStep(below: Option<Row>, all: seq<EntityChange>, done: seq<EntityChange>, n: nat, c: EntityChange)
    requires n < |all| == |done| && Exactly(below, all, done, n)
    requires (forall i | 0 < i < |done| :: done[i].before.Some?)
    requires MadeOn(Fold(below, all[..n]), c, done[..n])
    ensures Rebases(Fold(below, all[..n]), c, done[..n]) <==> Unrepeated(c, done[..n])
  {
    if !c.Whole() {
      UpdateStep(below, all, done, n, c);
    } else if c.before.Some? {
      DeletionStep(below, all, done, n, c);
    }
  }

  /** The row that was read is an earlier one under the receipts, each of which fitted; and the row is created,
      if at all, by the first of the receipts and the retained changes. */
  ghost predicate Stands(below: Option<Row>, receipts: seq<EntityChange>, base: Option<Row>, cs: seq<EntityChange>) {
    && Rebuild(below, receipts) == Some(base) && Fold(below, receipts) == base
    && forall i | 0 < i < |receipts + cs| :: (receipts + cs)[i].before.Some?
  }

  lemma {:induction false} ReceiptsFit(below: Option<Row>, receipts: seq<EntityChange>, n: nat)
    requires Rebuild(below, receipts).Some? && n <= |receipts|
    ensures Rebuild(below, receipts[..n]) == Some(Fold(below, receipts[..n]))
    ensures n < |receipts| ==>
              PatchRow(Fold(below, receipts[..n]), receipts[n], true) == Patched(Fold(below, receipts[..n + 1]))
    decreases |receipts|
  {
    if receipts == [] {
    } else {
      var init, last := receipts[..|receipts| - 1], receipts[|receipts| - 1];
      if n < |init| {
        ReceiptsFit(below, init, n);
        assert init[..n] == receipts[..n] && init[..n + 1] == receipts[..n + 1];
      } else {
        ReceiptsFit(below, init, |init|);
        assert init[..|init|] == init && receipts[..|init|] == init && receipts[..|receipts|] == receipts;
      }
    }
  }

  lemma ReceiptAt(below: Option<Row>, receipts: seq<EntityChange>, cs: seq<EntityChange>, over: seq<EntityChange>,
                  k: nat)
    requires Rebuild(below, receipts).Some? && k < |receipts|
    ensures var all := receipts + cs;
            PatchRow(Fold(below, all[..k]), (receipts + over)[k], true) == Patched(Fold(below, all[..k + 1]))
  {
    ReceiptsFit(below, receipts, k);
    assert (receipts + cs)[..k] == receipts[..k] && (receipts + cs)[..k + 1] == receipts[..k + 1];
  }

  /** The receipts and the changes replayed so far did what they did. */
  lemma ExactSoFar(below: Option<Row>, receipts: seq<EntityChange>, base: Option<Row>, cs: seq<EntityChange>, n: nat)
    requires Stands(below, receipts, base, cs) && n <= |cs|
    requires var over := RebaseFrom(receipts, cs);
             forall i | 0 <= i < n :: Rebases(Fold(base, cs[..i]), cs[i], receipts + over[..i])
    ensures Exactly(below, receipts + cs, receipts + RebaseFrom(receipts, cs), |receipts| + n)
  {
    var all, done := receipts + cs, receipts + RebaseFrom(receipts, cs);
    forall k | 0 <= k < |receipts| + n
      ensures PatchRow(Fold(below, all[..k]), done[k], true) == Patched(Fold(below, all[..k + 1]))
    {
      if k < |receipts| {
        ReceiptAt(below, receipts, cs, RebaseFrom(receipts, cs), k);
      } else {
        ReplayedAt(below, receipts, base, cs, k - |receipts|);
      }
    }
  }

  lemma FoldOver(below: Option<Row>, receipts: seq<EntityChange>, base: Option<Row>, cs: seq<EntityChange>, i: nat)
    requires Stands(below, receipts, base, cs) && i <= |cs|
    ensures Fold(below, (receipts + cs)[..|receipts| + i]) == Fold(base, cs[..i])
  {
    assert (receipts + cs)[..|receipts| + i] == receipts + cs[..i];
    FoldConcat(below, receipts, cs[..i]);
  }

  lemma ReplayedAt(below: Option<Row>, receipts: seq<EntityChange>, base: Option<Row>, cs: seq<EntityChange>, i: nat)
    requires Stands(below, receipts, base, cs) && i < |cs|
    requires Rebases(Fold(base, cs[..i]), cs[i], receipts + RebaseFrom(receipts, cs)[..i])
    ensures var all, k := receipts + cs, |receipts| + i;
            PatchRow(Fold(below, all[..k]), (receipts + RebaseFrom(receipts, cs))[k], true)
            == Patched(Fold(below, all[..k + 1]))
  {
    RebaseFromAt(receipts, cs, i);
    RebasesExactly(Fold(base, cs[..i]), cs[i], receipts + RebaseFrom(receipts, cs)[..i]);
    FoldOver(below, receipts, base, cs, i);
    FoldOver(below, receipts, base, cs, i + 1);
    assert cs[..i + 1][..i] == cs[..i];
  }

  lemma RebasedStart(receipts: seq<EntityChange>, cs: seq<EntityChange>, i: nat)
    requires i < |receipts + cs| && (receipts + cs)[i].before.Some?
    ensures (receipts + RebaseFrom(receipts, cs))[i].before.Some?
  {
    if i >= |receipts| {
      var k := i - |receipts|;
      RebaseFromAt(receipts, cs, k);
      RebaseKeepsIntent(cs[k], receipts + RebaseFrom(receipts, cs[..k]), "");
    }
  }

  /** Every retained change was made on the row under the earlier ones, but for what the receipts decide. */
  ghost predicate AllMadeOn(base: Option<Row>, cs: seq<EntityChange>, receipts: seq<EntityChange>) {
    forall i | 0 <= i < |cs| :: MadeOn(Fold(base, cs[..i]), cs[i], receipts)
  }

  ghost predicate UnrepeatedUpTo(receipts: seq<EntityChange>, cs: seq<EntityChange>, n: nat)
    requires n <= |cs|
  {
    forall i | 0 <= i < n :: Unrepeated(cs[i], receipts + RebaseFrom(receipts, cs)[..i])
  }

  ghost predicate RebasesUpTo(base: Option<Row>, receipts: seq<EntityChange>, cs: seq<EntityChange>, n: nat)
    requires n <= |cs|
  {
    forall i | 0 <= i < n :: Rebases(Fold(base, cs[..i]), cs[i], receipts + RebaseFrom(receipts, cs)[..i])
  }

  lemma MadeOnMore(row: Option<Row>, c: EntityChange, receipts: seq<EntityChange>, more: seq<EntityChange>)
    requires MadeOn(row, c, receipts)
    ensures MadeOn(row, c, receipts + more)
  {
    forall f | DecidedBy(receipts, f) && SetBy(receipts, f)
      ensures DecidedBy(receipts + more, f) && SetBy(receipts + more, f)
    {
      var i :| 0 <= i < |receipts| && Decides(receipts[i], f);
      var j :| 0 <= j < |receipts| && receipts[j].Sets(f);
      assert (receipts + more)[i] == receipts[i] && (receipts + more)[j] == receipts[j];
    }
  }

  lemma NextCommitted(below: Option<Row>, receipts: seq<EntityChange>, base: Option<Row>, cs: seq<EntityChange>, n: nat)
    requires Stands(below, receipts, base, cs) && AllMadeOn(base, cs, receipts) && n < |cs|
    requires RebasesUpTo(base, receipts, cs, n)
    ensures var over := receipts + RebaseFrom(receipts, cs)[..n];
            Rebases(Fold(base, cs[..n]), cs[n], over) <==> Unrepeated(cs[n], over)
  {
    var all, done, k := receipts + cs, receipts + RebaseFrom(receipts, cs), |receipts| + n;
    ExactSoFar(below, receipts, base, cs, n);
    FoldOver(below, receipts, base, cs, n);
    assert done[..k] == receipts + RebaseFrom(receipts, cs)[..n];
    MadeOnMore(Fold(base, cs[..n]), cs[n], receipts, RebaseFrom(receipts, cs)[..n]);
    forall i | 0 < i < |done| ensures done[i].before.Some? {
      RebasedStart(receipts, cs, i);
    }
    CommittedStep(below, all, done, k, cs[n]);
  }

  /** A retained chain over confirmed ancestors is replayed change by change as it was made exactly when none of
      its changes sets a field to a value that a receipt or an earlier change left there and a later one took
      away again. */
  lemma {:induction false} CommittedUpTo(below: Option<Row>, receipts: seq<EntityChange>, base: Option<Row>,
                                         cs: seq<EntityChange>, n: nat)
    requires Stands(below, receipts, base, cs) && AllMadeOn(base, cs, receipts) && n <= |cs|
    ensures RebasesUpTo(base, receipts, cs, n) <==> UnrepeatedUpTo(receipts, cs, n)
    decreases n
  {
    if n > 0 {
      CommittedUpTo(below, receipts, base, cs, n - 1);
      if RebasesUpTo(base, receipts, cs, n - 1) {
        NextCommitted(below, receipts, base, cs, n - 1);
      }
    }
  }

  function Held(s: Value, u: Value): Option<Row> {
    Some(map["s" := s, "u" := u])
  }

  function Receipt(): EntityChange {
    EntityChange(EntityKey("actions", "a1"), Held("0", "0"), Held("1", "9"))
  }

  function Child(): EntityChange {
    EntityChange(EntityKey("actions", "a1"), Held("1", "1"), Held("2", "2"))
  }

  lemma ChildOverReceipt()
    ensures RebaseFrom([Receipt()], [Child()]) == [RebaseOver(Child(), Receipt())]
  {
    var none: seq<EntityChange> := [];
    assert [Child()][..0] == none && [Receipt()][..0] == none && [Receipt()] + none == [Receipt()];
    assert Rebase(Child(), [Receipt()]) == RebaseOver(Rebase(Child(), none), Receipt());
    assert RebaseFrom([Receipt()], [Child()]) == none + [Rebase(Child(), [Receipt()] + none)];
  }

  lemma RebasedChild()
    ensures RebaseOver(Child(), Receipt()) == EntityChange(EntityKey("actions", "a1"), Held("1", "9"), Held("2", "2"))
  {
    RowsEqual(RebaseOver(Child(), Receipt()).before, Held("1", "9"));
    RowsEqual(RebaseOver(Child(), Receipt()).after, Held("2", "2"));
  }

  lemma ReceiptStands()
    ensures Stands(Held("0", "0"), [Receipt()], Held("1", "9"), [Child()])
  {
    var none: seq<EntityChange> := [];
    assert [Receipt()][..0] == none;
    PatchFromPreimage(Receipt());
  }

  /** A child of a confirmed command whose receipt says something else than the command did: as it was made it is
      refused on the confirmed row; rebased over the receipt it is accepted there and does what it did. */
  lemma DivergentReceipt()
    ensures Stands(Held("0", "0"), [Receipt()], Held("1", "9"), [Child()])
    ensures PatchRow(Held("1", "9"), Child(), true) == FieldConflict
    ensures PatchRow(Held("1", "9"), RebaseFrom([Receipt()], [Child()])[0], true) == Patched(Held("2", "2"))
  {
    ReceiptStands();
    ChildOverReceipt();
    RebasedChild();
    PatchFromPreimage(RebaseOver(Child(), Receipt()));
    assert Cell(Held("1", "9"), "u") == Some("9") && "u" in Child().before.value;
  }
}
