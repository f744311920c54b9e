/**
 Acknowledgements without a receipt: the server says that the command's facts already hold, so the
 client takes the facts from a snapshot instead, and only if the snapshot still has the objects.
 */
module Receiptless {
  import opened Wrappers
  import opened WorkspaceDelta

  const TIMELINE := "timeline"

  predicate Considered(c: EntityChange, receiptless: bool) {
    !receiptless || c.key.collection != TIMELINE
  }

  /** The change with the postimage that the snapshot has: the whole row of a created object, and the
      fields that the change names of an updated one. */
  function BoundChange(c: EntityChange, snapshot: Workspace): Option<EntityChange> {
    var current := Lookup(snapshot, c.key);
    if c.after.None? then (if current.Some? then None else Some(c))
    else if current.None? then None
    else if c.before.None? then Some(EntityChange(c.key, None, current))
    else
      Some(EntityChange(c.key, c.before,
             Some(map f | f in c.before.value.Keys + c.after.value.Keys && f in current.value :: current.value[f])))
  }

  function Bound(cs: seq<EntityChange>, snapshot: Workspace, receiptless: bool): Option<seq<EntityChange>> {
    if cs == [] then Some([])
    else
      var init, last := Bound(cs[..|cs| - 1], snapshot, receiptless), cs[|cs| - 1];
      if init.None? then None
      else if !Considered(last, receiptless) then init
      else
        var b := BoundChange(last, snapshot);
        if b.None? then None else Some(init.value + [b.value])
  }

  /** The loop over the changes, which gives up at the first object that is not as the command left it. */
  method BindPostimages(cs: seq<EntityChange>, snapshot: Workspace, receiptless: bool)
    returns (r: Option<seq<EntityChange>>)
    ensures r == Bound(cs, snapshot, receiptless)
  {
    var out: seq<EntityChange> := [];
    for n := 0 to |cs|
      invariant Bound(cs[..n], snapshot, receiptless) == Some(out)
    {
      assert cs[..n + 1][..n] == cs[..n];
      if Considered(cs[n], receiptless) {
        var b := BoundChange(cs[n], snapshot);
        if b.None? {
          BoundPrefix(cs, n + 1, snapshot, receiptless);
          return None;
        }
        out := out + [b.value];
      }
    }
    assert cs[..|cs|] == cs;
    return Some(out);
  }

  lemma BoundPrefix(cs: seq<EntityChange>, n: nat, snapshot: Workspace, receiptless: bool)
    requires n <= |cs| && Bound(cs[..n], snapshot, receiptless).None?
    ensures Bound(cs, snapshot, receiptless).None?
    decreases |cs|
  {
    if n < |cs| {
      assert cs[..|cs| - 1][..n] == cs[..n];
      BoundPrefix(cs[..|cs| - 1], n, snapshot, receiptless);
    } else {
      assert cs[..n] == cs;
    }
  }

  /** The snapshot still agrees with the command: what it deleted is absent and whatever else it
      touched is present, apart from history rows. */
  predicate Agrees(cs: seq<EntityChange>, snapshot: Workspace) {
    forall c | c in cs && c.key.collection != "timeline" :: c.after.Some? == (c.key in snapshot)
  }

  /** Binding succeeds exactly when the snapshot agrees. */
  lemma {:induction false} BoundIffAgrees(cs: seq<EntityChange>, snapshot: Workspace)
    ensures Bound(cs, snapshot, true).Some? <==> Agrees(cs, snapshot)
    decreases |cs|
  {
    if cs != [] {
      var init, last := cs[..|cs| - 1], cs[|cs| - 1];
      assert cs == init + [last];
      BoundIffAgrees(init, snapshot);
      assert last in cs && forall c | c in init :: c in cs;
    }
  }

  lemma BoundFits(c: EntityChange, snapshot: Workspace)
    requires BoundChange(c, snapshot).Some?
    ensures var b := BoundChange(c, snapshot).value;
            && b.key == c.key && b.before == c.before && b.after.Some? == c.after.Some?
            && (forall f | c.Names(f) && c.after.Some? :: Cell(b.after, f) == Cell(Lookup(snapshot, c.key), f))
            && PatchRow(Lookup(snapshot, c.key), b, true) == Patched(Lookup(snapshot, c.key))
  {
    var b, current := BoundChange(c, snapshot).value, Lookup(snapshot, c.key);
    if !b.Whole() {
      forall f ensures Cell(Force(current, b), f) == Cell(current, f) {
        ForceCell(current, b, f);
      }
      RowsEqual(Force(current, b), current);
    }
  }

  /** The bound delta is one that the snapshot already holds: confirming the command with it changes
      nothing. */
  lemma {:induction false} BoundIsInstalled(cs: seq<EntityChange>, snapshot: Workspace, receiptless: bool)
    requires Bound(cs, snapshot, receiptless).Some?
    ensures ApplyChanges(snapshot, Bound(cs, snapshot, receiptless).value) == Some(snapshot)
    decreases |cs|
  {
    if cs != [] {
      var init, last := cs[..|cs| - 1], cs[|cs| - 1];
      BoundIsInstalled(init, snapshot, receiptless);
      if Considered(last, receiptless) {
        BoundFits(last, snapshot);
        var bs, b := Bound(init, snapshot, receiptless).value, BoundChange(last, snapshot).value;
        WorkspacesEqual(Store(snapshot, b.key, Lookup(snapshot, b.key)), snapshot);
        ApplyLast(snapshot, bs, b);
      }
    }
  }

  lemma {:induction false} ApplyLast(w: Workspace, cs: seq<EntityChange>, c: EntityChange)
    requires ApplyChanges(w, cs).Some? && PatchRow(Lookup(ApplyChanges(w, cs).value, c.key), c, true).Patched?
    ensures var below := ApplyChanges(w, cs).value;
            ApplyChanges(w, cs + [c]) == Some(Store(below, c.key, PatchRow(Lookup(below, c.key), c, true).row))
    decreases |cs|
  {
    if cs == [] {
      assert [c][1..] == [];
    } else {
      assert (cs + [c])[0] == cs[0] && (cs + [c])[1..] == cs[1..] + [c];
      ApplyLast(Store(w, cs[0].key, PatchRow(Lookup(w, cs[0].key), cs[0], true).row), cs[1..], c);
    }
  }

  ghost predicate Binds(b: EntityChange, c: EntityChange, snapshot: Workspace) {
    && b.key == c.key && b.before == c.before && b.after.Some? == c.after.Some?
    && forall f | c.Names(f) && c.after.Some? :: Cell(b.after, f) == Cell(Lookup(snapshot, c.key), f)
  }

  /** The changes that are not of history rows. */
  ghost function Lasting(cs: seq<EntityChange>): seq<EntityChange> {
    if cs == [] then []
    else Lasting(cs[..|cs| - 1]) + if cs[|cs| - 1].key.collection != "timeline" then [cs[|cs| - 1]] else []
  }

  /** The bound delta has one change for each of the command's in order, apart from history rows: the same object
      and preimage, and in every field that the command names what the snapshot holds. */
  lemma {:induction false} BoundExactly(cs: seq<EntityChange>, snapshot: Workspace)
    requires Bound(cs, snapshot, true).Some?
    ensures var bs := Bound(cs, snapshot, true).value;
            |bs| == |Lasting(cs)| && forall i | 0 <= i < |bs| :: Binds(bs[i], Lasting(cs)[i], snapshot)
    decreases |cs|
  {
    if cs != [] {
      var init, last := cs[..|cs| - 1], cs[|cs| - 1];
      BoundExactly(init, snapshot);
      if Considered(last, true) {
        BoundFits(last, snapshot);
        assert Binds(BoundChange(last, snapshot).value, last, snapshot);
      }
    }
  }
}
