/**
 Field-scoped workspace deltas: the compare-and-patch algebra that the authority, the
 optimistic client and the recorded-projection proof all share.

 A field value is the canonical JSON text that the source compares values by, so equality of
 values here is equality of canonical JSON there, and a field holding `undefined` is an absent
 field. A workspace is keyed by (collection, id), which is how the browser database stores it.
 */
module WorkspaceDelta {
  import opened Wrappers

  type Field = string
  type Value = string
  type Row = map<Field, Value>

  datatype EntityKey = EntityKey(collection: string, id: string)

  type Workspace = map<EntityKey, Row>

  /** One entity's preimage and postimage; an absent row stands for the source's null. */
  datatype EntityChange = EntityChange(key: EntityKey, before: Option<Row>, after: Option<Row>) {

    /** A creation or a deletion: it decides the whole row. */
    predicate Whole() {
      before.None? || after.None?
    }

    /** The change reads or writes this field. */
    predicate Names(f: Field) {
      Whole() || f in before.value || f in after.value
    }

    /** The change decides this field's new value. */
    predicate Sets(f: Field) {
      Whole() || Cell(before, f) != Cell(after, f)
    }

    function Reversed(): EntityChange {
      EntityChange(key, after, before)
    }
  }

  datatype Delta = Delta(baseRevision: nat, changes: seq<EntityChange>)

  function Cell(row: Option<Row>, f: Field): Option<Value> {
    if row.Some? && f in row.value then Some(row.value[f]) else None
  }

  function Lookup(w: Workspace, key: EntityKey): Option<Row> {
    if key in w then Some(w[key]) else None
  }

  function Store(w: Workspace, key: EntityKey, row: Option<Row>): Workspace {
    match row
    case Some(r) => w[key := r]
    case None => w - {key}
  }

  lemma RowsEqual(a: Option<Row>, b: Option<Row>)
    requires a.Some? == b.Some?
    requires forall f :: Cell(a, f) == Cell(b, f)
    ensures a == b
  {
    if a.Some? {
      forall f ensures f in a.value <==> f in b.value {
        assert Cell(a, f) == Cell(b, f);
      }
      forall f | f in a.value ensures a.value[f] == b.value[f] {
        assert Cell(a, f) == Cell(b, f);
      }
      assert a.value == b.value;
    }
  }

  lemma WorkspacesEqual(a: Workspace, b: Workspace)
    requires forall key :: Lookup(a, key) == Lookup(b, key)
    ensures a == b
  {
    forall key ensures key in a <==> key in b {
      assert Lookup(a, key) == Lookup(b, key);
    }
    forall key | key in a ensures a[key] == b[key] {
      assert Lookup(a, key) == Lookup(b, key);
    }
  }

  // ---------------------------------------------------------------------------------------
  // One row
  // ---------------------------------------------------------------------------------------

  datatype Patched = FieldConflict | ObjectMissing | Patched(row: Option<Row>)

  /** Every field the change names still holds the preimage or already holds the postimage. */
  predicate Admits(current: Option<Row>, c: EntityChange) {
    if c.Whole() then current == c.before || current == c.after
    else forall f | f in c.before.value.Keys + c.after.value.Keys ::
           Cell(current, f) == Cell(c.before, f) || Cell(current, f) == Cell(c.after, f)
  }

  /** The row after an unchecked patch; a patch of a missing row leaves it missing. */
  function Force(current: Option<Row>, c: EntityChange): Option<Row> {
    if c.Whole() then c.after
    else if current.None? then None
    else Some(map f | f in current.value.Keys + c.after.value.Keys
                      && (if c.Sets(f) then f in c.after.value else f in current.value)
              :: if c.Sets(f) then c.after.value[f] else current.value[f])
  }

  function PatchRow(current: Option<Row>, c: EntityChange, check: bool): Patched {
    if c.Whole() then
      if check && !Admits(current, c) then FieldConflict else Patched(c.after)
    else if current.None? then ObjectMissing
    else if check && !Admits(current, c) then FieldConflict
    else Patched(Force(current, c))
  }

  /** The preimage matches exactly: nothing was already at its postimage. */
  ghost predicate Fits(current: Option<Row>, c: EntityChange) {
    if c.Whole() then current == c.before
    else current.Some? && forall f | c.Names(f) :: Cell(current, f) == Cell(c.before, f)
  }

  lemma ForceCell(current: Option<Row>, c: EntityChange, f: Field)
    requires c.Whole() || current.Some?
    ensures Cell(Force(current, c), f) == if c.Sets(f) then Cell(c.after, f) else Cell(current, f)
    ensures Force(current, c).Some? == c.after.Some?
  {}

  /** The in-place form: copy the row, then visit each named field once. */
  method PatchDeltaRow(current: Option<Row>, c: EntityChange, check: bool) returns (r: Patched)
    ensures r == PatchRow(current, c, check)
  {
    if c.before.None? || c.after.None? {
      if check && current != c.before && current != c.after {
        return FieldConflict;
      }
      return Patched(c.after);
    }
    if current.None? {
      return ObjectMissing;
    }
    var next := current.value;
    var keys := c.before.value.Keys + c.after.value.Keys;
    var todo := keys;
    while todo != {}
      invariant todo <= keys
      invariant check ==> forall f | f in keys - todo ::
                            Cell(current, f) == Cell(c.before, f) || Cell(current, f) == Cell(c.after, f)
      invariant forall f :: Cell(Some(next), f) ==
                            if f in keys - todo && c.Sets(f) then Cell(c.after, f) else Cell(current, f)
      decreases todo
    {
      var f :| f in todo;
      if check && Cell(current, f) != Cell(c.before, f) && Cell(current, f) != Cell(c.after, f) {
        return FieldConflict;
      }
      if Cell(c.before, f) != Cell(c.after, f) {
        if f in c.after.value {
          next := next[f := c.after.value[f]];
        } else {
          next := next - {f};
        }
      }
      todo := todo - {f};
    }
    forall f ensures Cell(Some(next), f) == Cell(Force(current, c), f) {
      ForceCell(current, c, f);
    }
    RowsEqual(Some(next), Force(current, c));
    r := Patched(Some(next));
  }

  /** A second delivery of the same change is accepted and changes nothing. */
  lemma PatchRowIdempotent(current: Option<Row>, c: EntityChange, check: bool)
    requires PatchRow(current, c, true).Patched?
    ensures PatchRow(PatchRow(current, c, true).row, c, true) == PatchRow(current, c, true)
  {
    if !c.Whole() {
      var once := Force(current, c);
      var twice := Force(once, c);
      forall f ensures Cell(twice, f) == Cell(once, f) {
        ForceCell(current, c, f);
        ForceCell(once, c, f);
      }
      RowsEqual(once, twice);
      forall f | f in c.before.value.Keys + c.after.value.Keys
        ensures Cell(once, f) == Cell(c.before, f) || Cell(once, f) == Cell(c.after, f)
      {
        ForceCell(current, c, f);
      }
    }
  }

  /** The guard under which a row patch is undone by its reverse. */
  ghost predicate Untouched(current: Option<Row>, c: EntityChange) {
    if c.Whole() then current == c.before
    else forall f | c.Sets(f) :: Cell(current, f) == Cell(c.before, f)
  }

  /** The reverse of an accepted row patch is always accepted, and it restores the row exactly
      when no field that the change sets was already at its postimage. */
  lemma ReverseRow(current: Option<Row>, c: EntityChange)
    requires PatchRow(current, c, true).Patched?
    ensures PatchRow(PatchRow(current, c, true).row, c.Reversed(), true).Patched?
    ensures PatchRow(PatchRow(current, c, true).row, c.Reversed(), true).row == current
            <==> Untouched(current, c)
  {
    var once := PatchRow(current, c, true).row;
    var back := c.Reversed();
    if !c.Whole() {
      forall f | f in back.before.value.Keys + back.after.value.Keys
        ensures Cell(once, f) == Cell(back.before, f) || Cell(once, f) == Cell(back.after, f)
      {
        ForceCell(current, c, f);
      }
      var restored := Force(once, back);
      forall f ensures Cell(restored, f) == if c.Sets(f) then Cell(c.before, f) else Cell(current, f) {
        ForceCell(current, c, f);
        ForceCell(once, back, f);
      }
      if Untouched(current, c) {
        RowsEqual(restored, current);
      } else {
        var f :| c.Sets(f) && Cell(current, f) != Cell(c.before, f);
        assert Cell(restored, f) != Cell(current, f);
      }
    }
  }

  // ---------------------------------------------------------------------------------------
  // Whole workspaces
  // ---------------------------------------------------------------------------------------

  predicate UniqueKeys(cs: seq<EntityChange>) {
    forall i, j | 0 <= i < j < |cs| :: cs[i].key != cs[j].key
  }

  function ChangeAt(cs: seq<EntityChange>, key: EntityKey): Option<EntityChange> {
    if cs == [] then None
    else if cs[0].key == key then Some(cs[0])
    else ChangeAt(cs[1..], key)
  }

  lemma ChangeAtMember(cs: seq<EntityChange>, key: EntityKey)
    ensures ChangeAt(cs, key).Some? ==> ChangeAt(cs, key).value in cs && ChangeAt(cs, key).value.key == key
    ensures ChangeAt(cs, key).None? ==> forall c | c in cs :: c.key != key
  {
    if cs != [] && cs[0].key != key {
      ChangeAtMember(cs[1..], key);
      forall c | c in cs ensures c == cs[0] || c in cs[1..] {}
    }
  }

  lemma ChangeAtUnique(cs: seq<EntityChange>, c: EntityChange)
    requires UniqueKeys(cs) && c in cs
    ensures ChangeAt(cs, c.key) == Some(c)
  {
    if cs[0] != c {
      assert c in cs[1..];
      ChangeAtUnique(cs[1..], c);
    }
  }

  /** One atomic transaction: every change is patched under its check, or nothing is. */
  function ApplyChanges(w: Workspace, cs: seq<EntityChange>): Option<Workspace>
    decreases |cs|
  {
    if cs == [] then Some(w)
    else match PatchRow(Lookup(w, cs[0].key), cs[0], true)
         case Patched(row) => ApplyChanges(Store(w, cs[0].key, row), cs[1..])
         case _ => None
  }

  /** The stores' transaction: the first refused patch aborts it. */
  method Transact(w: Workspace, cs: seq<EntityChange>) returns (r: Option<Workspace>)
    ensures r == ApplyChanges(w, cs)
  {
    var rows := w;
    for n := 0 to |cs|
      invariant ApplyChanges(w, cs) == ApplyChanges(rows, cs[n..])
    {
      var c := cs[n];
      assert cs[n..][0] == c && cs[n..][1..] == cs[n + 1..];
      var p := PatchDeltaRow(Lookup(rows, c.key), c, true);
      if !p.Patched? {
        return None;
      }
      rows := Store(rows, c.key, p.row);
    }
    return Some(rows);
  }

  ghost predicate AllAdmitted(w: Workspace, cs: seq<EntityChange>) {
    forall c | c in cs :: PatchRow(Lookup(w, c.key), c, true).Patched?
  }

  function ForceAt(row: Option<Row>, c: Option<EntityChange>): Option<Row> {
    match c
    case Some(change) => Force(row, change)
    case None => row
  }

  /** Entities are patched independently of each other: the transaction commits exactly when
      every change is admitted on its own, and each entity ends with its own change's result. */
  lemma {:induction false} ApplyByKey(w: Workspace, cs: seq<EntityChange>)
    requires UniqueKeys(cs)
    ensures ApplyChanges(w, cs).Some? <==> AllAdmitted(w, cs)
    ensures ApplyChanges(w, cs).Some? ==>
              forall key :: Lookup(ApplyChanges(w, cs).value, key) == ForceAt(Lookup(w, key), ChangeAt(cs, key))
    decreases |cs|
  {
    if cs != [] {
      var c := cs[0];
      var p := PatchRow(Lookup(w, c.key), c, true);
      if p.Patched? {
        var w1 := Store(w, c.key, p.row);
        ApplyByKey(w1, cs[1..]);
        forall d | d in cs[1..] ensures Lookup(w1, d.key) == Lookup(w, d.key) {}
        assert AllAdmitted(w, cs) <==> AllAdmitted(w1, cs[1..]) by {
          if AllAdmitted(w1, cs[1..]) {
            forall d | d in cs ensures PatchRow(Lookup(w, d.key), d, true).Patched? {
              if d != c {
                assert d in cs[1..];
                assert Lookup(w1, d.key) == Lookup(w, d.key);
              }
            }
          }
          if AllAdmitted(w, cs) {
            forall d | d in cs[1..] ensures PatchRow(Lookup(w1, d.key), d, true).Patched? {
              assert d in cs;
              assert Lookup(w1, d.key) == Lookup(w, d.key);
            }
          }
        }
        if ApplyChanges(w1, cs[1..]).Some? {
          forall key ensures Lookup(ApplyChanges(w, cs).value, key) == ForceAt(Lookup(w, key), ChangeAt(cs, key)) {
            if key == c.key {
              ChangeAtMember(cs[1..], key);
            }
          }
        }
      } else {
        assert c in cs;
      }
    }
  }

  /** Unrelated newer fields are never replaced: after a committed delta a cell either keeps its
      value or takes the postimage of the one change that sets it. */
  lemma ApplyFrame(w: Workspace, cs: seq<EntityChange>, key: EntityKey, f: Field)
    requires UniqueKeys(cs) && ApplyChanges(w, cs).Some?
    ensures var c := ChangeAt(cs, key);
            Cell(Lookup(ApplyChanges(w, cs).value, key), f) ==
            if c.Some? && c.value.Sets(f) then Cell(c.value.after, f) else Cell(Lookup(w, key), f)
  {
    ApplyByKey(w, cs);
    var c := ChangeAt(cs, key);
    if c.Some? {
      ChangeAtMember(cs, key);
      assert PatchRow(Lookup(w, key), c.value, true).Patched?;
      ForceCell(Lookup(w, key), c.value, f);
    }
  }

  /** One field that holds neither the preimage nor the postimage stops the whole transaction. */
  lemma EditedFieldBlocks(w: Workspace, cs: seq<EntityChange>, c: EntityChange, f: Field)
    requires UniqueKeys(cs) && c in cs && c.Names(f)
    requires Cell(Lookup(w, c.key), f) != Cell(c.before, f) && Cell(Lookup(w, c.key), f) != Cell(c.after, f)
    ensures ApplyChanges(w, cs).None?
  {
    ApplyByKey(w, cs);
    assert !PatchRow(Lookup(w, c.key), c, true).Patched? by {
      if !c.Whole() {
        assert f in c.before.value.Keys + c.after.value.Keys;
      }
    }
  }

  /** A repeated delivery of a committed delta commits again and changes nothing. */
  lemma ApplyIdempotent(w: Workspace, cs: seq<EntityChange>)
    requires UniqueKeys(cs) && ApplyChanges(w, cs).Some?
    ensures ApplyChanges(ApplyChanges(w, cs).value, cs) == ApplyChanges(w, cs)
  {
    ApplyByKey(w, cs);
    var once := ApplyChanges(w, cs).value;
    ApplyByKey(once, cs);
    forall c | c in cs ensures PatchRow(Lookup(once, c.key), c, true) == PatchRow(Lookup(w, c.key), c, true) {
      ChangeAtUnique(cs, c);
      PatchRowIdempotent(Lookup(w, c.key), c, true);
    }
    var twice := ApplyChanges(once, cs).value;
    forall key ensures Lookup(twice, key) == Lookup(once, key) {
      var c := ChangeAt(cs, key);
      if c.Some? {
        ChangeAtMember(cs, key);
        assert PatchRow(Lookup(once, key), c.value, true) == PatchRow(Lookup(w, key), c.value, true);
      }
    }
    WorkspacesEqual(once, twice);
  }

  function ReverseChanges(cs: seq<EntityChange>): (r: seq<EntityChange>)
    ensures |r| == |cs| && forall i | 0 <= i < |cs| :: r[i] == cs[i].Reversed()
  {
    seq(|cs|, i requires 0 <= i < |cs| => cs[i].Reversed())
  }

  lemma ChangeAtReversed(cs: seq<EntityChange>, key: EntityKey)
    requires UniqueKeys(cs)
    ensures UniqueKeys(ReverseChanges(cs))
    ensures ChangeAt(ReverseChanges(cs), key) ==
            match ChangeAt(cs, key) case Some(c) => Some(c.Reversed()) case None => None
  {
    var r := ReverseChanges(cs);
    assert UniqueKeys(r) by {
      forall i, j | 0 <= i < j < |r| ensures r[i].key != r[j].key {
        assert r[i] == cs[i].Reversed() && r[j] == cs[j].Reversed();
      }
    }
    ChangeAtMember(cs, key);
    ChangeAtMember(r, key);
    match ChangeAt(cs, key) {
      case Some(c) =>
        var i :| 0 <= i < |cs| && cs[i] == c;
        assert r[i] in r;
        ChangeAtUnique(r, r[i]);
      case None =>
        forall d | d in r ensures d.key != key {
          var i :| 0 <= i < |r| && r[i] == d;
          assert cs[i] in cs;
        }
    }
  }

  /** Undoing a committed delta is always admitted; it gives the old workspace back exactly when
      every changed entity still held its recorded preimage. Otherwise the reverse resurrects a
      preimage that the delta never replaced. */
  lemma ReverseRestores(w: Workspace, cs: seq<EntityChange>)
    requires UniqueKeys(cs) && ApplyChanges(w, cs).Some?
    ensures ApplyChanges(ApplyChanges(w, cs).value, ReverseChanges(cs)).Some?
    ensures ApplyChanges(ApplyChanges(w, cs).value, ReverseChanges(cs)) == Some(w)
            <==> forall c | c in cs :: Untouched(Lookup(w, c.key), c)
  {
    var done := ApplyChanges(w, cs).value;
    var back := ReverseChanges(cs);
    ApplyByKey(w, cs);
    assert UniqueKeys(back) by { ChangeAtReversed(cs, EntityKey("", "")); }
    ApplyByKey(done, back);
    forall c | c in cs
      ensures PatchRow(Lookup(done, c.key), c.Reversed(), true).Patched?
      ensures Force(Lookup(done, c.key), c.Reversed()) == Lookup(w, c.key) <==> Untouched(Lookup(w, c.key), c)
    {
      ChangeAtUnique(cs, c);
      ReverseRow(Lookup(w, c.key), c);
    }
    forall d | d in back ensures PatchRow(Lookup(done, d.key), d, true).Patched? {
      var i :| 0 <= i < |back| && back[i] == d;
      assert cs[i] in cs && d == cs[i].Reversed();
    }
    var undone := ApplyChanges(done, back).value;
    forall key
      ensures var c := ChangeAt(cs, key);
              if c.Some? then c.value in cs && c.value.key == key
                              && (Lookup(undone, key) == Lookup(w, key) <==> Untouched(Lookup(w, key), c.value))
              else Lookup(undone, key) == Lookup(w, key)
    {
      ChangeAtReversed(cs, key);
      ChangeAtMember(cs, key);
    }
    if forall c | c in cs :: Untouched(Lookup(w, c.key), c) {
      WorkspacesEqual(undone, w);
    } else {
      var c :| c in cs && !Untouched(Lookup(w, c.key), c);
      ChangeAtUnique(cs, c);
      assert Lookup(undone, c.key) != Lookup(w, c.key);
    }
  }

  /** The preimage that the reverse of an already-applied change resurrects. */
  lemma ReverseOfRepeatedChangeResurrects()
    ensures var key := EntityKey("actions", "a1");
            var c := EntityChange(key, Some(map["status" := "todo"]), Some(map["status" := "done"]));
            var w: Workspace := map[key := map["status" := "done"]];
            ApplyChanges(w, [c]) == Some(w)
            && ApplyChanges(w, ReverseChanges([c])) == Some(map[key := map["status" := "todo"]])
  {
    var key := EntityKey("actions", "a1");
    var c := EntityChange(key, Some(map["status" := "todo"]), Some(map["status" := "done"]));
    var w: Workspace := map[key := map["status" := "done"]];
    var todo: Workspace := map[key := map["status" := "todo"]];
    ApplyByKey(w, [c]);
    assert ReverseChanges([c]) == [c.Reversed()];
    ApplyByKey(w, [c.Reversed()]);
    forall f ensures Cell(Force(Some(w[key]), c), f) == Cell(Some(w[key]), f) {
      ForceCell(Some(w[key]), c, f);
    }
    RowsEqual(Force(Some(w[key]), c), Some(w[key]));
    forall f ensures Cell(Force(Some(w[key]), c.Reversed()), f) == Cell(Some(todo[key]), f) {
      ForceCell(Some(w[key]), c.Reversed(), f);
    }
    RowsEqual(Force(Some(w[key]), c.Reversed()), Some(todo[key]));
    assert PatchRow(Lookup(w, key), c, true).Patched?;
    assert PatchRow(Lookup(w, key), c.Reversed(), true).Patched?;
    WorkspacesEqual(ApplyChanges(w, [c]).value, w);
    WorkspacesEqual(ApplyChanges(w, [c.Reversed()]).value, todo);
  }

  // ---------------------------------------------------------------------------------------
  // Independent deltas
  // ---------------------------------------------------------------------------------------

  /** The two changes are about different entities, or about fields that neither sets for the other. */
  ghost predicate Separate(a: EntityChange, b: EntityChange) {
    a.key == b.key ==>
      !a.Whole() && !b.Whole()
      && forall f :: (a.Sets(f) ==> !b.Names(f)) && (b.Sets(f) ==> !a.Names(f))
  }

  ghost predicate AllSeparate(a: seq<EntityChange>, b: seq<EntityChange>) {
    forall x, y | x in a && y in b :: Separate(x, y)
  }

  lemma SeparateRows(row: Option<Row>, a: EntityChange, b: EntityChange)
    requires a.key == b.key && Separate(a, b) && PatchRow(row, a, true).Patched?
    ensures PatchRow(Force(row, a), b, true).Patched? <==> PatchRow(row, b, true).Patched?
    ensures Force(Force(row, a), b) == Force(Force(row, b), a)
  {
    forall f ensures b.Names(f) ==> Cell(Force(row, a), f) == Cell(row, f) {
      ForceCell(row, a, f);
    }
    forall f ensures Cell(Force(Force(row, a), b), f) == Cell(Force(Force(row, b), a), f) {
      ForceCell(row, a, f);
      ForceCell(Force(row, a), b, f);
      ForceCell(row, b, f);
      ForceCell(Force(row, b), a, f);
    }
    RowsEqual(Force(Force(row, a), b), Force(Force(row, b), a));
    forall f | f in b.before.value.Keys + b.after.value.Keys ensures Cell(Force(row, a), f) == Cell(row, f) {
      assert b.Names(f);
    }
  }

  lemma AdmittedAcrossSeparate(w: Workspace, a: seq<EntityChange>, b: seq<EntityChange>)
    requires UniqueKeys(a) && UniqueKeys(b) && AllSeparate(a, b)
    requires ApplyChanges(w, a).Some?
    ensures AllAdmitted(ApplyChanges(w, a).value, b) <==> AllAdmitted(w, b)
  {
    var w1 := ApplyChanges(w, a).value;
    ApplyByKey(w, a);
    forall y | y in b
      ensures PatchRow(Lookup(w1, y.key), y, true).Patched? <==> PatchRow(Lookup(w, y.key), y, true).Patched?
    {
      ChangeAtMember(a, y.key);
      match ChangeAt(a, y.key)
      case None =>
      case Some(x) =>
        assert Separate(x, y);
        SeparateRows(Lookup(w, y.key), x, y);
    }
  }

  /** Deltas that touch separate fields commute: both orders commit or neither does, and they
      end in the same workspace. */
  lemma SeparateDeltasCommute(w: Workspace, a: seq<EntityChange>, b: seq<EntityChange>)
    requires UniqueKeys(a) && UniqueKeys(b) && AllSeparate(a, b)
    requires ApplyChanges(w, a).Some? && ApplyChanges(ApplyChanges(w, a).value, b).Some?
    ensures ApplyChanges(w, b).Some?
    ensures ApplyChanges(ApplyChanges(w, b).value, a) == ApplyChanges(ApplyChanges(w, a).value, b)
  {
    var wa := ApplyChanges(w, a).value;
    AdmittedAcrossSeparate(w, a, b);
    ApplyByKey(wa, b);
    ApplyByKey(w, b);
    ApplyByKey(w, a);
    var wb := ApplyChanges(w, b).value;
    assert AllSeparate(b, a) by {
      forall y, x | y in b && x in a ensures Separate(y, x) { assert Separate(x, y); }
    }
    AdmittedAcrossSeparate(w, b, a);
    ApplyByKey(wb, a);
    var ab, ba := ApplyChanges(wa, b).value, ApplyChanges(wb, a).value;
    forall key ensures Lookup(ab, key) == Lookup(ba, key) {
      ChangeAtMember(a, key);
      ChangeAtMember(b, key);
      if ChangeAt(a, key).Some? && ChangeAt(b, key).Some? {
        var x, y := ChangeAt(a, key).value, ChangeAt(b, key).value;
        assert Separate(x, y);
        SeparateRows(Lookup(w, key), x, y);
      }
    }
    WorkspacesEqual(ab, ba);
  }

  // ---------------------------------------------------------------------------------------
  // Difference of two workspaces
  // ---------------------------------------------------------------------------------------

  /** Fields equal on both sides are dropped from an update, except the identity. */
  function Compact(c: EntityChange): (r: EntityChange)
    ensures r.key == c.key && r.Whole() == c.Whole()
  {
    if c.Whole() then c
    else EntityChange(c.key,
           Some(map f | f in c.before.value && (f == "id" || c.Sets(f)) :: c.before.value[f]),
           Some(map f | f in c.after.value && (f == "id" || c.Sets(f)) :: c.after.value[f]))
  }

  lemma CompactSets(c: EntityChange, f: Field)
    ensures Compact(c).Sets(f) == c.Sets(f)
    ensures c.Sets(f) ==>
              Cell(Compact(c).after, f) == Cell(c.after, f) && Cell(Compact(c).before, f) == Cell(c.before, f)
    ensures !c.Whole() && Compact(c).Names(f) ==>
              Cell(Compact(c).before, f) == Cell(c.before, f) && Cell(Compact(c).after, f) == Cell(c.after, f)
  {}

  function FullChange(before: Workspace, after: Workspace, key: EntityKey): EntityChange {
    EntityChange(key, Lookup(before, key), Lookup(after, key))
  }

  ghost predicate IsDiff(before: Workspace, after: Workspace, cs: seq<EntityChange>) {
    && UniqueKeys(cs)
    && forall key :: ChangeAt(cs, key) ==
                     if Lookup(before, key) == Lookup(after, key) then None
                     else Some(Compact(FullChange(before, after, key)))
  }

  lemma ChangeAtAppend(cs: seq<EntityChange>, c: EntityChange, key: EntityKey)
    requires ChangeAt(cs, c.key).None?
    ensures ChangeAt(cs + [c], key) == if key == c.key then Some(c) else ChangeAt(cs, key)
  {
    if cs == [] {
      assert [c][1..] == [];
    } else {
      assert (cs + [c])[1..] == cs[1..] + [c];
      ChangeAtAppend(cs[1..], c, key);
    }
  }

  /** The difference lists every entity that changed, once, in an order the store decides. */
  method DiffWorkspaceDelta(before: Workspace, after: Workspace, baseRevision: nat) returns (d: Delta)
    ensures d.baseRevision == baseRevision
    ensures IsDiff(before, after, d.changes)
  {
    var changes: seq<EntityChange> := [];
    var keys := before.Keys + after.Keys;
    var todo := keys;
    while todo != {}
      invariant todo <= keys
      invariant UniqueKeys(changes)
      invariant forall key :: ChangeAt(changes, key) ==
                  if key in todo || Lookup(before, key) == Lookup(after, key) then None
                  else Some(Compact(FullChange(before, after, key)))
      decreases todo
    {
      var key :| key in todo;
      if Lookup(before, key) != Lookup(after, key) {
        var c := Compact(FullChange(before, after, key));
        forall i | 0 <= i < |changes| ensures changes[i].key != key {
          ChangeAtMember(changes, key);
          assert changes[i] in changes;
        }
        forall k ensures ChangeAt(changes + [c], k) == if k == key then Some(c) else ChangeAt(changes, k) {
          ChangeAtAppend(changes, c, k);
        }
        changes := changes + [c];
      }
      todo := todo - {key};
    }
    d := Delta(baseRevision, changes);
  }

  lemma CompactRow(c: EntityChange)
    ensures PatchRow(c.before, Compact(c), true) == Patched(c.after)
    ensures Untouched(c.before, Compact(c))
  {
    if !c.Whole() {
      var k := Compact(c);
      forall f | f in k.before.value.Keys + k.after.value.Keys ensures Cell(c.before, f) == Cell(k.before, f) {
        CompactSets(c, f);
      }
      forall f ensures Cell(Force(c.before, k), f) == Cell(c.after, f) {
        ForceCell(c.before, k, f);
        CompactSets(c, f);
      }
      RowsEqual(Force(c.before, k), c.after);
      forall f | k.Sets(f) ensures Cell(c.before, f) == Cell(k.before, f) {
        CompactSets(c, f);
      }
    }
  }

  /** Round trip: the compact difference rebuilds the second workspace from the first, and its
      reverse rebuilds the first from the second. */
  lemma DiffRoundTrip(before: Workspace, after: Workspace, cs: seq<EntityChange>)
    requires IsDiff(before, after, cs)
    ensures ApplyChanges(before, cs) == Some(after)
    ensures ApplyChanges(after, ReverseChanges(cs)) == Some(before)
  {
    ApplyByKey(before, cs);
    forall c | c in cs
      ensures PatchRow(Lookup(before, c.key), c, true) == Patched(Lookup(after, c.key))
      ensures Untouched(Lookup(before, c.key), c)
    {
      ChangeAtUnique(cs, c);
      CompactRow(FullChange(before, after, c.key));
    }
    var w := ApplyChanges(before, cs).value;
    forall key ensures Lookup(w, key) == Lookup(after, key) {
      ChangeAtMember(cs, key);
      if ChangeAt(cs, key).Some? {
        assert PatchRow(Lookup(before, key), ChangeAt(cs, key).value, true) == Patched(Lookup(after, key));
      }
    }
    WorkspacesEqual(w, after);
    ReverseRestores(before, cs);
  }

  /** An update in the difference names exactly the fields that differ, and the identity. */
  lemma DiffNamesChanges(before: Workspace, after: Workspace, cs: seq<EntityChange>, c: EntityChange, f: Field)
    requires IsDiff(before, after, cs) && c in cs && c.before != None && c.after != None
    ensures f in c.before.value.Keys + c.after.value.Keys <==>
              var b, a := Cell(Lookup(before, c.key), f), Cell(Lookup(after, c.key), f);
              b != a || (f == "id" && b != None)
  {
    ChangeAtUnique(cs, c);
    CompactSets(FullChange(before, after, c.key), f);
  }

  // ---------------------------------------------------------------------------------------
  // Wire validation
  // ---------------------------------------------------------------------------------------

  const DELTA_COLLECTIONS: set<string> :=
    {"opportunities", "opportunityAliases", "processes", "processEvents", "scheduleNodes", "actions", "prep",
     "applicationGroups", "decisionRequests", "semanticReceipts", "reminderIntents", "reminderOutbox",
     "discoveryInbox", "timeline", "changeSets"}
  const DELTA_SINGLETONS: set<string> := {"timePlanning", "decisionRules", "discoveryProfile", "meta"}
  const MAX_SAFE_INTEGER := 9007199254740991
  const MAX_CHANGES := 1000

  /** The canonical JSON text of an identifier. */
  function Quoted(id: string): Value {
    "\"" + id + "\""
  }

  predicate CarriesId(row: Option<Row>, id: string) {
    row.Some? ==> Cell(row, "id") == Some(Quoted(id))
  }

  predicate ValidChange(c: EntityChange) {
    && c.key.collection in DELTA_COLLECTIONS + DELTA_SINGLETONS
    && c.key.id != ""
    && (c.key.collection in DELTA_COLLECTIONS ==> CarriesId(c.before, c.key.id) && CarriesId(c.after, c.key.id))
  }

  predicate ValidDelta(d: Delta) {
    && d.baseRevision <= MAX_SAFE_INTEGER
    && |d.changes| <= MAX_CHANGES
    && (forall i, j | 0 <= i < j < |d.changes| :: d.changes[i].key != d.changes[j].key)
    && forall c | c in d.changes :: ValidChange(c)
  }

  /** The first n entries are well formed, with distinct keys. */
  ghost predicate Validated(cs: seq<EntityChange>, n: nat, keys: set<EntityKey>)
    requires n <= |cs|
  {
    && (forall k :: k in keys <==> exists i | 0 <= i < n :: cs[i].key == k)
    && (forall i, j | 0 <= i < j < n :: cs[i].key != cs[j].key)
    && forall i | 0 <= i < n :: ValidChange(cs[i])
  }

  lemma ValidatedNext(cs: seq<EntityChange>, n: nat, keys: set<EntityKey>)
    requires n < |cs| && Validated(cs, n, keys) && cs[n].key !in keys && ValidChange(cs[n])
    ensures Validated(cs, n + 1, keys + {cs[n].key})
  {
    forall k ensures k in keys + {cs[n].key} <==> exists i | 0 <= i < n + 1 :: cs[i].key == k {
      if k in keys {
        var i :| 0 <= i < n && cs[i].key == k;
      }
    }
  }

  lemma BadEntry(d: Delta, n: nat, keys: set<EntityKey>)
    requires n < |d.changes| && Validated(d.changes, n, keys)
    requires d.changes[n].key in keys || !ValidChange(d.changes[n])
    ensures !ValidDelta(d)
  {
    if d.changes[n].key in keys {
      var i :| 0 <= i < n && d.changes[i].key == d.changes[n].key;
    } else {
      assert d.changes[n] in d.changes;
    }
  }

  /** The receiver's single pass, which refuses at the first bad entry. */
  method ValidateWorkspaceDelta(d: Delta) returns (ok: bool)
    ensures ok == ValidDelta(d)
    ensures ok <==>
              && d.baseRevision <= 9007199254740991 && |d.changes| <= 1000
              && (forall i, j | 0 <= i < j < |d.changes| :: d.changes[i].key != d.changes[j].key)
              && forall c | c in d.changes ::
                   && c.key.collection in DELTA_COLLECTIONS + DELTA_SINGLETONS && c.key.id != ""
                   && (c.key.collection in DELTA_COLLECTIONS && c.before != None ==>
                         Cell(c.before, "id") == Some("\"" + c.key.id + "\""))
                   && (c.key.collection in DELTA_COLLECTIONS && c.after != None ==>
                         Cell(c.after, "id") == Some("\"" + c.key.id + "\""))
  {
    if d.baseRevision > MAX_SAFE_INTEGER || |d.changes| > MAX_CHANGES {
      return false;
    }
    var keys: set<EntityKey> := {};
    for n := 0 to |d.changes|
      invariant Validated(d.changes, n, keys)
    {
      var c := d.changes[n];
      if c.key.collection !in DELTA_COLLECTIONS + DELTA_SINGLETONS || c.key.id == "" || c.key in keys {
        BadEntry(d, n, keys);
        return false;
      }
      if c.key.collection in DELTA_COLLECTIONS && !(CarriesId(c.before, c.key.id) && CarriesId(c.after, c.key.id)) {
        BadEntry(d, n, keys);
        return false;
      }
      ValidatedNext(d.changes, n, keys);
      keys := keys + {c.key};
    }
    return true;
  }

  /** A workspace whose rows sit under their own identifiers. */
  ghost predicate WellKeyed(w: Workspace) {
    forall key | key in w ::
      && key.collection in DELTA_COLLECTIONS + DELTA_SINGLETONS && key.id != ""
      && (key.collection in DELTA_COLLECTIONS ==> Cell(Some(w[key]), "id") == Some(Quoted(key.id)))
  }

  /** What the authority emits, the client's validation accepts: only the size caps can fail. */
  lemma DiffIsValid(before: Workspace, after: Workspace, d: Delta)
    requires WellKeyed(before) && WellKeyed(after) && IsDiff(before, after, d.changes)
    ensures ValidDelta(d) <==> d.baseRevision <= MAX_SAFE_INTEGER && |d.changes| <= MAX_CHANGES
  {
    forall c | c in d.changes ensures ValidChange(c) {
      ChangeAtUnique(d.changes, c);
      assert c == Compact(FullChange(before, after, c.key));
      assert c.key in before || c.key in after;
    }
  }
}
