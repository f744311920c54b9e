/**
 When a local cache and a remote snapshot count as the same projection: defaults, hydrated history
 and empty collections are ignored on both sides, and the server's own ingestion audit is ignored on
 the remote side where the cache does not hold it.
 */
module ReadProjection {
  import opened Wrappers
  import opened WorkspaceDelta
  import opened ProjectionProof

  const TIMELINE := "timeline"

  /** A snapshot: its collections, and whether its decision rules differ from the default. */
  datatype Snapshot = Snapshot(collections: Listing, rules: Option<Row>)

  /** What the comparison needs to know about rows and rules. */
  datatype Kinds = Kinds(backfill: Row -> bool, audit: Row -> bool, defaults: Row -> bool)

  function TimelineIds(s: Snapshot): set<string> {
    set i | i in Rows(s.collections, TIMELINE) :: i.id
  }

  predicate Kept(k: Kinds, collection: string, remote: bool, local: set<string>, i: Item) {
    collection == TIMELINE ==> !k.backfill(i.row) && (!remote || !k.audit(i.row) || i.id in local)
  }

  function Filter(k: Kinds, collection: string, remote: bool, local: set<string>, items: seq<Item>): seq<Item> {
    if items == [] then []
    else
      var rest := Filter(k, collection, remote, local, items[1..]);
      if Kept(k, collection, remote, local, items[0]) then [items[0]] + rest else rest
  }

  function Rules(k: Kinds, s: Snapshot): Option<Row> {
    if s.rules.Some? && k.defaults(s.rules.value) then None else s.rules
  }

  function Normalized(k: Kinds, s: Snapshot, remote: bool, local: set<string>): (Listing, Option<Row>) {
    (map c | c in s.collections && Filter(k, c, remote, local, s.collections[c]) != [] ::
       Normal(Filter(k, c, remote, local, s.collections[c])),
     Rules(k, s))
  }

  predicate Equivalent(k: Kinds, local: Snapshot, remote: Snapshot) {
    Normalized(k, local, false, TimelineIds(local)) == Normalized(k, remote, true, TimelineIds(local))
  }

  // ---------------------------------------------------------------------------------------
  // What it means, for unique identifiers
  // ---------------------------------------------------------------------------------------

  predicate Unique(s: Snapshot) {
    UniqueListing(s.collections)
  }

  /** The row that the comparison sees. */
  function Seen(k: Kinds, s: Snapshot, remote: bool, local: set<string>, key: EntityKey): Option<Row> {
    match ViewAt(s.collections, key)
    case None => None
    case Some(row) => if Kept(k, key.collection, remote, local, Item(key.id, row)) then Some(row) else None
  }

  lemma FilterMembers(k: Kinds, c: string, remote: bool, local: set<string>, items: seq<Item>)
    ensures forall i :: i in Filter(k, c, remote, local, items) <==> i in items && Kept(k, c, remote, local, i)
    ensures UniqueItems(items) ==> UniqueItems(Filter(k, c, remote, local, items))
  {
    if items != [] {
      FilterMembers(k, c, remote, local, items[1..]);
      assert items == [items[0]] + items[1..];
      if UniqueItems(items) {
        forall x | x in items[1..] ensures x.id != items[0].id {
          var j :| 0 <= j < |items[1..]| && items[1..][j] == x;
          assert items[j + 1] == x;
        }
      }
    }
  }

  lemma FilterView(k: Kinds, c: string, remote: bool, local: set<string>, items: seq<Item>, id: string)
    requires UniqueItems(items)
    ensures UniqueItems(Filter(k, c, remote, local, items))
    ensures RowOf(Filter(k, c, remote, local, items), id) ==
            match RowOf(items, id)
            case None => None
            case Some(row) => if Kept(k, c, remote, local, Item(id, row)) then Some(row) else None
  {
    FilterMembers(k, c, remote, local, items);
    var kept := Filter(k, c, remote, local, items);
    if RowOf(kept, id).Some? {
      MemberByView(kept, Item(id, RowOf(kept, id).value));
      MemberByView(items, Item(id, RowOf(kept, id).value));
    }
    if RowOf(items, id).Some? {
      MemberByView(items, Item(id, RowOf(items, id).value));
      MemberByView(kept, Item(id, RowOf(items, id).value));
    }
  }

  /** The filtered collections, as a listing. */
  function Filtered(k: Kinds, s: Snapshot, remote: bool, local: set<string>): Listing {
    map c | c in s.collections :: Filter(k, c, remote, local, s.collections[c])
  }

  lemma FilteredSees(k: Kinds, s: Snapshot, remote: bool, local: set<string>)
    requires Unique(s)
    ensures UniqueListing(Filtered(k, s, remote, local))
    ensures forall key :: ViewAt(Filtered(k, s, remote, local), key) == Seen(k, s, remote, local, key)
    ensures Normalized(k, s, remote, local).0 == NormalListing(Filtered(k, s, remote, local))
  {
    var l := Filtered(k, s, remote, local);
    forall c | c in l ensures UniqueItems(l[c]) {
      FilterView(k, c, remote, local, s.collections[c], "");
    }
    forall key: EntityKey ensures ViewAt(l, key) == Seen(k, s, remote, local, key) {
      if key.collection in l {
        FilterView(k, key.collection, remote, local, s.collections[key.collection], key.id);
      }
    }
  }

  /** Equivalence is equality of what each side shows: any order of rows with unique identifiers,
      and no difference in any row or rule that is shown. */
  lemma EquivalentIsSeen(k: Kinds, local: Snapshot, remote: Snapshot)
    requires Unique(local) && Unique(remote)
    ensures Equivalent(k, local, remote) <==>
              && Rules(k, local) == Rules(k, remote)
              && forall key ::
                   Seen(k, local, false, TimelineIds(local), key) == Seen(k, remote, true, TimelineIds(local), key)
  {
    var ids := TimelineIds(local);
    FilteredSees(k, local, false, ids);
    FilteredSees(k, remote, true, ids);
    var a, b := Filtered(k, local, false, ids), Filtered(k, remote, true, ids);
    NormalListingIsView(a, b);
    assert (forall key :: ViewAt(a, key) == ViewAt(b, key)) <==>
           forall key :: Seen(k, local, false, ids, key) == Seen(k, remote, true, ids, key) by {
      if forall key :: Seen(k, local, false, ids, key) == Seen(k, remote, true, ids, key) {
        forall key ensures ViewAt(a, key) == ViewAt(b, key) {}
      }
      if forall key :: ViewAt(a, key) == ViewAt(b, key) {
        forall key ensures Seen(k, local, false, ids, key) == Seen(k, remote, true, ids, key) {
          assert ViewAt(a, key) == ViewAt(b, key);
        }
      }
    }
  }

  lemma TimelineIdsView(s: Snapshot, id: string)
    requires Unique(s)
    ensures id in TimelineIds(s) <==> ViewAt(s.collections, EntityKey(TIMELINE, id)).Some?
  {
    var items := Rows(s.collections, TIMELINE);
    if id in TimelineIds(s) {
      var i :| i in items && i.id == id;
      MemberByView(items, i);
    }
    if RowOf(items, id).Some? {
      MemberByView(items, Item(id, RowOf(items, id).value));
    }
  }

  /** Row by row: rules count unless they are the default's; hydrated history never counts; ingestion audit on the
      remote side counts only under an identifier that the local history has too; and every other row counts. */
  lemma EquivalentExactly(k: Kinds, local: Snapshot, remote: Snapshot)
    requires Unique(local) && Unique(remote)
    ensures Equivalent(k, local, remote) <==>
              && (if local.rules.Some? && k.defaults(local.rules.value) then None else local.rules)
                 == (if remote.rules.Some? && k.defaults(remote.rules.value) then None else remote.rules)
              && forall key: EntityKey ::
                   var l, r := ViewAt(local.collections, key), ViewAt(remote.collections, key);
                   (if key.collection == "timeline" && l.Some? && k.backfill(l.value) then None else l)
                   == if key.collection == "timeline" && r.Some?
                         && (k.backfill(r.value) || (k.audit(r.value) && l.None?)) then None else r
  {
    EquivalentIsSeen(k, local, remote);
    forall key: EntityKey
      ensures var l, r := ViewAt(local.collections, key), ViewAt(remote.collections, key);
              && Seen(k, local, false, TimelineIds(local), key)
                 == (if key.collection == "timeline" && l.Some? && k.backfill(l.value) then None else l)
              && Seen(k, remote, true, TimelineIds(local), key)
                 == if key.collection == "timeline" && r.Some?
                       && (k.backfill(r.value) || (k.audit(r.value) && l.None?)) then None else r
    {
      TimelineIdsView(local, key.id);
    }
  }

  lemma EquivalentReflexive(k: Kinds, s: Snapshot)
    requires Unique(s)
    ensures Equivalent(k, s, s)
  {
    EquivalentIsSeen(k, s, s);
    forall key ensures Seen(k, s, false, TimelineIds(s), key) == Seen(k, s, true, TimelineIds(s), key) {
      if key.collection == TIMELINE {
        TimelineIdsView(s, key.id);
      }
    }
  }

  /** An identifier that the first snapshot holds as hydrated history, the second not at all, and the
      third as ingestion audit. */
  predicate Reused(k: Kinds, a: Snapshot, b: Snapshot, c: Snapshot, id: string) {
    id in TimelineIds(a) && id !in TimelineIds(b)
    && var row := ViewAt(c.collections, EntityKey(TIMELINE, id));
       row.Some? && k.audit(row.value) && !k.backfill(row.value)
  }

  lemma ComposedAt(k: Kinds, a: Snapshot, b: Snapshot, c: Snapshot, key: EntityKey)
    requires Unique(a) && Unique(b) && Unique(c)
    requires Seen(k, a, false, TimelineIds(a), key) == Seen(k, b, true, TimelineIds(a), key)
    requires Seen(k, b, false, TimelineIds(b), key) == Seen(k, c, true, TimelineIds(b), key)
    ensures Seen(k, a, false, TimelineIds(a), key) == Seen(k, c, true, TimelineIds(a), key)
            <==> !(key.collection == TIMELINE && Reused(k, a, b, c, key.id))
  {
    if key.collection == TIMELINE {
      TimelineIdsView(a, key.id);
      TimelineIdsView(b, key.id);
      TimelineIdsView(c, key.id);
    }
  }

  /** It composes along a chain of snapshots exactly when no identifier is reused across the kinds
      that the two sides ignore. */
  lemma EquivalentComposes(k: Kinds, a: Snapshot, b: Snapshot, c: Snapshot)
    requires Unique(a) && Unique(b) && Unique(c)
    requires Equivalent(k, a, b) && Equivalent(k, b, c)
    ensures Equivalent(k, a, c) <==> forall id :: !Reused(k, a, b, c, id)
  {
    EquivalentIsSeen(k, a, b);
    EquivalentIsSeen(k, b, c);
    EquivalentIsSeen(k, a, c);
    forall key: EntityKey
      ensures Seen(k, a, false, TimelineIds(a), key) == Seen(k, c, true, TimelineIds(a), key)
              <==> !(key.collection == TIMELINE && Reused(k, a, b, c, key.id))
    {
      ComposedAt(k, a, b, c, key);
    }
    if Equivalent(k, a, c) {
      forall id ensures !Reused(k, a, b, c, id) {
        assert Seen(k, a, false, TimelineIds(a), EntityKey(TIMELINE, id))
               == Seen(k, c, true, TimelineIds(a), EntityKey(TIMELINE, id));
      }
    }
  }

  /** It is not symmetric: it can be turned around exactly when the remote side shows no ingestion
      audit that the local side lacks. */
  lemma EquivalentTurnsAround(k: Kinds, a: Snapshot, b: Snapshot)
    requires Unique(a) && Unique(b) && Equivalent(k, a, b)
    ensures Equivalent(k, b, a) <==>
            forall i | i in Rows(b.collections, TIMELINE) && k.audit(i.row) && !k.backfill(i.row) ::
                i.id in TimelineIds(a)
  {
    EquivalentIsSeen(k, a, b);
    EquivalentIsSeen(k, b, a);
    var extra := forall i | i in Rows(b.collections, TIMELINE) && k.audit(i.row) && !k.backfill(i.row) ::
          i.id in TimelineIds(a);
    if extra {
      forall key ensures Seen(k, b, false, TimelineIds(b), key) == Seen(k, a, true, TimelineIds(b), key) {
        assert Seen(k, a, false, TimelineIds(a), key) == Seen(k, b, true, TimelineIds(a), key);
        if key.collection == TIMELINE {
          TurnedRow(k, a, b, key.id);
        }
      }
    } else {
      var i :| i in Rows(b.collections, TIMELINE) && k.audit(i.row) && !k.backfill(i.row) && i.id !in TimelineIds(a);
      var key := EntityKey(TIMELINE, i.id);
      MemberByView(Rows(b.collections, TIMELINE), i);
      TimelineIdsView(a, i.id);
      assert Seen(k, b, false, TimelineIds(b), key) == Some(i.row);
      assert Seen(k, a, true, TimelineIds(b), key) == None;
    }
  }

  lemma TurnedRow(k: Kinds, a: Snapshot, b: Snapshot, id: string)
    requires Unique(a) && Unique(b)
    requires var key := EntityKey(TIMELINE, id);
             Seen(k, a, false, TimelineIds(a), key) == Seen(k, b, true, TimelineIds(a), key)
    requires forall i | i in Rows(b.collections, TIMELINE) && k.audit(i.row) && !k.backfill(i.row) ::
               i.id in TimelineIds(a)
    ensures var key := EntityKey(TIMELINE, id);
            Seen(k, b, false, TimelineIds(b), key) == Seen(k, a, true, TimelineIds(b), key)
  {
    TimelineIdsView(a, id);
    TimelineIdsView(b, id);
    var row := RowOf(Rows(b.collections, TIMELINE), id);
    if row.Some? {
      MemberByView(Rows(b.collections, TIMELINE), Item(id, row.value));
    }
  }

  // ---------------------------------------------------------------------------------------
  // Where it is no equivalence
  // ---------------------------------------------------------------------------------------

  function KindRow(kind: string): Row {
    map["kind" := Quoted(kind)]
  }

  function OfKind(kind: string): Row -> bool {
    (row: Row) => Cell(Some(row), "kind") == Some(Quoted(kind))
  }

  function HistoryKinds(): Kinds {
    Kinds(OfKind("baseline_backfill"), OfKind("ingestion_recorded"), (row: Row) => false)
  }

  /** A snapshot with one row of history. */
  function Holding(kind: string): Snapshot {
    Snapshot(map[TIMELINE := [Item("t1", KindRow(kind))]], None)
  }

  lemma HoldingSees(kind: string, remote: bool, local: set<string>, key: EntityKey)
    ensures Unique(Holding(kind)) && TimelineIds(Holding(kind)) == {"t1"}
    ensures Seen(HistoryKinds(), Holding(kind), remote, local, key) ==
            if key == EntityKey(TIMELINE, "t1")
              && Kept(HistoryKinds(), TIMELINE, remote, local, Item("t1", KindRow(kind)))
            then Some(KindRow(kind)) else None
  {
    var items := [Item("t1", KindRow(kind))];
    assert Rows(Holding(kind).collections, TIMELINE) == items && items[0] in items;
    if key.collection == TIMELINE {
      MemberByView(items, Item(key.id, KindRow(kind)));
      if RowOf(items, key.id).Some? {
        MemberByView(items, Item(key.id, RowOf(items, key.id).value));
      }
    }
  }

  /** A cache without an ingestion record is equivalent to a server with one, and not the other way
      round. */
  lemma EquivalentIsOneWay()
    ensures var k, empty, audited := HistoryKinds(), Snapshot(map[], None), Holding("ingestion_recorded");
            Equivalent(k, empty, audited) && !Equivalent(k, audited, empty)
  {
    var k, empty, audited := HistoryKinds(), Snapshot(map[], None), Holding("ingestion_recorded");
    forall key: EntityKey ensures Seen(k, empty, false, {}, key) == Seen(k, audited, true, {}, key) {
      HoldingSees("ingestion_recorded", true, {}, key);
    }
    HoldingSees("ingestion_recorded", true, {}, EntityKey(TIMELINE, "t1"));
    EquivalentIsSeen(k, empty, audited);
    EquivalentTurnsAround(k, empty, audited);
    var i := Item("t1", KindRow("ingestion_recorded"));
    assert Rows(audited.collections, TIMELINE) == [i] && i in Rows(audited.collections, TIMELINE);
    assert k.audit(i.row) && !k.backfill(i.row);
  }

  /** An identifier that is hydrated history in the first snapshot and an ingestion record in the
      third breaks the chain over a second snapshot without it. */
  lemma EquivalentChainBreaks()
    ensures var k, a, b, c := HistoryKinds(), Holding("baseline_backfill"), Snapshot(map[], None),
            Holding("ingestion_recorded");
            Equivalent(k, a, b) && Equivalent(k, b, c) && !Equivalent(k, a, c)
  {
    var k, a, b, c := HistoryKinds(), Holding("baseline_backfill"), Snapshot(map[], None),
        Holding("ingestion_recorded");
    EquivalentIsOneWay();
    forall key: EntityKey ensures Seen(k, a, false, {"t1"}, key) == Seen(k, b, true, {"t1"}, key) {
      HoldingSees("baseline_backfill", false, {"t1"}, key);
    }
    var at := EntityKey(TIMELINE, "t1");
    HoldingSees("baseline_backfill", false, {"t1"}, at);
    HoldingSees("ingestion_recorded", true, {}, at);
    EquivalentIsSeen(k, a, b);
    EquivalentComposes(k, a, b, c);
    assert Seen(k, c, true, {"t1"}, at) == Some(KindRow("ingestion_recorded")) by {
      HoldingSees("ingestion_recorded", true, {"t1"}, at);
    }
    assert Reused(k, a, b, c, "t1");
  }
}
