/**
 The recorded-projection proof: the client may replace its cache only while the cache is exactly a
 recorded authoritative baseline with the recorded deltas applied. Snapshots list their collections
 in whatever order the database returns them, so the proof is about lists up to the order of rows
 with unique identifiers.
 */
module ProjectionProof {
  import opened Sequences
  import opened Wrappers
  import opened WorkspaceDelta
  import opened InteractionOrder

  datatype Item = Item(id: string, row: Row)

  type Listing = map<string, seq<Item>>

  // ---------------------------------------------------------------------------------------
  // One collection
  // ---------------------------------------------------------------------------------------

  predicate UniqueItems(items: seq<Item>) {
    forall i, j | 0 <= i < j < |items| :: items[i].id != items[j].id
  }

  /** The index of the first row with the identifier, or the length. */
  function FindIndex(items: seq<Item>, id: string): (n: nat)
    ensures n <= |items| && (n < |items| ==> items[n].id == id) && forall i | 0 <= i < n :: items[i].id != id
  {
    if items == [] || items[0].id == id then 0 else 1 + FindIndex(items[1..], id)
  }

  function RowOf(items: seq<Item>, id: string): Option<Row> {
    var n := FindIndex(items, id);
    if n < |items| then Some(items[n].row) else None
  }

  function PutRow(items: seq<Item>, id: string, row: Option<Row>): seq<Item> {
    var n := FindIndex(items, id);
    match row
    case Some(r) => if n < |items| then items[n := Item(id, r)] else items + [Item(id, r)]
    case None => if n < |items| then items[..n] + items[n + 1..] else items
  }

  lemma IndexOf(items: seq<Item>, i: nat)
    requires UniqueItems(items) && i < |items|
    ensures FindIndex(items, items[i].id) == i
  {}

  lemma Replaced(items: seq<Item>, n: nat, row: Row, other: string)
    requires UniqueItems(items) && n < |items|
    ensures var put := items[n := Item(items[n].id, row)];
            UniqueItems(put) && RowOf(put, other) == if other == items[n].id then Some(row) else RowOf(items, other)
  {
    var put := items[n := Item(items[n].id, row)];
    assert forall i | 0 <= i < |items| :: put[i].id == items[i].id;
    var m := FindIndex(items, other);
    if m < |items| {
      IndexOf(put, m);
      IndexOf(items, n);
    }
  }

  lemma Appended(items: seq<Item>, x: Item, other: string)
    requires UniqueItems(items) && FindIndex(items, x.id) == |items|
    ensures UniqueItems(items + [x])
    ensures RowOf(items + [x], other) == if other == x.id then Some(x.row) else RowOf(items, other)
  {
    var put := items + [x];
    var m := FindIndex(items, other);
    if m < |items| {
      assert put[m] == items[m];
      IndexOf(put, m);
    } else if other == x.id {
      assert put[|items|] == x;
      IndexOf(put, |items|);
    }
  }

  lemma Removed(items: seq<Item>, n: nat, other: string)
    requires UniqueItems(items) && n < |items|
    ensures var put := items[..n] + items[n + 1..];
            UniqueItems(put) && RowOf(put, other) == if other == items[n].id then None else RowOf(items, other)
  {
    var put := items[..n] + items[n + 1..];
    assert forall i | 0 <= i < |put| :: put[i] == if i < n then items[i] else items[i + 1];
    var m := FindIndex(items, other);
    if m < |items| && m != n {
      var at := if m < n then m else m - 1;
      assert put[at] == items[m];
      IndexOf(put, at);
    }
  }

  lemma PutRowViews(items: seq<Item>, id: string, row: Option<Row>, other: string)
    requires UniqueItems(items)
    ensures UniqueItems(PutRow(items, id, row))
    ensures RowOf(PutRow(items, id, row), other) == if other == id then row else RowOf(items, other)
  {
    var n := FindIndex(items, id);
    match row
    case Some(r) =>
      if n < |items| {
        Replaced(items, n, r, other);
      } else {
        Appended(items, Item(id, r), other);
      }
    case None =>
      if n < |items| {
        Removed(items, n, other);
      }
  }

  // ---------------------------------------------------------------------------------------
  // Order of rows
  // ---------------------------------------------------------------------------------------

  function Insert(x: Item, items: seq<Item>): seq<Item> {
    if items == [] || TextBefore(x.id, items[0].id) then [x] + items else [items[0]] + Insert(x, items[1..])
  }

  function Sorted(items: seq<Item>): seq<Item> {
    if items == [] then [] else Insert(items[0], Sorted(items[1..]))
  }

  /** Rows are sorted by identifier, but only where identifiers are unique. */
  function Normal(items: seq<Item>): seq<Item> {
    if UniqueItems(items) then Sorted(items) else items
  }

  predicate Ascending(items: seq<Item>) {
    forall i, j | 0 <= i < j < |items| :: TextBefore(items[i].id, items[j].id)
  }

  ghost predicate Leads(x: Item, items: seq<Item>) {
    forall y | y in items :: TextBefore(x.id, y.id)
  }

  lemma LeadingAscends(x: Item, items: seq<Item>)
    requires Ascending(items) && Leads(x, items)
    ensures Ascending([x] + items)
  {
    var all := [x] + items;
    forall i, j | 0 <= i < j < |all| ensures TextBefore(all[i].id, all[j].id) {
      assert all[j] == items[j - 1] && items[j - 1] in items;
    }
  }

  lemma TailAscends(items: seq<Item>)
    requires Ascending(items) && items != []
    ensures Ascending(items[1..]) && Leads(items[0], items[1..])
  {
    forall y | y in items[1..] ensures TextBefore(items[0].id, y.id) {
      var i :| 0 <= i < |items[1..]| && items[1..][i] == y;
      assert items[i + 1] == y;
    }
  }

  lemma {:induction false} InsertBag(x: Item, items: seq<Item>)
    ensures multiset(Insert(x, items)) == multiset(items) + multiset{x}
    decreases |items|
  {
    if items != [] && !TextBefore(x.id, items[0].id) {
      HeadTail(items);
      InsertBag(x, items[1..]);
      HeadTail([items[0]] + Insert(x, items[1..]));
    }
  }

  lemma InsertMembers(x: Item, items: seq<Item>, y: Item)
    ensures y in Insert(x, items) <==> y == x || y in items
  {
    InsertBag(x, items);
    assert y in multiset(Insert(x, items)) <==> y in multiset(items) + multiset{x};
  }

  lemma LeadsBefore(x: Item, items: seq<Item>)
    requires Ascending(items) && items != [] && TextBefore(x.id, items[0].id)
    ensures Leads(x, items)
  {
    forall y | y in items ensures TextBefore(x.id, y.id) {
      LeastItem(items, y);
      if y != items[0] {
        TextTransitive(x.id, items[0].id, y.id);
      }
    }
  }

  lemma {:induction false} InsertAscends(x: Item, items: seq<Item>)
    requires Ascending(items) && forall y | y in items :: y.id != x.id
    ensures Ascending(Insert(x, items))
    decreases |items|
  {
    if items != [] {
      TextOrder(x.id, items[0].id);
      if TextBefore(x.id, items[0].id) {
        LeadsBefore(x, items);
        LeadingAscends(x, items);
      } else {
        TailAscends(items);
        InsertAscends(x, items[1..]);
        forall y | y in Insert(x, items[1..]) ensures TextBefore(items[0].id, y.id) {
          InsertMembers(x, items[1..], y);
        }
        LeadingAscends(items[0], Insert(x, items[1..]));
      }
    }
  }

  lemma {:induction false} SortedAscends(items: seq<Item>)
    requires UniqueItems(items)
    ensures Ascending(Sorted(items)) && multiset(Sorted(items)) == multiset(items)
    decreases |items|
  {
    if items != [] {
      HeadTail(items);
      SortedAscends(items[1..]);
      SameBag(Sorted(items[1..]), items[1..]);
      forall y | y in items[1..] ensures y.id != items[0].id {
        var i :| 0 <= i < |items[1..]| && items[1..][i] == y;
        assert items[i + 1] == y;
      }
      InsertAscends(items[0], Sorted(items[1..]));
      InsertBag(items[0], Sorted(items[1..]));
    }
  }

  lemma LeastItem(items: seq<Item>, x: Item)
    requires Ascending(items) && x in items
    ensures x == items[0] || TextBefore(items[0].id, x.id)
  {
    var i :| 0 <= i < |items| && items[i] == x;
  }

  lemma {:induction false} AscendingIsUnique(a: seq<Item>, b: seq<Item>)
    requires Ascending(a) && Ascending(b) && multiset(a) == multiset(b)
    ensures a == b
    decreases |a|
  {
    SameBag(a, b);
    if a != [] {
      LeastItem(a, b[0]);
      LeastItem(b, a[0]);
      TextOrder(a[0].id, b[0].id);
      SameTail(a, b);
      TailAscends(a);
      TailAscends(b);
      AscendingIsUnique(a[1..], b[1..]);
      HeadTail(a);
      HeadTail(b);
    }
  }

  lemma OnceEach(items: seq<Item>, x: Item)
    requires UniqueItems(items)
    ensures multiset(items)[x] == if x in items then 1 else 0
  {
    if items != [] {
      assert items == [items[0]] + items[1..];
      OnceEach(items[1..], x);
    }
  }

  lemma MemberByView(items: seq<Item>, x: Item)
    requires UniqueItems(items)
    ensures x in items <==> RowOf(items, x.id) == Some(x.row)
  {
    if x in items {
      var i :| 0 <= i < |items| && items[i] == x;
      IndexOf(items, i);
    }
  }

  /** Lists with unique identifiers have the same normal form exactly when they hold the same rows:
      no order is told apart, and no field is lost. */
  lemma NormalIsView(a: seq<Item>, b: seq<Item>)
    requires UniqueItems(a) && UniqueItems(b)
    ensures Normal(a) == Normal(b) <==> forall id :: RowOf(a, id) == RowOf(b, id)
  {
    SortedAscends(a);
    SortedAscends(b);
    if forall id :: RowOf(a, id) == RowOf(b, id) {
      forall x ensures multiset(a)[x] == multiset(b)[x] {
        OnceEach(a, x);
        OnceEach(b, x);
        MemberByView(a, x);
        MemberByView(b, x);
      }
      assert multiset(a) == multiset(b);
      AscendingIsUnique(Sorted(a), Sorted(b));
    }
    if Normal(a) == Normal(b) {
      forall id ensures RowOf(a, id) == RowOf(b, id) {
        SameMembersSameView(a, b, id);
        SameMembersSameView(b, a, id);
      }
    }
  }

  lemma SameMembersSameView(a: seq<Item>, b: seq<Item>, id: string)
    requires UniqueItems(a) && UniqueItems(b) && multiset(a) == multiset(b)
    ensures RowOf(a, id).Some? ==> RowOf(b, id) == RowOf(a, id)
  {
    if RowOf(a, id).Some? {
      var x := Item(id, RowOf(a, id).value);
      MemberByView(a, x);
      assert x in multiset(b);
      MemberByView(b, x);
    }
  }

  // ---------------------------------------------------------------------------------------
  // Whole listings
  // ---------------------------------------------------------------------------------------

  function Rows(l: Listing, collection: string): seq<Item> {
    if collection in l then l[collection] else []
  }

  predicate UniqueListing(l: Listing) {
    forall c | c in l :: UniqueItems(l[c])
  }

  function ViewAt(l: Listing, key: EntityKey): Option<Row> {
    RowOf(Rows(l, key.collection), key.id)
  }

  /** The listing and the keyed workspace hold the same rows. */
  ghost predicate Shows(l: Listing, w: Workspace) {
    UniqueListing(l) && forall key :: ViewAt(l, key) == Lookup(w, key)
  }

  /** One recorded delta applied to a listing, change by change. */
  method ApplyToListing(l: Listing, cs: seq<EntityChange>, ghost w: Workspace) returns (r: Option<Listing>)
    requires Shows(l, w)
    ensures r.Some? <==> ApplyChanges(w, cs).Some?
    ensures r.Some? ==> Shows(r.value, ApplyChanges(w, cs).value)
  {
    var current := l;
    ghost var keyed := w;
    for n := 0 to |cs|
      invariant Shows(current, keyed) && ApplyChanges(w, cs) == ApplyChanges(keyed, cs[n..])
    {
      var c := cs[n];
      assert cs[n..][0] == c && cs[n..][1..] == cs[n + 1..];
      assert ViewAt(current, c.key) == Lookup(keyed, c.key);
      var row := PatchDeltaRow(ViewAt(current, c.key), c, true);
      if !row.Patched? {
        return None;
      }
      PatchShows(current, keyed, c.key, row.row);
      current := current[c.key.collection := PutRow(Rows(current, c.key.collection), c.key.id, row.row)];
      keyed := Store(keyed, c.key, row.row);
    }
    return Some(current);
  }

  lemma PatchShowsAt(l: Listing, w: Workspace, key: EntityKey, row: Option<Row>, k: EntityKey)
    requires Shows(l, w)
    ensures ViewAt(l[key.collection := PutRow(Rows(l, key.collection), key.id, row)], k)
            == Lookup(Store(w, key, row), k)
  {
    assert ViewAt(l, k) == Lookup(w, k);
    PutRowViews(Rows(l, key.collection), key.id, row, k.id);
  }

  lemma PatchShows(l: Listing, w: Workspace, key: EntityKey, row: Option<Row>)
    requires Shows(l, w)
    ensures Shows(l[key.collection := PutRow(Rows(l, key.collection), key.id, row)], Store(w, key, row))
  {
    PutRowViews(Rows(l, key.collection), key.id, row, key.id);
    forall k: EntityKey
      ensures ViewAt(l[key.collection := PutRow(Rows(l, key.collection), key.id, row)], k)
              == Lookup(Store(w, key, row), k)
    {
      PatchShowsAt(l, w, key, row, k);
    }
  }

  function NormalListing(l: Listing): Listing {
    map c | c in l && l[c] != [] :: Normal(l[c])
  }

  lemma InsertNonempty(x: Item, items: seq<Item>)
    ensures Insert(x, items) != []
  {}

  /** Listings have the same normal form exactly when they hold the same rows. */
  lemma NormalListingIsView(a: Listing, b: Listing)
    requires UniqueListing(a) && UniqueListing(b)
    ensures NormalListing(a) == NormalListing(b) <==> forall key :: ViewAt(a, key) == ViewAt(b, key)
  {
    if forall key :: ViewAt(a, key) == ViewAt(b, key) {
      forall c: string ensures Normal(Rows(a, c)) == Normal(Rows(b, c)) && (Rows(a, c) == [] <==> Rows(b, c) == []) {
        forall id ensures RowOf(Rows(a, c), id) == RowOf(Rows(b, c), id) {
          assert ViewAt(a, EntityKey(c, id)) == ViewAt(b, EntityKey(c, id));
        }
        NormalIsView(Rows(a, c), Rows(b, c));
        EmptyNormal(Rows(a, c));
        EmptyNormal(Rows(b, c));
      }
      var na, nb := NormalListing(a), NormalListing(b);
      forall c ensures c in na <==> c in nb {
        assert Rows(a, c) == [] <==> Rows(b, c) == [];
      }
      forall c | c in na ensures na[c] == nb[c] {
        assert Normal(Rows(a, c)) == Normal(Rows(b, c));
      }
    }
    if NormalListing(a) == NormalListing(b) {
      forall key: EntityKey ensures ViewAt(a, key) == ViewAt(b, key) {
        var c := key.collection;
        assert c in NormalListing(a) <==> c in NormalListing(b);
        if c in NormalListing(a) {
          assert NormalListing(a)[c] == NormalListing(b)[c];
          NormalIsView(a[c], b[c]);
        }
      }
    }
  }

  /** How the database lists its rows: by primary key, collection by collection, none of them empty. */
  predicate InKeyOrder(l: Listing) {
    forall c | c in l :: l[c] != [] && Ascending(l[c])
  }

  lemma AscendingIsNormal(items: seq<Item>)
    requires Ascending(items)
    ensures UniqueItems(items) && Normal(items) == items
  {
    forall i, j | 0 <= i < j < |items| ensures items[i].id != items[j].id {
      TextOrder(items[i].id, items[j].id);
    }
    SortedAscends(items);
    AscendingIsUnique(Sorted(items), items);
  }

  /** Listings in key order are the same listing exactly when they hold the same rows. */
  lemma KeyOrderIsView(a: Listing, b: Listing)
    requires InKeyOrder(a) && InKeyOrder(b)
    ensures a == b <==> forall key :: ViewAt(a, key) == ViewAt(b, key)
  {
    forall c | c in a ensures UniqueItems(a[c]) && Normal(a[c]) == a[c] {
      AscendingIsNormal(a[c]);
    }
    forall c | c in b ensures UniqueItems(b[c]) && Normal(b[c]) == b[c] {
      AscendingIsNormal(b[c]);
    }
    assert NormalListing(a) == a && NormalListing(b) == b;
    NormalListingIsView(a, b);
  }

  lemma EmptyNormal(items: seq<Item>)
    requires UniqueItems(items)
    ensures Normal(items) == [] <==> items == []
  {
    if items != [] {
      InsertNonempty(items[0], Sorted(items[1..]));
    }
  }

  // ---------------------------------------------------------------------------------------
  // The proof store
  // ---------------------------------------------------------------------------------------

  const COMPACT_AT := 64

  /** The recorded deltas applied to the recorded baseline. */
  function Expected(baseline: Workspace, deltas: seq<seq<EntityChange>>): Option<Workspace> {
    if deltas == [] then Some(baseline)
    else match Expected(baseline, deltas[..|deltas| - 1])
         case None => None
         case Some(w) => ApplyChanges(w, deltas[|deltas| - 1])
  }

  lemma {:induction false} ExpectedConcat(baseline: Workspace, a: seq<seq<EntityChange>>, b: seq<seq<EntityChange>>)
    requires Expected(baseline, a).Some?
    ensures Expected(baseline, a + b) == Expected(Expected(baseline, a).value, b)
    decreases |b|
  {
    if b == [] {
      assert a + b == a;
    } else {
      var init, last := b[..|b| - 1], b[|b| - 1];
      assert (a + b)[..|a + b| - 1] == a + init && (a + b)[|a + b| - 1] == last;
      ExpectedConcat(baseline, a, init);
    }
  }

  /** The verdict: the cache is what the records say. */
  predicate Recorded(baseline: Workspace, deltas: seq<seq<EntityChange>>, rows: Workspace) {
    Expected(baseline, deltas) == Some(rows)
  }

  /** The steps that change rows; the others leave no proof. */
  function Substantial(steps: seq<seq<EntityChange>>): seq<seq<EntityChange>> {
    if steps == [] then []
    else Substantial(steps[..|steps| - 1]) + if steps[|steps| - 1] == [] then [] else [steps[|steps| - 1]]
  }

  lemma {:induction false} SubstantialIsEnough(baseline: Workspace, steps: seq<seq<EntityChange>>)
    ensures Expected(baseline, Substantial(steps)) == Expected(baseline, steps)
    decreases |steps|
  {
    if steps != [] {
      var init, last := steps[..|steps| - 1], steps[|steps| - 1];
      SubstantialIsEnough(baseline, init);
      if last != [] {
        assert Substantial(steps)[..|Substantial(steps)| - 1] == Substantial(init);
      } else {
        assert Substantial(steps) == Substantial(init);
      }
    }
  }

  class ProofStore {
    var rows: Workspace
    var baseline: Listing
    var revision: nat
    var deltas: seq<seq<EntityChange>>
    ghost var recorded: Workspace

    ghost predicate Valid()
      reads this
    {
      Shows(baseline, recorded)
    }

    /** Guarded replacement: the read snapshot becomes the baseline, the retained interactions are replayed
        on it as recorded steps, and the proofs of the replaced cache go. A cache that no longer reads as
        it did when the caller looked, a newer baseline, a step that is not admitted, or a write that fails
        in the snapshot's rows (0) or in the n-th step (n) leaves everything alone. */
    method Replace(snapshot: Listing, w: Workspace, version: nat, expected: Listing, exported: Listing,
                   steps: seq<seq<EntityChange>>, failsAt: Option<nat>) returns (ok: bool)
      requires Valid() && Shows(snapshot, w) && Shows(exported, rows) && InKeyOrder(exported)
      modifies this
      ensures Valid()
      ensures ok <==>
                && (failsAt.Some? ==> |steps| < failsAt.value) && expected == exported && old(revision) <= version
                && Expected(w, steps).Some?
      ensures InKeyOrder(expected) ==>
                (expected == exported <==> forall key :: ViewAt(expected, key) == Lookup(old(rows), key))
      ensures ok ==> Some(rows) == Expected(w, steps) && recorded == w && revision == version
                     && deltas == Substantial(steps) && Recorded(recorded, deltas, rows)
      ensures !ok ==> rows == old(rows) && baseline == old(baseline) && revision == old(revision)
                      && deltas == old(deltas) && recorded == old(recorded)
    {
      if InKeyOrder(expected) {
        KeyOrderIsView(expected, exported);
      }
      assert forall key :: ViewAt(exported, key) == Lookup(rows, key);
      if expected != exported || revision > version || failsAt == Some(0) {
        return false;
      }
      var staged, kept := w, [];
      for n := 0 to |steps|
        invariant failsAt.Some? ==> n < failsAt.value
        invariant Expected(w, steps[..n]) == Some(staged) && kept == Substantial(steps[..n])
        invariant rows == old(rows) && baseline == old(baseline) && revision == old(revision)
                  && deltas == old(deltas) && recorded == old(recorded)
      {
        assert steps[..n + 1][..n] == steps[..n];
        var next := Transact(staged, steps[n]);
        if next.None? || failsAt == Some(n + 1) {
          if next.None? {
            NeverExpected(w, steps, n + 1);
          }
          return false;
        }
        staged := next.value;
        kept := kept + if steps[n] == [] then [] else [steps[n]];
      }
      assert steps[..|steps|] == steps;
      SubstantialIsEnough(w, steps);
      rows, baseline, revision, deltas, recorded := staged, snapshot, version, kept, w;
      return true;
    }

    /** One interaction step: entity rows and proof row commit together, or neither does. */
    method Persist(cs: seq<EntityChange>) returns (ok: bool)
      requires Valid()
      modifies this
      ensures Valid() && baseline == old(baseline) && revision == old(revision) && recorded == old(recorded)
      ensures ok <==> ApplyChanges(old(rows), cs).Some?
      ensures ok ==> Some(rows) == ApplyChanges(old(rows), cs) && deltas == old(deltas) + [cs]
      ensures !ok ==> rows == old(rows) && deltas == old(deltas)
      ensures Recorded(recorded, old(deltas), old(rows)) ==> Recorded(recorded, deltas, rows)
    {
      var next := Transact(rows, cs);
      if next.None? {
        return false;
      }
      assert (deltas + [cs])[..|deltas|] == deltas;
      rows, deltas := next.value, deltas + [cs];
      return true;
    }

    /** Whether the exported snapshot is the recorded projection; a verified store with many proofs
        folds them into its baseline, when asked to and when no other writer adds a proof meanwhile. */
    method IsRecorded(exported: Listing, unfinishedRollback: bool, compact: bool) returns (verified: bool)
      requires Valid() && Shows(exported, rows)
      modifies this
      ensures Valid() && rows == old(rows) && revision == old(revision)
      ensures verified <==> !unfinishedRollback && Recorded(old(recorded), old(deltas), rows)
      ensures compact && verified && |old(deltas)| >= COMPACT_AT ==> deltas == []
      ensures !(compact && verified && |old(deltas)| >= COMPACT_AT) ==>
                deltas == old(deltas) && baseline == old(baseline) && recorded == old(recorded)
      ensures forall later: seq<seq<EntityChange>>, w: Workspace ::
                Recorded(recorded, deltas + later, w) <==> Recorded(old(recorded), old(deltas) + later, w)
    {
      if unfinishedRollback {
        return false;
      }
      var expected := baseline;
      ghost var w := recorded;
      for n := 0 to |deltas|
        invariant deltas == old(deltas) && baseline == old(baseline) && recorded == old(recorded)
                  && rows == old(rows) && revision == old(revision)
        invariant Shows(expected, w) && Expected(recorded, deltas[..n]) == Some(w)
      {
        assert deltas[..n + 1][..n] == deltas[..n];
        var next := ApplyToListing(expected, deltas[n], w);
        if next.None? {
          NeverExpected(recorded, deltas, n + 1);
          return false;
        }
        expected := next.value;
        w := ApplyChanges(w, deltas[n]).value;
      }
      assert deltas[..|deltas|] == deltas;
      NormalListingIsView(expected, exported);
      verified := NormalListing(expected) == NormalListing(exported);
      SameView(expected, w, exported, rows);
      if compact && verified && |deltas| >= COMPACT_AT {
        forall later: seq<seq<EntityChange>>, v: Workspace
          ensures Recorded(rows, [] + later, v) <==> Recorded(recorded, deltas + later, v)
        {
          ExpectedConcat(recorded, deltas, later);
          assert [] + later == later;
        }
        baseline, deltas, recorded := exported, [], rows;
      }
    }

    /** Something else writes a row. While the store was verified, the edit is seen. */
    method Edit(key: EntityKey, row: Option<Row>)
      requires Valid()
      modifies this`rows
      ensures Valid() && rows == Store(old(rows), key, row)
      ensures Recorded(recorded, deltas, old(rows)) && row != Lookup(old(rows), key) ==>
                !Recorded(recorded, deltas, rows)
    {
      rows := Store(rows, key, row);
      assert Lookup(rows, key) == row;
    }
  }

  lemma SameView(a: Listing, v: Workspace, b: Listing, w: Workspace)
    requires Shows(a, v) && Shows(b, w)
    ensures (forall key :: ViewAt(a, key) == ViewAt(b, key)) <==> v == w
  {
    if forall key :: ViewAt(a, key) == ViewAt(b, key) {
      forall key ensures Lookup(v, key) == Lookup(w, key) {
        assert ViewAt(a, key) == ViewAt(b, key);
      }
      WorkspacesEqual(v, w);
    }
  }

  lemma NeverExpected(baseline: Workspace, deltas: seq<seq<EntityChange>>, n: nat)
    requires n <= |deltas| && Expected(baseline, deltas[..n]).None?
    ensures Expected(baseline, deltas).None?
    decreases |deltas|
  {
    if n < |deltas| {
      assert deltas[..|deltas| - 1][..n] == deltas[..n];
      NeverExpected(baseline, deltas[..|deltas| - 1], n);
    } else {
      assert deltas[..n] == deltas;
    }
  }
}
