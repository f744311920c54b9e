/**
 What a recovery makes of the journal before it replaces the cache: which commands its receipts
 confirm, which it refuses, and the retained ones, each rebased over its confirmed ancestors and over
 its retained ancestors as they were rebased before it.
 */
module RecoveryPlan {
  import opened Wrappers
  import opened WorkspaceDelta
  import opened Interactions
  import opened InteractionOrder
  import opened RowChain
  import opened JournalViews
  import opened OptimisticCache

  // ---------------------------------------------------------------------------------------
  // Ancestors
  // ---------------------------------------------------------------------------------------

  /** The predecessors of the records with these identifiers. */
  function Above(records: seq<Interaction>, ids: set<string>): set<string> {
    set x, p | x in records && x.commandId in ids && p in x.predecessors :: p
  }

  predicate ClosedUpward(records: seq<Interaction>, ids: set<string>) {
    Above(records, ids) <= ids
  }

  /** Everything that is named anywhere. */
  function Named(records: seq<Interaction>): set<string> {
    set x, p | x in records && p in x.predecessors :: p
  }

  function Ancestors(records: seq<Interaction>, ids: set<string>): set<string>
    decreases Named(records) - ids
  {
    if ClosedUpward(records, ids) then ids
    else
      var more := Above(records, ids);
      assert exists p :: p in more && p !in ids && p in Named(records);
      Ancestors(records, ids + more)
  }

  /** The ancestors are the least set that holds the predecessors and everything above its members. */
  lemma {:induction false} AncestorsAreLeast(records: seq<Interaction>, ids: set<string>, closed: set<string>)
    ensures ids <= Ancestors(records, ids) && ClosedUpward(records, Ancestors(records, ids))
    ensures ids <= closed && ClosedUpward(records, closed) ==> Ancestors(records, ids) <= closed
    decreases Named(records) - ids
  {
    if !ClosedUpward(records, ids) {
      var more := Above(records, ids);
      assert exists p :: p in more && p !in ids && p in Named(records);
      AncestorsAreLeast(records, ids + more, closed);
    }
  }

  /** The passes over the records, until one adds nothing. */
  method FindAncestors(records: seq<Interaction>, direct: set<string>) returns (all: set<string>)
    ensures all == Ancestors(records, direct)
  {
    all := direct;
    var changed := true;
    AncestorsAreLeast(records, direct, Ancestors(records, direct));
    while changed
      invariant direct <= all <= Ancestors(records, direct)
      invariant !changed ==> ClosedUpward(records, all)
      decreases Named(records) - all, changed
    {
      var more := AncestorPass(records, direct, all);
      changed := more != all;
      all := more;
    }
    AncestorsAreLeast(records, direct, all);
  }

  method AncestorPass(records: seq<Interaction>, ghost direct: set<string>, ids: set<string>)
    returns (more: set<string>)
    requires direct <= ids <= Ancestors(records, direct)
    ensures ids + Above(records, ids) <= more <= Ancestors(records, direct) && more <= ids + Named(records)
  {
    more := ids;
    AncestorsAreLeast(records, direct, ids);
    for n := 0 to |records|
      invariant ids + Above(records[..n], ids) <= more <= Ancestors(records, direct) && more <= ids + Named(records)
    {
      assert records[..n + 1] == records[..n] + [records[n]];
      assert records[n] in records;
      if records[n].commandId in more {
        assert records[n].predecessors <= Above(records, Ancestors(records, direct));
        more := more + records[n].predecessors;
      }
    }
    assert records[..|records|] == records;
  }

  // ---------------------------------------------------------------------------------------
  // Rebasing one record
  // ---------------------------------------------------------------------------------------

  function RebasedChanges(cs: seq<EntityChange>, sources: seq<Interaction>): (r: seq<EntityChange>)
    ensures |r| == |cs| && forall i | 0 <= i < |cs| ::
              r[i] == Rebase(cs[i], ChangesOf(On(sources, cs[i].key), cs[i].key))
  {
    if cs == [] then []
    else
      var last := cs[|cs| - 1];
      RebasedChanges(cs[..|cs| - 1], sources) + [Rebase(last, ChangesOf(On(sources, last.key), last.key))]
  }

  /** A record that only creates is kept as it is, and its ancestors are not put in order. */
  predicate Creates(p: Interaction) {
    forall c | c in p.changes :: c.before.None?
  }

  /** The record over its sources in dependency order. */
  function RebasedRecord(p: Interaction, sources: seq<Interaction>): Option<Interaction> {
    if Creates(p) then Some(p)
    else match Ordered(sources)
         case None => None
         case Some(order) => Some(p.(changes := RebasedChanges(p.changes, order)))
  }

  /** One change over the sources in order, each with its own change of the entity, if it has one. */
  method RebaseOne(c: EntityChange, order: seq<Interaction>) returns (r: EntityChange)
    ensures r == Rebase(c, ChangesOf(On(order, c.key), c.key))
  {
    r := c;
    for n := 0 to |order|
      invariant r == Rebase(c, ChangesOf(On(order[..n], c.key), c.key))
    {
      assert order[..n + 1] == order[..n] + [order[n]];
      OnLast(order[..n], order[n], c.key);
      var own := ChangeAt(order[n].changes, c.key);
      if own.Some? {
        ChangesAppended(On(order[..n], c.key), order[n], c.key);
        ghost var before := ChangesOf(On(order[..n], c.key), c.key);
        assert (before + [own.value])[..|before|] == before;
        r := RebaseOver(r, own.value);
      }
    }
    assert order[..|order|] == order;
  }

  lemma ChangesAppended(ps: seq<Interaction>, p: Interaction, e: EntityKey)
    ensures ChangesOf(ps + [p], e) == ChangesOf(ps, e) + [ChangeOf(p, e)]
  {
    assert (ps + [p])[..|ps|] == ps;
  }

  method RebaseRecord(p: Interaction, sources: seq<Interaction>) returns (r: Option<Interaction>)
    requires UniqueIds(sources)
    ensures r == RebasedRecord(p, sources)
  {
    if forall c | c in p.changes :: c.before.None? {
      return Some(p);
    }
    var order := OrderInteractions(sources);
    if order.None? {
      return None;
    }
    var changes := [];
    for n := 0 to |p.changes|
      invariant changes == RebasedChanges(p.changes[..n], order.value)
    {
      assert p.changes[..n + 1][..n] == p.changes[..n];
      var c := RebaseOne(p.changes[n], order.value);
      changes := changes + [c];
    }
    assert p.changes[..|p.changes|] == p.changes;
    return Some(p.(changes := changes));
  }

  // ---------------------------------------------------------------------------------------
  // The retained records
  // ---------------------------------------------------------------------------------------

  /** What a record is rebased over: its ancestors among the newly confirmed, the confirmed before, and the
      retained ones that were rebased already. */
  function Sources(p: Interaction, pending: seq<Interaction>, log: seq<Interaction>, confirmed: seq<Interaction>,
                   kept: seq<Interaction>): seq<Interaction>
  {
    var ids := Ancestors(pending, p.predecessors);
    Pick(confirmed, ids) + Pick(log, ids) + Pick(kept, ids)
  }

  function Retain(order: seq<Interaction>, pending: seq<Interaction>, log: seq<Interaction>,
                  confirmed: seq<Interaction>): (kept: Option<seq<Interaction>>)
    ensures kept.Some? ==> |kept.value| == |order|
  {
    if order == [] then Some([])
    else match Retain(order[..|order| - 1], pending, log, confirmed)
         case None => None
         case Some(kept) =>
           var last := order[|order| - 1];
           match RebasedRecord(last, Sources(last, pending, log, confirmed, kept))
           case None => None
           case Some(r) => Some(kept + [r])
  }

  // ---------------------------------------------------------------------------------------
  // The plan
  // ---------------------------------------------------------------------------------------

  /** A receipt that was found, with its revision and its delta. */
  datatype Reply = Reply(revision: nat, changes: seq<EntityChange>)

  datatype Plan = Plan(confirmed: seq<Interaction>, kept: seq<Interaction>)

  function Confirming(pending: seq<Interaction>, receipts: map<string, Reply>): seq<Interaction> {
    if pending == [] then []
    else
      var last := pending[|pending| - 1];
      Confirming(pending[..|pending| - 1], receipts)
      + if last.commandId in receipts then [Confirm(last, receipts[last.commandId].changes)] else []
  }

  /** Refused for its own sake: the snapshot does not vouch for it, or its withdrawal is unfinished. */
  function RefusedFirst(pending: seq<Interaction>, receipts: map<string, Reply>, unvouched: set<string>): set<string> {
    set p | p in pending && p.commandId !in receipts && (p.commandId in unvouched || p.state == RollbackPending) ::
        p.commandId
  }

  /** Without a receipt and behind something refused. */
  function Behind(pending: seq<Interaction>, receipts: map<string, Reply>, refused: set<string>): set<string> {
    set p | p in pending && p.commandId !in receipts && p.predecessors * refused != {} :: p.commandId
  }

  function Refused(pending: seq<Interaction>, receipts: map<string, Reply>, refused: set<string>): set<string>
    decreases Ids(pending) - refused
  {
    var behind := Behind(pending, receipts, refused);
    if behind <= refused then refused
    else
      assert exists id :: id in behind && id !in refused && id in Ids(pending);
      Refused(pending, receipts, refused + behind)
  }

  /** Everything without a receipt is put in dependency order; what is not refused is kept. */
  function Keeping(pending: seq<Interaction>, receipts: map<string, Reply>,
                   unvouched: set<string>): Option<seq<Interaction>>
  {
    match Ordered(Drop(pending, receipts.Keys))
    case None => None
    case Some(order) => Some(Drop(order, Refused(pending, receipts, RefusedFirst(pending, receipts, unvouched))))
  }

  function PlanOf(pending: seq<Interaction>, log: seq<Interaction>, receipts: map<string, Reply>,
                  unvouched: set<string>): Option<Plan>
  {
    var confirmed := Confirming(pending, receipts);
    match Keeping(pending, receipts, unvouched)
    case None => None
    case Some(order) =>
      match Retain(order, pending, log, confirmed)
      case None => None
      case Some(kept) => Some(Plan(confirmed, kept))
  }

  /** The refused are the least set that holds the first ones and everything behind its members. */
  lemma {:induction false} RefusedIsLeast(pending: seq<Interaction>, receipts: map<string, Reply>,
                                          refused: set<string>, closed: set<string>)
    ensures var all := Refused(pending, receipts, refused);
            && refused <= all && Behind(pending, receipts, all) <= all
            && (refused <= closed && Behind(pending, receipts, closed) <= closed ==> all <= closed)
    decreases Ids(pending) - refused
  {
    var behind := Behind(pending, receipts, refused);
    if !(behind <= refused) {
      assert exists id :: id in behind && id !in refused && id in Ids(pending);
      if refused <= closed && Behind(pending, receipts, closed) <= closed {
        BehindGrows(pending, receipts, refused, closed);
      }
      RefusedIsLeast(pending, receipts, refused + behind, closed);
    }
  }

  lemma BehindGrows(pending: seq<Interaction>, receipts: map<string, Reply>, a: set<string>, b: set<string>)
    requires a <= b
    ensures Behind(pending, receipts, a) <= Behind(pending, receipts, b)
  {
    forall p | p in pending && p.predecessors * a != {} ensures p.predecessors * b != {} {
      assert p.predecessors * a <= p.predecessors * b;
    }
  }

  /** The passes over the records, until one refuses nothing more. */
  method FindRefused(pending: seq<Interaction>, receipts: map<string, Reply>, first: set<string>)
    returns (all: set<string>)
    ensures all == Refused(pending, receipts, first)
  {
    all := first;
    var expanded := true;
    ghost var least := Refused(pending, receipts, first);
    RefusedIsLeast(pending, receipts, first, least);
    while expanded
      invariant first <= all <= least
      invariant !expanded ==> Behind(pending, receipts, all) <= all
      decreases Ids(pending) - all, expanded
    {
      var more := RefusedPass(pending, receipts, all, least);
      expanded := more != all;
      all := more;
    }
    RefusedIsLeast(pending, receipts, first, all);
  }

  method RefusedPass(pending: seq<Interaction>, receipts: map<string, Reply>, refused: set<string>,
                     ghost least: set<string>) returns (more: set<string>)
    requires refused <= least && Behind(pending, receipts, least) <= least
    ensures refused + Behind(pending, receipts, refused) <= more <= least && more <= refused + Ids(pending)
  {
    more := refused;
    for n := 0 to |pending|
      invariant refused + Behind(pending[..n], receipts, refused) <= more <= least && more <= refused + Ids(pending)
    {
      var p := pending[n];
      assert pending[..n + 1] == pending[..n] + [p];
      assert p in pending;
      if p.commandId !in receipts && exists id | id in p.predecessors :: id in more {
        assert p.predecessors * least != {} by {
          var id :| id in p.predecessors && id in more;
          assert id in p.predecessors * least;
        }
        more := more + {p.commandId};
      }
      assert p.predecessors * refused != {} ==> exists id | id in p.predecessors :: id in more;
    }
    assert pending[..|pending|] == pending;
  }

  method ConfirmFound(pending: seq<Interaction>, receipts: map<string, Reply>) returns (confirmed: seq<Interaction>)
    ensures confirmed == Confirming(pending, receipts)
  {
    confirmed := [];
    for n := 0 to |pending|
      invariant confirmed == Confirming(pending[..n], receipts)
    {
      assert pending[..n + 1][..n] == pending[..n];
      if pending[n].commandId in receipts {
        confirmed := confirmed + [Confirm(pending[n], receipts[pending[n].commandId].changes)];
      }
    }
    assert pending[..|pending|] == pending;
  }

  lemma NotRetained(order: seq<Interaction>, n: nat, pending: seq<Interaction>, log: seq<Interaction>,
                    confirmed: seq<Interaction>)
    requires n <= |order| && Retain(order[..n], pending, log, confirmed).None?
    ensures Retain(order, pending, log, confirmed).None?
    decreases |order|
  {
    if n < |order| {
      assert order[..|order| - 1][..n] == order[..n];
      NotRetained(order[..|order| - 1], n, pending, log, confirmed);
    } else {
      assert order[..n] == order;
    }
  }

  lemma RetainLast(order: seq<Interaction>, pending: seq<Interaction>, log: seq<Interaction>,
                   confirmed: seq<Interaction>)
    requires Retain(order, pending, log, confirmed).Some? && order != []
    ensures var init, last, kept := order[..|order| - 1], order[|order| - 1],
                Retain(order, pending, log, confirmed).value;
            && Retain(init, pending, log, confirmed) == Some(kept[..|kept| - 1])
            && kept[|kept| - 1] == last.(changes := kept[|kept| - 1].changes)
            && Some(kept[|kept| - 1])
               == RebasedRecord(last, Sources(last, pending, log, confirmed, kept[..|kept| - 1]))
  {
    var init, kept := order[..|order| - 1], Retain(order, pending, log, confirmed).value;
    assert kept[..|kept| - 1] == Retain(init, pending, log, confirmed).value;
  }

  /** A rebased record is the same command in the same place. */
  lemma {:induction false} RetainAlike(order: seq<Interaction>, pending: seq<Interaction>, log: seq<Interaction>,
                                       confirmed: seq<Interaction>, n: nat)
    requires Retain(order, pending, log, confirmed).Some? && n < |order|
    ensures var kept := Retain(order, pending, log, confirmed).value;
            && kept[n] == order[n].(changes := kept[n].changes)
            && Retain(order[..n], pending, log, confirmed) == Some(kept[..n])
            && Some(kept[n]) == RebasedRecord(order[n], Sources(order[n], pending, log, confirmed, kept[..n]))
    decreases |order|
  {
    RetainLast(order, pending, log, confirmed);
    var init, kept := order[..|order| - 1], Retain(order, pending, log, confirmed).value;
    if n < |init| {
      RetainAlike(init, pending, log, confirmed, n);
      assert init[..n] == order[..n] && kept[..|kept| - 1][..n] == kept[..n];
    }
  }

  lemma KeptIds(order: seq<Interaction>, pending: seq<Interaction>, log: seq<Interaction>, confirmed: seq<Interaction>)
    requires Retain(order, pending, log, confirmed).Some?
    ensures Ids(Retain(order, pending, log, confirmed).value) == Ids(order)
    ensures UniqueIds(order) ==> UniqueIds(Retain(order, pending, log, confirmed).value)
    ensures Topological(order) ==> Topological(Retain(order, pending, log, confirmed).value)
  {
    var kept := Retain(order, pending, log, confirmed).value;
    forall i | 0 <= i < |order|
      ensures kept[i].commandId == order[i].commandId && kept[i].predecessors == order[i].predecessors
    {
      RetainAlike(order, pending, log, confirmed, i);
    }
    forall id ensures id in Ids(kept) <==> id in Ids(order) {
      if id in Ids(kept) {
        var i :| 0 <= i < |kept| && kept[i].commandId == id;
        assert order[i] in order;
      }
      if id in Ids(order) {
        var i :| 0 <= i < |order| && order[i].commandId == id;
        assert kept[i] in kept;
      }
    }
  }

  lemma ConcatUnique(a: seq<Interaction>, b: seq<Interaction>)
    requires UniqueIds(a) && UniqueIds(b) && Ids(a) !! Ids(b)
    ensures UniqueIds(a + b) && Ids(a + b) == Ids(a) + Ids(b)
  {
    forall i, j | 0 <= i < j < |a + b| ensures (a + b)[i].commandId != (a + b)[j].commandId {
      if i < |a| <= j {
        assert a[i] in a && b[j - |a|] in b && a[i].commandId in Ids(a) && b[j - |a|].commandId in Ids(b);
      }
    }
  }

  lemma PickIds(rs: seq<Interaction>, ids: set<string>)
    requires UniqueIds(rs)
    ensures UniqueIds(Pick(rs, ids)) && Ids(Pick(rs, ids)) <= Ids(rs)
  {
    PickMembers(rs, ids);
  }

  lemma SourcesUnique(order: seq<Interaction>, pending: seq<Interaction>, log: seq<Interaction>,
                      confirmed: seq<Interaction>, kept: seq<Interaction>, ids: set<string>)
    requires UniqueIds(order) && UniqueIds(log + confirmed) && Ids(order) !! Ids(log + confirmed)
    requires Retain(order, pending, log, confirmed) == Some(kept)
    ensures UniqueIds(Pick(confirmed, ids) + Pick(log, ids) + Pick(kept, ids))
  {
    KeptIds(order, pending, log, confirmed);
    SplitUnique(log, confirmed);
    PickIds(confirmed, ids);
    PickIds(log, ids);
    PickIds(kept, ids);
    ConcatUnique(Pick(confirmed, ids), Pick(log, ids));
    ConcatUnique(Pick(confirmed, ids) + Pick(log, ids), Pick(kept, ids));
  }

  lemma SplitUnique(a: seq<Interaction>, b: seq<Interaction>)
    requires UniqueIds(a + b)
    ensures UniqueIds(a) && UniqueIds(b) && Ids(a) !! Ids(b) && Ids(a + b) == Ids(a) + Ids(b)
  {
    forall i, j | 0 <= i < j < |a| ensures a[i].commandId != a[j].commandId {
      assert (a + b)[i] == a[i] && (a + b)[j] == a[j];
    }
    forall i, j | 0 <= i < j < |b| ensures b[i].commandId != b[j].commandId {
      assert (a + b)[|a| + i] == b[i] && (a + b)[|a| + j] == b[j];
    }
    forall x, y | x in a && y in b ensures x.commandId != y.commandId {
      var i :| 0 <= i < |a| && a[i] == x;
      var j :| 0 <= j < |b| && b[j] == y;
      assert (a + b)[i] == a[i] && (a + b)[|a| + j] == b[j];
    }
    forall id | id in Ids(a) + Ids(b) ensures id in Ids(a + b) {
      var x :| (x in a || x in b) && x.commandId == id;
      assert x in a + b;
    }
  }

  /** The loop over the records in order, with what was rebased so far. */
  method RetainInOrder(order: seq<Interaction>, pending: seq<Interaction>, log: seq<Interaction>,
                       confirmed: seq<Interaction>)
    returns (kept: Option<seq<Interaction>>)
    requires UniqueIds(order) && UniqueIds(log + confirmed) && Ids(order) !! Ids(log + confirmed)
    ensures kept == Retain(order, pending, log, confirmed)
  {
    var done := [];
    for n := 0 to |order|
      invariant Retain(order[..n], pending, log, confirmed) == Some(done)
    {
      assert order[..n + 1][..n] == order[..n];
      var ids := FindAncestors(pending, order[n].predecessors);
      var sources := Pick(confirmed, ids) + Pick(log, ids) + Pick(done, ids);
      SourcesUnique(order[..n], pending, log, confirmed, done, ids);
      var r := RebaseRecord(order[n], sources);
      if r.None? {
        NotRetained(order, n + 1, pending, log, confirmed);
        return None;
      }
      done := done + [r.value];
    }
    assert order[..|order|] == order;
    return Some(done);
  }

  /** Confirmed and retained records that a full read may leave behind. */
  predicate Retains(pending: seq<Interaction>, log: seq<Interaction>, confirmed: seq<Interaction>,
                    kept: seq<Interaction>)
  {
    && UniqueIds(log + confirmed) && (forall p | p in confirmed :: UniqueKeys(p.changes))
    && Ids(kept) <= Ids(pending) && Ids(kept) !! Ids(log + confirmed) && UniqueIds(kept) && Topological(kept)
    && forall p | p in kept :: Unsettled(p.state) && UniqueKeys(p.changes)
  }

  /** The journal as it is kept, and receipts with well-formed deltas. */
  ghost predicate Recoverable(pending: seq<Interaction>, log: seq<Interaction>, receipts: map<string, Reply>) {
    && UniqueIds(pending) && UniqueIds(log) && Ids(pending) !! Ids(log) && Acyclic(pending)
    && (forall p | p in pending :: Unsettled(p.state) && UniqueKeys(p.changes))
    && forall id | id in receipts :: UniqueKeys(receipts[id].changes)
  }

  lemma {:induction false} ConfirmedMembers(pending: seq<Interaction>, receipts: map<string, Reply>)
    requires UniqueIds(pending)
    ensures var confirmed := Confirming(pending, receipts);
            && UniqueIds(confirmed) && Ids(confirmed) == Ids(pending) * receipts.Keys
            && forall c | c in confirmed :: c.commandId in receipts && c.changes == receipts[c.commandId].changes
    decreases |pending|
  {
    if pending != [] {
      var init, last := pending[..|pending| - 1], pending[|pending| - 1];
      assert pending == init + [last];
      UniqueLast(init, last);
      ConfirmedMembers(init, receipts);
      IdsLast(init, last);
      if last.commandId in receipts {
        var done := Confirm(last, receipts[last.commandId].changes);
        forall x | x in Confirming(init, receipts) ensures x.commandId != done.commandId {
          assert x.commandId in Ids(Confirming(init, receipts));
        }
        UniqueLast(Confirming(init, receipts), done);
        IdsLast(Confirming(init, receipts), done);
        assert Confirming(pending, receipts) == Confirming(init, receipts) + [done];
        assert Ids(Confirming(pending, receipts)) == Ids(pending) * receipts.Keys;
      } else {
        assert Confirming(pending, receipts) == Confirming(init, receipts);
      }
    }
  }

  lemma IdsLast(rs: seq<Interaction>, r: Interaction)
    ensures Ids(rs + [r]) == Ids(rs) + {r.commandId}
  {
    assert r in rs + [r];
    forall id | id in Ids(rs) ensures id in Ids(rs + [r]) {
      var x :| x in rs && x.commandId == id;
      assert x in rs + [r];
    }
  }

  /** What is kept are pending records without receipts, in dependency order. */
  lemma KeepingMembers(pending: seq<Interaction>, log: seq<Interaction>, receipts: map<string, Reply>,
                       unvouched: set<string>)
    requires Recoverable(pending, log, receipts)
    ensures Keeping(pending, receipts, unvouched).Some?
    ensures var order := Keeping(pending, receipts, unvouched).value;
            && UniqueIds(order) && Topological(order) && Ids(order) !! receipts.Keys
            && forall x | x in order :: x in pending
  {
    var open := Drop(pending, receipts.Keys);
    DropMembers(pending, receipts.Keys);
    AcyclicDrop(pending, receipts.Keys);
    OrderSpecification(open);
    var order := Ordered(open).value;
    var gone := Refused(pending, receipts, RefusedFirst(pending, receipts, unvouched));
    UniqueByIds(open, order);
    forall x | x in order ensures x in open {
      assert x in multiset(order);
    }
    DropMembers(order, gone);
  }

  lemma {:induction false} RebasedKeys(cs: seq<EntityChange>, sources: seq<Interaction>)
    requires UniqueKeys(cs)
    ensures UniqueKeys(RebasedChanges(cs, sources))
  {
    var rs := RebasedChanges(cs, sources);
    forall i | 0 <= i < |cs| ensures rs[i].key == cs[i].key {
      RebaseKeepsIntent(cs[i], ChangesOf(On(sources, cs[i].key), cs[i].key), "");
    }
  }

  /** A plan can be carried out: what it confirms and keeps fits the journal it was made from. */
  lemma PlanRetains(pending: seq<Interaction>, log: seq<Interaction>, receipts: map<string, Reply>,
                    unvouched: set<string>)
    requires Recoverable(pending, log, receipts) && PlanOf(pending, log, receipts, unvouched).Some?
    ensures var plan := PlanOf(pending, log, receipts, unvouched).value;
            Retains(pending, log, plan.confirmed, plan.kept)
  {
    var order := Keeping(pending, receipts, unvouched).value;
    var confirmed, kept := Confirming(pending, receipts),
        Retain(order, pending, log, Confirming(pending, receipts)).value;
    KeepingMembers(pending, log, receipts, unvouched);
    ConfirmedMembers(pending, receipts);
    ConcatUnique(log, confirmed);
    KeptIds(order, pending, log, confirmed);
    KeptRecords(order, pending, log, confirmed);
    forall id | id in Ids(order) ensures id in Ids(pending) {
      var x :| x in order && x.commandId == id;
      assert x in pending;
    }
  }

  lemma KeptRecords(order: seq<Interaction>, pending: seq<Interaction>, log: seq<Interaction>,
                    confirmed: seq<Interaction>)
    requires Retain(order, pending, log, confirmed).Some?
    requires forall p | p in order :: Unsettled(p.state) && UniqueKeys(p.changes)
    ensures forall p | p in Retain(order, pending, log, confirmed).value :: Unsettled(p.state) && UniqueKeys(p.changes)
  {
    var kept := Retain(order, pending, log, confirmed).value;
    forall p | p in kept ensures Unsettled(p.state) && UniqueKeys(p.changes) {
      var i :| 0 <= i < |kept| && kept[i] == p;
      RetainAlike(order, pending, log, confirmed, i);
      assert order[i] in order;
      var sources := Sources(order[i], pending, log, confirmed, kept[..i]);
      if !Creates(order[i]) {
        RebasedKeys(order[i].changes, Ordered(sources).value);
      }
    }
  }

  method MakePlan(pending: seq<Interaction>, log: seq<Interaction>, receipts: map<string, Reply>,
                  unvouched: set<string>)
    returns (plan: Option<Plan>)
    requires Recoverable(pending, log, receipts)
    ensures plan == PlanOf(pending, log, receipts, unvouched)
  {
    var confirmed := ConfirmFound(pending, receipts);
    var refused := FindRefused(pending, receipts, RefusedFirst(pending, receipts, unvouched));
    KeepingMembers(pending, log, receipts, unvouched);
    DropMembers(pending, receipts.Keys);
    var order := OrderInteractions(Drop(pending, receipts.Keys));
    ConfirmedMembers(pending, receipts);
    ConcatUnique(log, confirmed);
    KeptFromPending(Drop(order.value, refused), pending);
    var kept := RetainInOrder(Drop(order.value, refused), pending, log, confirmed);
    if kept.None? {
      return None;
    }
    return Some(Plan(confirmed, kept.value));
  }

  lemma KeptFromPending(order: seq<Interaction>, pending: seq<Interaction>)
    requires forall x | x in order :: x in pending
    ensures Ids(order) <= Ids(pending)
  {}

  // ---------------------------------------------------------------------------------------
  // What a plan is, record by record
  // ---------------------------------------------------------------------------------------

  /** A chain of n pending records leads from the record up to the identifier. */
  ghost predicate LeadsUp(pending: seq<Interaction>, p: Interaction, id: string, n: nat)
    decreases n
  {
    if n == 0 then id in p.predecessors
    else exists y :: y in pending && id in y.predecessors && LeadsUp(pending, p, y.commandId, n - 1)
  }

  ghost predicate StandsOn(pending: seq<Interaction>, p: Interaction, id: string) {
    exists n: nat :: LeadsUp(pending, p, id, n)
  }

  lemma {:induction false} StoodOnIsAncestor(pending: seq<Interaction>, p: Interaction, id: string, n: nat)
    requires LeadsUp(pending, p, id, n)
    ensures id in Ancestors(pending, p.predecessors)
    decreases n
  {
    var all := Ancestors(pending, p.predecessors);
    AncestorsAreLeast(pending, p.predecessors, all);
    if n > 0 {
      var y :| y in pending && id in y.predecessors && LeadsUp(pending, p, y.commandId, n - 1);
      StoodOnIsAncestor(pending, p, y.commandId, n - 1);
      assert id in Above(pending, all);
    }
  }

  /** The ancestors are what some chain leads up to. */
  lemma AncestorsAreStoodOn(pending: seq<Interaction>, p: Interaction, id: string)
    ensures id in Ancestors(pending, p.predecessors) <==> StandsOn(pending, p, id)
  {
    var named := p.predecessors + Named(pending);
    ghost var up := set x | x in named && StandsOn(pending, p, x);
    forall x | x in p.predecessors ensures x in up {
      assert LeadsUp(pending, p, x, 0);
    }
    forall x | x in Above(pending, up) ensures x in up {
      var y :| y in pending && y.commandId in up && x in y.predecessors;
      var n: nat :| LeadsUp(pending, p, y.commandId, n);
      assert LeadsUp(pending, p, x, n + 1);
    }
    assert p.predecessors <= up && ClosedUpward(pending, up);
    AncestorsAreLeast(pending, p.predecessors, up);
    if StandsOn(pending, p, id) {
      var n: nat :| LeadsUp(pending, p, id, n);
      StoodOnIsAncestor(pending, p, id, n);
    }
  }

  /** The sources, oldest first: exactly the records of these that the record stands on, in dependency order. */
  ghost predicate SourcesOf(o: seq<Interaction>, p: Interaction, pending: seq<Interaction>, log: seq<Interaction>,
                            confirmed: seq<Interaction>, earlier: seq<Interaction>)
  {
    && UniqueIds(o) && Topological(o)
    && forall x :: x in o <==> (x in log || x in confirmed || x in earlier)
                               && StandsOn(pending, p, x.commandId)
  }

  /** The same command, each change moved over the changes of its entity that the sources carry. */
  ghost predicate RebasedOver(k: Interaction, p: Interaction, o: seq<Interaction>) {
    && k == p.(changes := k.changes) && |k.changes| == |p.changes|
    && forall i | 0 <= i < |p.changes| ::
         k.changes[i] == Rebase(p.changes[i], ChangesOf(On(o, p.changes[i].key), p.changes[i].key))
  }

  lemma SourcesMembers(p: Interaction, pending: seq<Interaction>, log: seq<Interaction>, confirmed: seq<Interaction>,
                       kept: seq<Interaction>, x: Interaction)
    ensures x in Sources(p, pending, log, confirmed, kept) <==>
              (x in log || x in confirmed || x in kept) && StandsOn(pending, p, x.commandId)
  {
    var ids := Ancestors(pending, p.predecessors);
    AncestorsAreStoodOn(pending, p, x.commandId);
    PickMembers(confirmed, ids);
    PickMembers(log, ids);
    PickMembers(kept, ids);
  }

  lemma OrderedSources(p: Interaction, pending: seq<Interaction>, log: seq<Interaction>, confirmed: seq<Interaction>,
                       kept: seq<Interaction>)
    requires UniqueIds(Sources(p, pending, log, confirmed, kept))
    requires Ordered(Sources(p, pending, log, confirmed, kept)).Some?
    ensures SourcesOf(Ordered(Sources(p, pending, log, confirmed, kept)).value, p, pending, log, confirmed, kept)
  {
    var sources := Sources(p, pending, log, confirmed, kept);
    var o := Ordered(sources).value;
    OrderSpecification(sources);
    UniqueByIds(sources, o);
    forall x ensures x in o <==> (x in log || x in confirmed || x in kept)
                                 && StandsOn(pending, p, x.commandId)
    {
      assert x in multiset(o) <==> x in multiset(sources);
      SourcesMembers(p, pending, log, confirmed, kept, x);
    }
  }

  /** What becomes of a record that is kept. */
  ghost predicate KeptFrom(k: Interaction, p: Interaction, pending: seq<Interaction>, log: seq<Interaction>,
                           confirmed: seq<Interaction>, earlier: seq<Interaction>)
  {
    if forall c | c in p.changes :: c.before == None then k == p
    else exists o :: SourcesOf(o, p, pending, log, confirmed, earlier) && RebasedOver(k, p, o)
  }

  /** Every kept record is rebased over exactly the confirmed records, in the log or newly confirmed, and the
      records kept before it that a chain of pending records leads up to, oldest first; one that only creates
      is kept as it is. */
  lemma KeptIsRebased(order: seq<Interaction>, pending: seq<Interaction>, log: seq<Interaction>,
                      confirmed: seq<Interaction>, n: nat)
    requires UniqueIds(order) && UniqueIds(log + confirmed) && Ids(order) !! Ids(log + confirmed)
    requires Retain(order, pending, log, confirmed).Some? && n < |order|
    ensures var kept := Retain(order, pending, log, confirmed).value;
            KeptFrom(kept[n], order[n], pending, log, confirmed, kept[..n])
  {
    var kept := Retain(order, pending, log, confirmed).value;
    RetainAlike(order, pending, log, confirmed, n);
    SourcesUnique(order[..n], pending, log, confirmed, kept[..n], Ancestors(pending, order[n].predecessors));
    KeptBySources(kept[n], order[n], pending, log, confirmed, kept[..n]);
  }

  lemma KeptBySources(k: Interaction, p: Interaction, pending: seq<Interaction>, log: seq<Interaction>,
                      confirmed: seq<Interaction>, earlier: seq<Interaction>)
    requires UniqueIds(Sources(p, pending, log, confirmed, earlier))
    requires RebasedRecord(p, Sources(p, pending, log, confirmed, earlier)) == Some(k)
    ensures KeptFrom(k, p, pending, log, confirmed, earlier)
  {
    if !Creates(p) {
      RebasedOverSources(k, p, pending, log, confirmed, earlier);
    }
  }

  lemma RebasedOverSources(k: Interaction, p: Interaction, pending: seq<Interaction>, log: seq<Interaction>,
                           confirmed: seq<Interaction>, earlier: seq<Interaction>)
    requires UniqueIds(Sources(p, pending, log, confirmed, earlier)) && !Creates(p)
    requires RebasedRecord(p, Sources(p, pending, log, confirmed, earlier)) == Some(k)
    ensures exists o :: SourcesOf(o, p, pending, log, confirmed, earlier) && RebasedOver(k, p, o)
  {
    OrderedSources(p, pending, log, confirmed, earlier);
    var o := Ordered(Sources(p, pending, log, confirmed, earlier)).value;
    assert RebasedOver(k, p, o);
  }

  lemma KeptExactly(pending: seq<Interaction>, log: seq<Interaction>, receipts: map<string, Reply>,
                    unvouched: set<string>, refused: set<string>)
    requires Recoverable(pending, log, receipts)
    requires Refused(pending, receipts, RefusedFirst(pending, receipts, unvouched)) == refused
    ensures Keeping(pending, receipts, unvouched).Some?
    ensures forall p :: p in Keeping(pending, receipts, unvouched).value
                        <==> p in pending && p.commandId !in receipts && p.commandId !in refused
  {
    var open := Drop(pending, receipts.Keys);
    KeepingMembers(pending, log, receipts, unvouched);
    DropMembers(pending, receipts.Keys);
    OrderSpecification(open);
    var order := Ordered(open).value;
    forall x ensures x in order <==> x in open {
      assert x in multiset(order) <==> x in multiset(open);
    }
    DropMembers(order, refused);
  }

  /** A chain of n records without receipts leads from the command down to one that the read does not vouch
      for or whose withdrawal is unfinished. */
  ghost predicate FallsVia(pending: seq<Interaction>, receipts: map<string, Reply>, unvouched: set<string>, id: string,
                           n: nat)
    decreases n
  {
    && id !in receipts
    && exists p | p in pending && p.commandId == id ::
         if n == 0 then id in unvouched || p.state == RollbackPending
         else exists q :: q in p.predecessors && FallsVia(pending, receipts, unvouched, q, n - 1)
  }

  ghost predicate Falls(pending: seq<Interaction>, receipts: map<string, Reply>, unvouched: set<string>, id: string) {
    exists n: nat :: FallsVia(pending, receipts, unvouched, id, n)
  }

  lemma {:induction false} FallenIsRefused(pending: seq<Interaction>, receipts: map<string, Reply>,
                                           unvouched: set<string>, id: string, n: nat)
    requires FallsVia(pending, receipts, unvouched, id, n)
    ensures id in Refused(pending, receipts, RefusedFirst(pending, receipts, unvouched))
    decreases n
  {
    var first := RefusedFirst(pending, receipts, unvouched);
    var all := Refused(pending, receipts, first);
    RefusedIsLeast(pending, receipts, first, all);
    var p :| p in pending && p.commandId == id
             && if n == 0 then id in unvouched || p.state == RollbackPending
                else exists q :: q in p.predecessors && FallsVia(pending, receipts, unvouched, q, n - 1);
    if n > 0 {
      var q :| q in p.predecessors && FallsVia(pending, receipts, unvouched, q, n - 1);
      FallenIsRefused(pending, receipts, unvouched, q, n - 1);
      assert q in p.predecessors * all;
      assert id in Behind(pending, receipts, all);
    } else {
      assert id in first;
    }
  }

  /** The refused are those that fall. */
  lemma RefusedFall(pending: seq<Interaction>, receipts: map<string, Reply>, unvouched: set<string>, id: string)
    ensures id in Refused(pending, receipts, RefusedFirst(pending, receipts, unvouched))
            <==> Falls(pending, receipts, unvouched, id)
  {
    var first := RefusedFirst(pending, receipts, unvouched);
    ghost var down := set x | x in Ids(pending) && Falls(pending, receipts, unvouched, x);
    forall x | x in first ensures x in down {
      assert FallsVia(pending, receipts, unvouched, x, 0);
    }
    forall x | x in Behind(pending, receipts, down) ensures x in down {
      var p :| p in pending && p.commandId == x && x !in receipts && p.predecessors * down != {};
      var q :| q in p.predecessors * down;
      var n: nat :| FallsVia(pending, receipts, unvouched, q, n);
      assert q in p.predecessors;
      assert FallsVia(pending, receipts, unvouched, x, n + 1);
    }
    assert first <= down && Behind(pending, receipts, down) <= down;
    RefusedIsLeast(pending, receipts, first, down);
    if Falls(pending, receipts, unvouched, id) {
      var n: nat :| FallsVia(pending, receipts, unvouched, id, n);
      FallenIsRefused(pending, receipts, unvouched, id, n);
    }
  }

  /** A plan confirms exactly the pending commands that have receipts, with their receipts' changes; it keeps,
      in dependency order, exactly the others that do not fall; and each that it keeps is rebased over exactly
      the confirmed commands, in the log or newly so, and the commands kept before it that it stands on. */
  lemma PlanRecords(pending: seq<Interaction>, log: seq<Interaction>, receipts: map<string, Reply>,
                    unvouched: set<string>)
    requires Recoverable(pending, log, receipts) && PlanOf(pending, log, receipts, unvouched).Some?
    ensures var plan := PlanOf(pending, log, receipts, unvouched).value;
            && (forall x :: x in plan.confirmed <==>
                  exists p | p in pending :: p.commandId in receipts
                    && x == p.(changes := receipts[p.commandId].changes, state := Confirmed))
            && UniqueIds(plan.kept) && Topological(plan.kept)
            && (forall p | p in pending :: p.commandId in Ids(plan.kept) <==>
                  p.commandId !in receipts && !Falls(pending, receipts, unvouched, p.commandId))
            && (forall n | 0 <= n < |plan.kept| ::
                  exists p | p in pending :: p.commandId == plan.kept[n].commandId
                    && KeptFrom(plan.kept[n], p, pending, log, plan.confirmed, plan.kept[..n]))
  {
    var order := Keeping(pending, receipts, unvouched).value;
    var confirmed := Confirming(pending, receipts);
    var kept := Retain(order, pending, log, confirmed).value;
    var refused := Refused(pending, receipts, RefusedFirst(pending, receipts, unvouched));
    KeepingMembers(pending, log, receipts, unvouched);
    KeptExactly(pending, log, receipts, unvouched, refused);
    ConfirmedMembers(pending, receipts);
    ConcatUnique(log, confirmed);
    KeptIds(order, pending, log, confirmed);
    forall x
      ensures x in confirmed <==>
                exists p | p in pending :: p.commandId in receipts
                  && x == p.(changes := receipts[p.commandId].changes, state := Confirmed)
    {
      ConfirmedExactly(pending, receipts, x);
    }
    forall p | p in pending
      ensures p.commandId in Ids(kept) <==>
                p.commandId !in receipts && !Falls(pending, receipts, unvouched, p.commandId)
    {
      RefusedFall(pending, receipts, unvouched, p.commandId);
      OnlyOne(pending, order, p);
    }
    forall id | id in Ids(order) ensures id !in Ids(log + confirmed) {
      var x :| x in order && x.commandId == id;
      assert id in Ids(pending) && id !in receipts;
    }
    forall n | 0 <= n < |kept|
      ensures exists p | p in pending :: p.commandId == kept[n].commandId
                && KeptFrom(kept[n], p, pending, log, confirmed, kept[..n])
    {
      KeptIsRebased(order, pending, log, confirmed, n);
      RetainAlike(order, pending, log, confirmed, n);
      assert order[n] in order && KeptFrom(kept[n], order[n], pending, log, confirmed, kept[..n]);
    }
  }

  /** The sources of a record can be put in order if the whole journal can. */
  lemma SourcesHaveOrder(init: seq<Interaction>, pending: seq<Interaction>, log: seq<Interaction>,
                         confirmed: seq<Interaction>, kept: seq<Interaction>, p: Interaction)
    requires UniqueIds(init) && UniqueIds(log + confirmed) && Ids(init) !! Ids(log + confirmed)
    requires Acyclic(log + pending) && (forall x | x in init :: x in pending)
    requires forall c | c in confirmed :: LinkedIn(c, pending)
    requires Retain(init, pending, log, confirmed) == Some(kept)
    ensures Ordered(Sources(p, pending, log, confirmed, kept)).Some?
  {
    var sources := Sources(p, pending, log, confirmed, kept);
    SourcesUnique(init, pending, log, confirmed, kept, Ancestors(pending, p.predecessors));
    forall x | x in sources ensures LinkedIn(x, log + pending) {
      SourcesMembers(p, pending, log, confirmed, kept, x);
      if x in log {
        assert x in log + pending && Ties(x) == Ties(x);
      } else if x in confirmed {
        var y :| y in pending && Ties(y) == Ties(x);
        assert y in log + pending;
      } else {
        var i :| 0 <= i < |kept| && kept[i] == x;
        RetainAlike(init, pending, log, confirmed, i);
        assert init[i] in init && init[i] in log + pending && Ties(init[i]) == Ties(x);
      }
    }
    AcyclicAlike(sources, log + pending);
    OrderSpecification(sources);
  }

  lemma {:induction false} RetainExists(order: seq<Interaction>, pending: seq<Interaction>, log: seq<Interaction>,
                                        confirmed: seq<Interaction>)
    requires UniqueIds(order) && UniqueIds(log + confirmed) && Ids(order) !! Ids(log + confirmed)
    requires forall x | x in order :: x in pending
    requires forall c | c in confirmed :: LinkedIn(c, pending)
    requires Acyclic(log + pending) || forall p, c | p in pending && c in p.changes :: c.before == None
    ensures Retain(order, pending, log, confirmed).Some?
    decreases |order|
  {
    if order != [] {
      var init, last := order[..|order| - 1], order[|order| - 1];
      assert last in order && forall x | x in init :: x in order;
      assert Ids(init) <= Ids(order);
      RetainExists(init, pending, log, confirmed);
      if !Creates(last) {
        SourcesHaveOrder(init, pending, log, confirmed, Retain(init, pending, log, confirmed).value, last);
      }
    }
  }

  /** A plan is made whenever the journal has no cycle, or no pending command does anything but create. */
  lemma PlanExists(pending: seq<Interaction>, log: seq<Interaction>, receipts: map<string, Reply>,
                   unvouched: set<string>)
    requires Recoverable(pending, log, receipts)
    requires Acyclic(log + pending) || forall p, c | p in pending && c in p.changes :: c.before == None
    ensures PlanOf(pending, log, receipts, unvouched).Some?
  {
    var confirmed := Confirming(pending, receipts);
    KeepingMembers(pending, log, receipts, unvouched);
    ConfirmedMembers(pending, receipts);
    ConcatUnique(log, confirmed);
    var order := Keeping(pending, receipts, unvouched).value;
    KeptFromPending(order, pending);
    ConfirmedLinked(pending, receipts);
    assert Ids(order) !! Ids(log + confirmed);
    RetainExists(order, pending, log, confirmed);
  }

  lemma ConfirmedLinked(pending: seq<Interaction>, receipts: map<string, Reply>)
    ensures forall c | c in Confirming(pending, receipts) :: LinkedIn(c, pending)
  {
    forall c | c in Confirming(pending, receipts) ensures LinkedIn(c, pending) {
      ConfirmedExactly(pending, receipts, c);
      var p :| p in pending && p.commandId in receipts
               && c == p.(changes := receipts[p.commandId].changes, state := Confirmed);
      assert Ties(p) == Ties(c);
    }
  }

  lemma OnlyOne(pending: seq<Interaction>, order: seq<Interaction>, p: Interaction)
    requires UniqueIds(pending) && p in pending && forall x | x in order :: x in pending
    ensures p.commandId in Ids(order) <==> p in order
  {}

  lemma {:induction false} ConfirmedExactly(pending: seq<Interaction>, receipts: map<string, Reply>, x: Interaction)
    ensures x in Confirming(pending, receipts) <==>
              exists p | p in pending :: p.commandId in receipts
                && x == p.(changes := receipts[p.commandId].changes, state := Confirmed)
    decreases |pending|
  {
    if pending != [] {
      var init, last := pending[..|pending| - 1], pending[|pending| - 1];
      assert pending == init + [last];
      ConfirmedExactly(init, receipts, x);
    }
  }
}
