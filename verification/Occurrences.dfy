/**
 Schedule occurrences as version chains: superseding appends the next version and links it both
 ways, and importing a workbook again changes only chains that a workbook owns.
 */
module Occurrences {
  import opened Wrappers

  /** Identifiers of versions made here, and identifiers brought along from elsewhere. */
  datatype NodeId = Versioned(occurrence: string, version: nat) | Named(text: string)

  datatype State = Scheduled | Completed | Cancelled(at: string) | Superseded

  /** Where a version's facts come from; an import that clears a deadline signs the version it makes. */
  datatype Ref = Source(text: string) | Cleared(occurrence: string, version: nat, at: string)

  datatype Node = Node(
    id: NodeId,
    occurrence: string,
    version: nat,
    state: State,
    temporal: string,
    legacy: bool,
    refs: set<Ref>,
    supersedes: Option<NodeId>,
    supersededBy: Option<NodeId>)

  datatype Draft = Draft(occurrence: string, state: State, temporal: string, legacy: bool, refs: set<Ref>)

  predicate Terminal(s: State) {
    s.Completed? || s.Cancelled? || s.Superseded?
  }

  // ---------------------------------------------------------------------------------------
  // Superseding
  // ---------------------------------------------------------------------------------------

  /** The version with the highest number. */
  function Latest(nodes: seq<Node>, occurrence: string): (r: Option<Node>)
    ensures r.None? ==> forall n | n in nodes :: n.occurrence != occurrence
    ensures r.Some? ==> r.value in nodes && r.value.occurrence == occurrence
                        && forall n | n in nodes && n.occurrence == occurrence :: n.version <= r.value.version
  {
    if nodes == [] then None
    else
      var rest, last := Latest(nodes[..|nodes| - 1], occurrence), nodes[|nodes| - 1];
      assert nodes == nodes[..|nodes| - 1] + [last];
      if last.occurrence == occurrence && (rest.None? || last.version > rest.value.version) then Some(last) else rest
  }

  function Closed(n: Node, successor: NodeId): Node {
    n.(state := Superseded, supersededBy := Some(successor))
  }

  function Closing(nodes: seq<Node>, id: NodeId, successor: NodeId): (r: seq<Node>)
    ensures |r| == |nodes| && forall i | 0 <= i < |nodes| ::
              r[i] == if nodes[i].id == id then Closed(nodes[i], successor) else nodes[i]
  {
    seq(|nodes|, i requires 0 <= i < |nodes| => if nodes[i].id == id then Closed(nodes[i], successor) else nodes[i])
  }

  function NextVersion(nodes: seq<Node>, d: Draft): Node {
    var current := Latest(nodes, d.occurrence);
    var version := if current.Some? then current.value.version + 1 else 1;
    Node(Versioned(d.occurrence, version), d.occurrence, version, d.state, d.temporal, d.legacy, d.refs,
         if current.Some? then Some(current.value.id) else None, None)
  }

  /** Closes the version that the next one supersedes and adds the next one at the end. */
  function Appending(nodes: seq<Node>, next: Node): seq<Node> {
    (match next.supersedes case Some(id) => Closing(nodes, id, next.id) case None => nodes) + [next]
  }

  function Superseding(nodes: seq<Node>, d: Draft): seq<Node> {
    Appending(nodes, NextVersion(nodes, d))
  }

  /** Identifiers are unique, and one made here tells its occurrence and version. */
  ghost predicate WellNamed(nodes: seq<Node>) {
    && (forall i, j | 0 <= i < j < |nodes| :: nodes[i].id != nodes[j].id)
    && forall n | n in nodes && n.id.Versioned? :: n.id.occurrence == n.occurrence && n.id.version == n.version
  }

  ghost predicate DistinctVersions(nodes: seq<Node>) {
    forall m, n | m in nodes && n in nodes && m.occurrence == n.occurrence && m.version == n.version :: m == n
  }

  /** Every link resolves, and its two ends agree one version apart. */
  ghost predicate Linked(nodes: seq<Node>) {
    && (forall n | n in nodes && n.supersededBy.Some? ::
          n.state == Superseded && exists m | m in nodes :: Follows(m, n))
    && (forall m | m in nodes && m.supersedes.Some? :: exists n | n in nodes :: Follows(m, n))
  }

  /** An import signs no version that does not exist yet. */
  predicate Signed(n: Node) {
    forall c | c in n.refs && c.Cleared? && c.occurrence == n.occurrence :: c.version <= n.version
  }

  ghost predicate Chains(nodes: seq<Node>) {
    WellNamed(nodes) && DistinctVersions(nodes) && Linked(nodes) && forall n | n in nodes :: Signed(n)
  }

  /** m is the version right after n, and both say so. */
  predicate Follows(m: Node, n: Node) {
    && m.occurrence == n.occurrence && m.version == n.version + 1
    && m.supersedes == Some(n.id) && n.supersededBy == Some(m.id)
  }

  lemma LinkStep(nodes: seq<Node>, n: Node, m: Node)
    requires Chains(nodes) && n in nodes && m in nodes && n.supersededBy == Some(m.id)
    ensures Follows(m, n)
  {
    var k :| k in nodes && Follows(k, n);
    var i :| 0 <= i < |nodes| && nodes[i] == k;
    var j :| 0 <= j < |nodes| && nodes[j] == m;
  }

  /** A link always leads to the next version of the same occurrence, so no chain comes back. */
  lemma {:induction false} ChainsAreAcyclic(nodes: seq<Node>, path: seq<Node>)
    requires Chains(nodes) && |path| > 1 && forall i | 0 <= i < |path| :: path[i] in nodes
    requires forall i | 0 <= i < |path| - 1 :: path[i].supersededBy == Some(path[i + 1].id)
    ensures path[0].version + |path| - 1 == path[|path| - 1].version && path[0] != path[|path| - 1]
    decreases |path|
  {
    LinkStep(nodes, path[0], path[1]);
    if |path| > 2 {
      ChainsAreAcyclic(nodes, path[1..]);
    }
  }

  /** The latest version is not superseded. */
  lemma LatestIsOpen(nodes: seq<Node>, occurrence: string)
    requires Chains(nodes)
    ensures Latest(nodes, occurrence).Some? ==> Latest(nodes, occurrence).value.supersededBy.None?
  {}

  /** What superseding does: the latest version is closed and linked to a new last one; nothing else
      changes, and no version's time or evidence is altered. */
  lemma SupersedingKeepsHistory(nodes: seq<Node>, d: Draft)
    ensures var after := Superseding(nodes, d);
            && |after| == |nodes| + 1
            && forall i | 0 <= i < |nodes| ::
                 && after[i].id == nodes[i].id && after[i].temporal == nodes[i].temporal
                 && after[i].refs == nodes[i].refs
                 && after[i].version == nodes[i].version && after[i].occurrence == nodes[i].occurrence
                 && after[i].supersedes == nodes[i].supersedes
                 && (after[i] != nodes[i] ==>
                       && Latest(nodes, d.occurrence).Some? && nodes[i].id == Latest(nodes, d.occurrence).value.id
                       && after[i] == Closed(nodes[i], after[|nodes|].id))
  {}

  predicate Drafted(nodes: seq<Node>, d: Draft) {
    Signed(NextVersion(nodes, d))
  }

  lemma NextIsNew(nodes: seq<Node>, d: Draft)
    requires Chains(nodes)
    ensures forall n | n in nodes :: n.id != NextVersion(nodes, d).id
    ensures forall n | n in nodes && n.occurrence == d.occurrence :: n.version < NextVersion(nodes, d).version
  {}

  /** One earlier version after superseding. */
  lemma EarlierAt(nodes: seq<Node>, d: Draft, i: nat)
    requires i < |nodes|
    ensures var a, next := Superseding(nodes, d)[i], NextVersion(nodes, d);
            && nodes[i] in nodes && a in Superseding(nodes, d)
            && a == if next.supersedes == Some(nodes[i].id) then Closed(nodes[i], next.id) else nodes[i]
  {
    assert Superseding(nodes, d)[i] in Superseding(nodes, d);
  }

  lemma SameVersion(nodes: seq<Node>, d: Draft, x: Node, y: Node)
    requires Chains(nodes) && x in Superseding(nodes, d) && y in Superseding(nodes, d)
    requires x.occurrence == y.occurrence && x.version == y.version
    ensures x == y
  {
    var after, n := Superseding(nodes, d), |nodes|;
    NextIsNew(nodes, d);
    var i :| 0 <= i < |after| && after[i] == x;
    var j :| 0 <= j < |after| && after[j] == y;
    if i < n { EarlierAt(nodes, d, i); }
    if j < n { EarlierAt(nodes, d, j); }
  }

  lemma LinkKept(nodes: seq<Node>, d: Draft, x: Node)
    requires Chains(nodes) && x in Superseding(nodes, d) && x.supersededBy.Some?
    requires Latest(nodes, d.occurrence).Some? ==> Latest(nodes, d.occurrence).value.supersededBy.None?
    ensures x.state == Superseded && exists m | m in Superseding(nodes, d) :: Follows(m, x)
  {
    var after, next := Superseding(nodes, d), NextVersion(nodes, d);
    var i :| 0 <= i < |after| && after[i] == x;
    assert after[|nodes|] == next && next in after;
    EarlierAt(nodes, d, i);
    if next.supersedes == Some(nodes[i].id) {
      SameIdSameNode(nodes, nodes[i], Latest(nodes, d.occurrence).value);
      assert Follows(next, x);
    } else {
      var m :| m in nodes && Follows(m, nodes[i]);
      var k :| 0 <= k < |nodes| && nodes[k] == m;
      EarlierAt(nodes, d, k);
      assert Follows(after[k], x);
    }
  }

  lemma BackLinkKept(nodes: seq<Node>, d: Draft, m: Node)
    requires Chains(nodes) && m in Superseding(nodes, d) && m.supersedes.Some?
    requires Latest(nodes, d.occurrence).Some? ==> Latest(nodes, d.occurrence).value.supersededBy.None?
    ensures exists x | x in Superseding(nodes, d) :: Follows(m, x)
  {
    var after := Superseding(nodes, d);
    var i :| 0 <= i < |after| && after[i] == m;
    if i == |nodes| {
      var k :| 0 <= k < |nodes| && nodes[k] == Latest(nodes, d.occurrence).value;
      EarlierAt(nodes, d, k);
      assert Follows(m, after[k]);
    } else {
      EarlierAt(nodes, d, i);
      var n :| n in nodes && Follows(nodes[i], n);
      var k :| 0 <= k < |nodes| && nodes[k] == n;
      EarlierAt(nodes, d, k);
      EarlierFollows(nodes, d, i, k);
    }
  }

  /** A link between earlier versions is untouched. */
  lemma EarlierFollows(nodes: seq<Node>, d: Draft, i: nat, k: nat)
    requires WellNamed(nodes) && i < |nodes| && k < |nodes| && Follows(nodes[i], nodes[k])
    requires Latest(nodes, d.occurrence).Some? ==> Latest(nodes, d.occurrence).value.supersededBy.None?
    ensures Follows(Superseding(nodes, d)[i], Superseding(nodes, d)[k])
  {
    EarlierAt(nodes, d, i);
    EarlierAt(nodes, d, k);
    if NextVersion(nodes, d).supersedes.Some? {
      SameIdSameNode(nodes, nodes[k], Latest(nodes, d.occurrence).value);
    }
  }

  lemma SameIdSameNode(nodes: seq<Node>, m: Node, n: Node)
    requires WellNamed(nodes) && m in nodes && n in nodes
    ensures m.id == n.id ==> m == n
  {
    var i :| 0 <= i < |nodes| && nodes[i] == m;
    var j :| 0 <= j < |nodes| && nodes[j] == n;
  }

  lemma NamesKept(nodes: seq<Node>, d: Draft)
    requires Chains(nodes) && Drafted(nodes, d)
    ensures WellNamed(Superseding(nodes, d)) && forall n | n in Superseding(nodes, d) :: Signed(n)
  {
    var after := Superseding(nodes, d);
    NextIsNew(nodes, d);
    forall i, j | 0 <= i < j < |after| ensures after[i].id != after[j].id {
      EarlierAt(nodes, d, i);
      if j < |nodes| { EarlierAt(nodes, d, j); }
    }
    forall n | n in after
      ensures Signed(n) && (n.id.Versioned? ==> n.id.occurrence == n.occurrence && n.id.version == n.version)
    {
      var i :| 0 <= i < |after| && after[i] == n;
      if i < |nodes| {
        EarlierAt(nodes, d, i);
        assert Signed(nodes[i]);
      }
    }
  }

  /** Superseding keeps every chain a chain. */
  lemma SupersedingKeepsChains(nodes: seq<Node>, d: Draft)
    requires Chains(nodes) && Drafted(nodes, d)
    ensures Chains(Superseding(nodes, d))
  {
    var after := Superseding(nodes, d);
    NamesKept(nodes, d);
    LatestIsOpen(nodes, d.occurrence);
    forall x, y | x in after && y in after && x.occurrence == y.occurrence && x.version == y.version ensures x == y {
      SameVersion(nodes, d, x, y);
    }
    forall x | x in after && x.supersededBy.Some?
      ensures x.state == Superseded && exists m | m in after :: Follows(m, x)
    {
      LinkKept(nodes, d, x);
    }
    forall m | m in after && m.supersedes.Some? ensures exists x | x in after :: Follows(m, x) {
      BackLinkKept(nodes, d, m);
    }
  }

  // ---------------------------------------------------------------------------------------
  // Importing a workbook again
  // ---------------------------------------------------------------------------------------

  /** What a workbook says about occurrences: a time for some, an explicitly emptied time for others. */
  datatype Bundle = Bundle(incoming: map<string, Draft>, cleared: set<string>, importedAt: string)

  predicate ValidBundle(b: Bundle) {
    forall o | o in b.incoming ::
      && b.incoming[o].occurrence == o && b.incoming[o].legacy && !b.incoming[o].state.Superseded?
      && forall c | c in b.incoming[o].refs :: c.Source?
  }

  /** The version was cancelled by an import, which signed it, and not by the user. */
  predicate ImportWithdrawal(n: Node) {
    n.state.Cancelled? && Cleared(n.occurrence, n.version, n.state.at) in n.refs
  }

  /** The new version that the workbook makes of an occurrence, if any, given its latest version. */
  function Plan(prior: Node, b: Bundle): Option<Draft> {
    if !prior.legacy then None
    else if prior.occurrence in b.incoming then
      var d := b.incoming[prior.occurrence];
      if (Terminal(prior.state) && !ImportWithdrawal(prior))
        || (!ImportWithdrawal(prior) && prior.temporal == d.temporal) then None
      else Some(d.(refs := prior.refs + d.refs))
    else if prior.occurrence in b.cleared && !Terminal(prior.state) then
      Some(Draft(prior.occurrence, Cancelled(b.importedAt), prior.temporal, true,
                 prior.refs + {Cleared(prior.occurrence, prior.version + 1, b.importedAt)}))
    else None
  }

  function PlanFor(nodes: seq<Node>, occurrence: string, b: Bundle): Option<Draft> {
    var prior := Latest(nodes, occurrence);
    if prior.Some? then Plan(prior.value, b) else None
  }

  /** The versions of one occurrence, in stored order. */
  function ChainOf(nodes: seq<Node>, occurrence: string): seq<Node> {
    if nodes == [] then []
    else ChainOf(nodes[..|nodes| - 1], occurrence)
         + if nodes[|nodes| - 1].occurrence == occurrence then [nodes[|nodes| - 1]] else []
  }

  lemma ChainOfLast(nodes: seq<Node>, n: Node, occurrence: string)
    ensures ChainOf(nodes + [n], occurrence) ==
            if n.occurrence == occurrence then ChainOf(nodes, occurrence) + [n] else ChainOf(nodes, occurrence)
  {
    assert (nodes + [n])[..|nodes|] == nodes;
  }

  lemma LatestLast(nodes: seq<Node>, n: Node, occurrence: string)
    ensures Latest(nodes + [n], occurrence) ==
            if n.occurrence == occurrence && (Latest(nodes, occurrence).None?
                                              || n.version > Latest(nodes, occurrence).value.version)
            then Some(n) else Latest(nodes, occurrence)
  {
    assert (nodes + [n])[..|nodes|] == nodes;
  }

  lemma LatestOfChain(nodes: seq<Node>, occurrence: string)
    ensures Latest(ChainOf(nodes, occurrence), occurrence) == Latest(nodes, occurrence)
  {
    if nodes != [] {
      var init, last := nodes[..|nodes| - 1], nodes[|nodes| - 1];
      LatestOfChain(init, occurrence);
      assert nodes == init + [last];
      ChainOfLast(init, last, occurrence);
      LatestLast(init, last, occurrence);
      LatestLast(ChainOf(init, occurrence), last, occurrence);
    }
  }

  lemma ClosingLast(nodes: seq<Node>, n: Node, id: NodeId, successor: NodeId)
    ensures Closing(nodes + [n], id, successor) == Closing(nodes, id, successor) + [if n.id == id
              then Closed(n, successor) else n]
  {}

  lemma {:induction false} ClosingChain(nodes: seq<Node>, id: NodeId, successor: NodeId, occurrence: string)
    ensures ChainOf(Closing(nodes, id, successor), occurrence) == Closing(ChainOf(nodes, occurrence), id, successor)
    decreases |nodes|
  {
    if nodes != [] {
      var init, last := nodes[..|nodes| - 1], nodes[|nodes| - 1];
      assert nodes == init + [last];
      ClosingChain(init, id, successor, occurrence);
      ClosingLast(init, last, id, successor);
      ChainOfLast(init, last, occurrence);
      ChainOfLast(Closing(init, id, successor), if last.id == id then Closed(last, successor) else last, occurrence);
      ClosingLast(ChainOf(init, occurrence), last, id, successor);
    }
  }

  lemma ClosingNothing(nodes: seq<Node>, id: NodeId, successor: NodeId)
    requires forall n | n in nodes :: n.id != id
    ensures Closing(nodes, id, successor) == nodes
  {
    assert forall i | 0 <= i < |nodes| :: nodes[i] in nodes;
  }

  lemma ChainMembers(nodes: seq<Node>, occurrence: string)
    ensures forall n :: n in ChainOf(nodes, occurrence) <==> n in nodes && n.occurrence == occurrence
  {
    if nodes != [] {
      ChainMembers(nodes[..|nodes| - 1], occurrence);
      assert nodes == nodes[..|nodes| - 1] + [nodes[|nodes| - 1]];
    }
  }

  lemma AppendingOwnChain(nodes: seq<Node>, next: Node)
    ensures ChainOf(Appending(nodes, next), next.occurrence) == Appending(ChainOf(nodes, next.occurrence), next)
  {
    match next.supersedes
    case None => ChainOfLast(nodes, next, next.occurrence);
    case Some(id) =>
      ChainOfLast(Closing(nodes, id, next.id), next, next.occurrence);
      ClosingChain(nodes, id, next.id, next.occurrence);
  }

  lemma NextOfChain(nodes: seq<Node>, d: Draft)
    ensures NextVersion(ChainOf(nodes, d.occurrence), d) == NextVersion(nodes, d)
  {
    LatestOfChain(nodes, d.occurrence);
  }

  lemma SupersedingOwnChain(nodes: seq<Node>, d: Draft)
    ensures ChainOf(Superseding(nodes, d), d.occurrence) == Superseding(ChainOf(nodes, d.occurrence), d)
  {
    NextOfChain(nodes, d);
    AppendingOwnChain(nodes, NextVersion(nodes, d));
  }

  lemma SupersedingOtherChain(nodes: seq<Node>, d: Draft, occurrence: string)
    requires WellNamed(nodes) && occurrence != d.occurrence
    ensures ChainOf(Superseding(nodes, d), occurrence) == ChainOf(nodes, occurrence)
  {
    var next := NextVersion(nodes, d);
    match next.supersedes
    case None => ChainOfLast(nodes, next, occurrence);
    case Some(id) =>
      ChainOfLast(Closing(nodes, id, next.id), next, occurrence);
      ClosingChain(nodes, id, next.id, occurrence);
      ChainMembers(nodes, occurrence);
      forall n | n in ChainOf(nodes, occurrence) ensures n.id != id {
        SameIdSameNode(nodes, n, Latest(nodes, d.occurrence).value);
      }
      ClosingNothing(ChainOf(nodes, occurrence), id, next.id);
  }

  /** Superseding works inside one chain: it supersedes there and leaves every other chain alone. */
  lemma SupersedingOneChain(nodes: seq<Node>, d: Draft, occurrence: string)
    requires Chains(nodes)
    ensures ChainOf(Superseding(nodes, d), occurrence) ==
            if occurrence == d.occurrence then Superseding(ChainOf(nodes, occurrence), d)
              else ChainOf(nodes, occurrence)
  {
    if occurrence == d.occurrence {
      SupersedingOwnChain(nodes, d);
    } else {
      SupersedingOtherChain(nodes, d, occurrence);
    }
  }

  lemma PlanIsDrafted(nodes: seq<Node>, occurrence: string, b: Bundle)
    requires Chains(nodes) && ValidBundle(b) && PlanFor(nodes, occurrence, b).Some?
    ensures PlanFor(nodes, occurrence, b).value.occurrence == occurrence
    ensures Drafted(nodes, PlanFor(nodes, occurrence, b).value)
  {
    var prior := Latest(nodes, occurrence).value;
    assert Signed(prior);
  }

  class Schedule {
    var nodes: seq<Node>

    ghost predicate Valid()
      reads this
    {
      Chains(nodes)
    }

    /** Closes the latest version in place and appends the next one. */
    method Supersede(d: Draft)
      requires Valid() && Drafted(nodes, d)
      modifies this
      ensures Valid() && nodes == Superseding(old(nodes), d)
    {
      SupersedingKeepsChains(nodes, d);
      var next := NextVersion(nodes, d);
      if next.supersedes.Some? {
        CloseVersion(next.supersedes.value, next.id);
      }
      nodes := nodes + [next];
    }

    method CloseVersion(id: NodeId, successor: NodeId)
      modifies this
      ensures nodes == Closing(old(nodes), id, successor)
    {
      for i := 0 to |nodes|
        invariant |nodes| == |old(nodes)|
        invariant forall k | 0 <= k < i :: nodes[k] == Closing(old(nodes), id, successor)[k]
        invariant forall k | i <= k < |nodes| :: nodes[k] == old(nodes)[k]
      {
        if nodes[i].id == id {
          nodes := nodes[i := Closed(nodes[i], successor)];
        }
      }
    }

    /** One loop over the occurrences: the ones the workbook names, or the others. */
    method ImportPass(b: Bundle, occurrences: seq<string>, named: bool)
      requires Valid() && ValidBundle(b)
      requires forall i, j | 0 <= i < j < |occurrences| :: occurrences[i] != occurrences[j]
      modifies this
      ensures Valid()
      ensures Passed(nodes, old(nodes), b, occurrences, named)
      ensures (forall o | o in occurrences :: PlanFor(old(nodes), o, b).None?) ==> nodes == old(nodes)
    {
      for n := 0 to |occurrences|
        invariant Valid()
        invariant Passed(nodes, old(nodes), b, occurrences[..n], named)
        invariant (forall o | o in occurrences[..n] :: PlanFor(old(nodes), o, b).None?) ==> nodes == old(nodes)
      {
        var o := occurrences[n];
        assert occurrences[..n + 1] == occurrences[..n] + [o];
        ghost var mid := nodes;
        if (o in b.incoming) == named {
          ImportOne(b, o);
        }
        PassStep(mid, nodes, old(nodes), b, occurrences[..n], o, named);
      }
      assert occurrences[..|occurrences|] == occurrences;
    }

    method ImportOne(b: Bundle, o: string)
      requires Valid() && ValidBundle(b)
      modifies this
      ensures Valid()
      ensures forall x :: ChainOf(nodes, x) == if x == o then Imported(old(nodes), o, b) else ChainOf(old(nodes), x)
      ensures PlanFor(old(nodes), o, b).None? ==> nodes == old(nodes)
    {
      var plan := PlanFor(nodes, o, b);
      if plan.Some? {
        PlanIsDrafted(nodes, o, b);
        forall x ensures ChainOf(Superseding(nodes, plan.value), x) ==
                         if x == o then Superseding(ChainOf(nodes, x), plan.value) else ChainOf(nodes, x)
        {
          SupersedingOneChain(nodes, plan.value, x);
        }
        Supersede(plan.value);
      }
    }

    /** First the explicitly emptied times, then the given ones. Every chain gets at most one new
        version, the one that its latest version before the import and the workbook call for, and
        nothing is removed. */
    method Reimport(b: Bundle, occurrences: seq<string>)
      requires Valid() && ValidBundle(b)
      requires forall i, j | 0 <= i < j < |occurrences| :: occurrences[i] != occurrences[j]
      requires forall n | n in nodes :: n.occurrence in occurrences
      modifies this
      ensures Valid()
      ensures forall o :: ChainOf(nodes, o) == Imported(old(nodes), o, b)
      ensures (forall o | o in occurrences :: PlanFor(old(nodes), o, b).None?) ==> nodes == old(nodes)
    {
      ImportPass(b, occurrences, false);
      ghost var mid := nodes;
      ImportPass(b, occurrences, true);
      forall o ensures ChainOf(nodes, o) == Imported(old(nodes), o, b) {
        BothPasses(mid, nodes, old(nodes), b, occurrences, o);
      }
      forall o | o in occurrences
        ensures PlanFor(old(nodes), o, b).None? && mid == old(nodes) ==> PlanFor(mid, o, b).None? {}
    }
  }

  lemma BothPasses(mid: seq<Node>, nodes: seq<Node>, before: seq<Node>, b: Bundle, occurrences: seq<string>, o: string)
    requires Passed(mid, before, b, occurrences, false) && Passed(nodes, mid, b, occurrences, true)
    requires forall n | n in before :: n.occurrence in occurrences
    ensures ChainOf(nodes, o) == Imported(before, o, b)
  {
    SamePlan(mid, before, o, b);
    if o !in occurrences {
      NoNodes(before, o);
    }
  }

  /** Every finished occurrence of the pass is imported, every other chain is as it was. */
  ghost predicate Passed(nodes: seq<Node>, before: seq<Node>, b: Bundle, done: seq<string>, named: bool) {
    forall o ::
        ChainOf(nodes, o) == if o in done && (o in b.incoming) == named then Imported(before, o, b)
          else ChainOf(before, o)
  }

  lemma PassStep(mid: seq<Node>, nodes: seq<Node>, before: seq<Node>, b: Bundle, done: seq<string>, o: string,
                 named: bool)
    requires Passed(mid, before, b, done, named) && o !in done
    requires if (o in b.incoming) == named
             then forall x :: ChainOf(nodes, x) == if x == o then Imported(mid, o, b) else ChainOf(mid, x)
             else nodes == mid
    ensures Passed(nodes, before, b, done + [o], named)
    ensures PlanFor(mid, o, b) == PlanFor(before, o, b)
  {
    assert ChainOf(mid, o) == ChainOf(before, o);
    SamePlan(mid, before, o, b);
    forall x
      ensures ChainOf(nodes, x) ==
              if x in done + [o] && (x in b.incoming) == named then Imported(before, x, b) else ChainOf(before, x)
    {
      PassAt(mid, nodes, before, b, done, o, named, x);
    }
  }

  lemma PassAt(mid: seq<Node>, nodes: seq<Node>, before: seq<Node>, b: Bundle, done: seq<string>, o: string,
               named: bool, x: string)
    requires ChainOf(mid, x) == if x in done && (x in b.incoming) == named then Imported(before, x, b)
             else ChainOf(before, x)
    requires Imported(mid, o, b) == Imported(before, o, b) && ChainOf(mid, o) == ChainOf(before, o)
    requires if (o in b.incoming) == named
             then ChainOf(nodes, x) == if x == o then Imported(mid, o, b) else ChainOf(mid, x)
             else nodes == mid
    ensures ChainOf(nodes, x) ==
            if x in done + [o] && (x in b.incoming) == named then Imported(before, x, b) else ChainOf(before, x)
  {}

  /** The plan for an occurrence depends on its own chain alone. */
  lemma SamePlan(nodes: seq<Node>, before: seq<Node>, o: string, b: Bundle)
    ensures ChainOf(nodes, o) == ChainOf(before, o) ==>
              PlanFor(nodes, o, b) == PlanFor(before, o, b) && Imported(nodes, o, b) == Imported(before, o, b)
  {
    LatestOfChain(nodes, o);
    LatestOfChain(before, o);
  }

  lemma NoNodes(nodes: seq<Node>, o: string)
    requires forall n | n in nodes :: n.occurrence != o
    ensures Latest(nodes, o).None? && ChainOf(nodes, o) == []
  {
    ChainMembers(nodes, o);
    assert forall i | 0 <= i < |ChainOf(nodes, o)| :: ChainOf(nodes, o)[i] in ChainOf(nodes, o);
  }

  function Imported(nodes: seq<Node>, o: string, b: Bundle): seq<Node> {
    var plan := PlanFor(nodes, o, b);
    if plan.Some? then Superseding(ChainOf(nodes, o), plan.value) else ChainOf(nodes, o)
  }

  // ---------------------------------------------------------------------------------------
  // What importing promises
  // ---------------------------------------------------------------------------------------

  /** The version was cancelled or completed by somebody else than an import, or no workbook owns it. */
  predicate Standing(prior: Node) {
    !prior.legacy || (Terminal(prior.state) && !ImportWithdrawal(prior))
  }

  /** No workbook whatsoever calls for a new version exactly when the latest one stands. */
  lemma StandingExactly(nodes: seq<Node>, o: string)
    requires Latest(nodes, o).Some?
    ensures Standing(Latest(nodes, o).value) <==> forall b | ValidBundle(b) :: PlanFor(nodes, o, b).None?
  {
    var prior := Latest(nodes, o).value;
    if !Standing(prior) {
      var other := Draft(o, Scheduled, prior.temporal + "!", true, {});
      var b := Bundle(map[o := other], {}, "");
      assert |other.temporal| == |prior.temporal| + 1;
      assert ValidBundle(b) && PlanFor(nodes, o, b).Some?;
    }
  }

  /** What happens to a schedule: workbooks are imported, and versions are made by the user. */
  datatype Event = Import(b: Bundle) | Act(d: Draft)

  ghost predicate Happens(before: seq<Node>, e: Event, after: seq<Node>) {
    match e
    case Import(b) => ValidBundle(b) && Chains(after) && forall o :: ChainOf(after, o) == Imported(before, o, b)
    case Act(d) => Drafted(before, d) && after == Superseding(before, d)
  }

  ghost predicate History(states: seq<seq<Node>>, events: seq<Event>) {
    && |states| == |events| + 1 && Chains(states[0])
    && forall i | 0 <= i < |events| :: Happens(states[i], events[i], states[i + 1])
  }

  lemma EventKeepsChains(before: seq<Node>, e: Event, after: seq<Node>)
    requires Chains(before) && Happens(before, e, after)
    ensures Chains(after)
  {
    if e.Act? {
      SupersedingKeepsChains(before, e.d);
    }
  }

  lemma {:induction false} HistoryKeepsChains(states: seq<seq<Node>>, events: seq<Event>, n: nat)
    requires History(states, events) && n <= |events|
    ensures Chains(states[n])
    decreases n
  {
    if n > 0 {
      HistoryKeepsChains(states, events, n - 1);
      EventKeepsChains(states[n - 1], events[n - 1], states[n]);
    }
  }

  /** One event that is no act of the user on the occurrence. */
  lemma EventKeepsChain(before: seq<Node>, e: Event, after: seq<Node>, o: string)
    requires Chains(before) && Happens(before, e, after)
    requires e.Act? ==> e.d.occurrence != o
    requires e.Import? ==>
               || (o !in e.b.incoming && o !in e.b.cleared)
               || (Latest(before, o).Some? && Standing(Latest(before, o).value))
    ensures ChainOf(after, o) == ChainOf(before, o) && Latest(after, o) == Latest(before, o)
  {
    if e.Act? {
      SupersedingOneChain(before, e.d, o);
    }
    LatestOfChain(before, o);
    LatestOfChain(after, o);
  }

  /** What the user cancelled or completed, and what no workbook owns, keeps its chain and its latest
      version through any number of imports, until the user acts on it again. */
  lemma {:induction false} UserCancellationStands(states: seq<seq<Node>>, events: seq<Event>, a: nat, n: nat, o: string)
    requires History(states, events) && a <= n <= |events|
    requires Latest(states[a], o).Some? && Standing(Latest(states[a], o).value)
    requires forall i | a <= i < n && events[i].Act? :: events[i].d.occurrence != o
    ensures ChainOf(states[n], o) == ChainOf(states[a], o) && Latest(states[n], o) == Latest(states[a], o)
    decreases n
  {
    if a < n {
      UserCancellationStands(states, events, a, n - 1, o);
      HistoryKeepsChains(states, events, n - 1);
      EventKeepsChain(states[n - 1], events[n - 1], states[n], o);
    }
  }

  /** An occurrence that no workbook mentions keeps its whole chain. */
  lemma {:induction false} OmissionKeepsChain(states: seq<seq<Node>>, events: seq<Event>, a: nat, n: nat, o: string)
    requires History(states, events) && a <= n <= |events|
    requires forall i | a <= i < n :: if events[i].Act? then events[i].d.occurrence != o
                                      else o !in events[i].b.incoming && o !in events[i].b.cleared
    ensures ChainOf(states[n], o) == ChainOf(states[a], o) && Latest(states[n], o) == Latest(states[a], o)
    decreases n
  {
    if a < n {
      OmissionKeepsChain(states, events, a, n - 1, o);
      HistoryKeepsChains(states, events, n - 1);
      EventKeepsChain(states[n - 1], events[n - 1], states[n], o);
    }
  }

  /** A user's cancellation is such a version even after an import had cancelled the occurrence before and
      its signature is carried along: the signature is for an earlier version. */
  lemma CancellingStands(states: seq<seq<Node>>, events: seq<Event>, a: nat, n: nat)
    requires History(states, events) && a < n <= |events| && events[a].Act? && Terminal(events[a].d.state)
    requires forall c | c in events[a].d.refs && c.Cleared? ::
               Latest(states[a], events[a].d.occurrence).Some?
                 && c in Latest(states[a], events[a].d.occurrence).value.refs
    requires forall i | a < i < n && events[i].Act? :: events[i].d.occurrence != events[a].d.occurrence
    ensures Latest(states[n], events[a].d.occurrence) == Some(NextVersion(states[a], events[a].d))
  {
    var d := events[a].d;
    HistoryKeepsChains(states, events, a);
    assert Happens(states[a], events[a], states[a + 1]);
    LatestAfter(states[a], d);
    var prior := Latest(states[a], d.occurrence);
    assert prior.Some? ==> Signed(prior.value);
    UserCancellationStands(states, events, a + 1, n, d.occurrence);
  }

  lemma LatestAfter(nodes: seq<Node>, d: Draft)
    requires Chains(nodes)
    ensures Latest(Superseding(nodes, d), d.occurrence) == Some(NextVersion(nodes, d))
  {
    var after, next := Superseding(nodes, d), NextVersion(nodes, d);
    var closed := after[..|nodes|];
    NextIsNew(nodes, d);
    assert after == closed + [next];
    LatestLast(closed, next, d.occurrence);
    var before := Latest(closed, d.occurrence);
    if before.Some? {
      var i :| 0 <= i < |closed| && closed[i] == before.value;
      EarlierAt(nodes, d, i);
    }
  }

  /** A version that the user makes and that no workbook owns is the latest one, as it was drafted, through any
      number of imports, until the user acts on the occurrence again. */
  lemma OwnVersionStands(states: seq<seq<Node>>, events: seq<Event>, a: nat, n: nat)
    requires History(states, events) && a < n <= |events| && events[a].Act? && !events[a].d.legacy
    requires forall i | a < i < n && events[i].Act? :: events[i].d.occurrence != events[a].d.occurrence
    ensures var d, latest := events[a].d, Latest(states[n], events[a].d.occurrence);
            && latest.Some? && latest.value.state == d.state && latest.value.temporal == d.temporal
            && latest.value.refs == d.refs && !latest.value.legacy
  {
    HistoryKeepsChains(states, events, a);
    assert Happens(states[a], events[a], states[a + 1]);
    LatestAfter(states[a], events[a].d);
    UserCancellationStands(states, events, a + 1, n, events[a].d.occurrence);
  }

  /** What a plan made calls for no further version from the same workbook. */
  lemma PlannedIsSettled(prior: Node, b: Bundle, now: Node)
    requires ValidBundle(b) && Signed(prior) && Plan(prior, b).Some?
    requires var d := Plan(prior, b).value;
             now.occurrence == prior.occurrence && now.version == prior.version + 1 && now.state == d.state
             && now.temporal == d.temporal && now.legacy == d.legacy && now.refs == d.refs
    ensures Plan(now, b).None?
  {
    if prior.occurrence in b.incoming {
      assert forall c | c in prior.refs && c.Cleared? && c.occurrence == prior.occurrence :: c.version <= prior.version;
      assert !ImportWithdrawal(now);
    }
  }

  /** Importing the same workbook twice is the identity the second time. */
  lemma ReimportIsIdempotent(nodes: seq<Node>, nodes': seq<Node>, o: string, b: Bundle)
    requires Chains(nodes) && ValidBundle(b)
    requires ChainOf(nodes', o) == Imported(nodes, o, b)
    ensures PlanFor(nodes', o, b).None?
  {
    var plan := PlanFor(nodes, o, b);
    if plan.Some? {
      PlanIsDrafted(nodes, o, b);
      SupersedingOneChain(nodes, plan.value, o);
      LatestOfChain(Superseding(nodes, plan.value), o);
      LatestAfter(nodes, plan.value);
      LatestOfChain(nodes', o);
      PlannedIsSettled(Latest(nodes, o).value, b, NextVersion(nodes, plan.value));
    } else {
      SamePlan(nodes', nodes, o, b);
    }
  }

  // ---------------------------------------------------------------------------------------
  // What an import makes of an occurrence
  // ---------------------------------------------------------------------------------------

  lemma ImportedLatest(before: seq<Node>, after: seq<Node>, o: string, b: Bundle)
    requires Chains(before) && ValidBundle(b) && ChainOf(after, o) == Imported(before, o, b)
    ensures var plan := PlanFor(before, o, b);
            Latest(after, o) == if plan.Some? then Some(NextVersion(before, plan.value)) else Latest(before, o)
  {
    var plan := PlanFor(before, o, b);
    LatestOfChain(after, o);
    LatestOfChain(before, o);
    if plan.Some? {
      PlanIsDrafted(before, o, b);
      SupersedingOneChain(before, plan.value, o);
      LatestAfter(before, plan.value);
      LatestOfChain(Superseding(before, plan.value), o);
    }
  }

  /** An import that gives an occurrence of a workbook a new time, or gives one back that an import had
      emptied, makes its next version with the workbook's state and time and with the evidence of both. One
      that empties it makes a next version that is cancelled as of the import, at the time it had, with the
      evidence it had and the import's signature. Any other import leaves its latest version the latest. */
  lemma ImportOutcome(before: seq<Node>, after: seq<Node>, o: string, b: Bundle, prior: Node)
    requires Chains(before) && ValidBundle(b) && Latest(before, o) == Some(prior)
    requires ChainOf(after, o) == Imported(before, o, b)
    ensures Latest(after, o).Some?
    ensures var now := Latest(after, o).value;
            var ended := prior.state.Completed? || prior.state.Cancelled? || prior.state.Superseded?;
            var emptied := prior.state.Cancelled? && Cleared(o, prior.version, prior.state.at) in prior.refs;
            if prior.legacy && o in b.incoming && (emptied || (!ended && b.incoming[o].temporal != prior.temporal))
            then && now.version == prior.version + 1 && now.supersedes == Some(prior.id) && now.supersededBy == None
                 && now.state == b.incoming[o].state && now.temporal == b.incoming[o].temporal && now.legacy
                 && now.refs == prior.refs + b.incoming[o].refs
            else if prior.legacy && o !in b.incoming && o in b.cleared && !ended
            then && now.version == prior.version + 1 && now.supersedes == Some(prior.id) && now.supersededBy == None
                 && now.state == Cancelled(b.importedAt) && now.temporal == prior.temporal && now.legacy
                 && now.refs == prior.refs + {Cleared(o, prior.version + 1, b.importedAt)}
            else now == prior && ChainOf(after, o) == ChainOf(before, o)
  {
    ImportedLatest(before, after, o, b);
    PlanOutcome(before, o, b, prior);
  }

  lemma PlanOutcome(before: seq<Node>, o: string, b: Bundle, prior: Node)
    requires ValidBundle(b) && Latest(before, o) == Some(prior)
    ensures var plan := PlanFor(before, o, b);
            var ended := prior.state.Completed? || prior.state.Cancelled? || prior.state.Superseded?;
            var emptied := prior.state.Cancelled? && Cleared(o, prior.version, prior.state.at) in prior.refs;
            if prior.legacy && o in b.incoming && (emptied || (!ended && b.incoming[o].temporal != prior.temporal))
            then plan.Some? && NextVersion(before, plan.value) ==
                 Node(Versioned(o, prior.version + 1), o, prior.version + 1, b.incoming[o].state,
                      b.incoming[o].temporal,
                      true, prior.refs + b.incoming[o].refs, Some(prior.id), None)
            else if prior.legacy && o !in b.incoming && o in b.cleared && !ended
            then plan.Some? && NextVersion(before, plan.value) ==
                 Node(Versioned(o, prior.version + 1), o, prior.version + 1, Cancelled(b.importedAt), prior.temporal,
                      true, prior.refs + {Cleared(o, prior.version + 1, b.importedAt)}, Some(prior.id), None)
            else plan.None?
  {}

  lemma Emptied(before: seq<Node>, after: seq<Node>, o: string, b: Bundle, prior: Node)
    requires Chains(before) && ValidBundle(b) && ChainOf(after, o) == Imported(before, o, b)
    requires Latest(before, o) == Some(prior) && prior.legacy && prior.state == Scheduled
    requires o !in b.incoming && o in b.cleared
    ensures Latest(after, o) ==
            Some(Node(Versioned(o, prior.version + 1), o, prior.version + 1, Cancelled(b.importedAt), prior.temporal,
                      true, prior.refs + {Cleared(o, prior.version + 1, b.importedAt)}, Some(prior.id), None))
  {
    ImportedLatest(before, after, o, b);
    PlanOutcome(before, o, b, prior);
  }

  lemma Given(before: seq<Node>, after: seq<Node>, o: string, b: Bundle, prior: Node)
    requires Chains(before) && ValidBundle(b) && ChainOf(after, o) == Imported(before, o, b)
    requires Latest(before, o) == Some(prior) && prior.legacy && o in b.incoming
    requires prior.state.Cancelled? && Cleared(o, prior.version, prior.state.at) in prior.refs
    ensures Latest(after, o) ==
            Some(Node(Versioned(o, prior.version + 1), o, prior.version + 1, b.incoming[o].state,
                      b.incoming[o].temporal,
                      true, prior.refs + b.incoming[o].refs, Some(prior.id), None))
  {
    ImportedLatest(before, after, o, b);
    PlanOutcome(before, o, b, prior);
  }

  /** A time that one import emptied and a later one gives back is scheduled again, with all the evidence. */
  lemma GivenBack(before: seq<Node>, first: Bundle, mid: seq<Node>, second: Bundle, after: seq<Node>, o: string,
                  prior: Node)
    requires Chains(before) && Chains(mid) && ValidBundle(first) && ValidBundle(second)
    requires ChainOf(mid, o) == Imported(before, o, first) && ChainOf(after, o) == Imported(mid, o, second)
    requires Latest(before, o) == Some(prior) && prior.legacy && prior.state == Scheduled
    requires o !in first.incoming && o in first.cleared && o in second.incoming
    ensures Latest(after, o).Some?
    ensures var now := Latest(after, o).value;
            && now.version == prior.version + 2 && now.legacy
            && now.state == second.incoming[o].state && now.temporal == second.incoming[o].temporal
            && now.refs == prior.refs + {Cleared(o, prior.version + 1, first.importedAt)} + second.incoming[o].refs
  {
    Emptied(before, mid, o, first, prior);
    Given(mid, after, o, second, Latest(mid, o).value);
  }
}
