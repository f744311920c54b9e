/**
 Scoped management consent: one request decides several domains of one client against the grants
 it observed, all of them or none, and leaves a receipt that any retry gets back unchanged.
 */
module Consent {
  import opened Wrappers

  datatype Proof = Proof(id: string, revision: nat)

  datatype Grant = Grant(id: string, revision: nat, revoked: bool)

  datatype Decision = Approve | Revoke

  /** `bound` says that the choice names the exact consent version and text it was shown. */
  datatype Choice = Choice(domain: string, decision: Decision, bound: bool, expected: Option<Proof>)

  datatype Outcome = Approved | Revoked | AlreadyRevoked | Denied

  datatype Receipt = Receipt(outcome: Outcome, grant: Option<Proof>)

  datatype Key = Key(client: string, domain: string)

  datatype Event = Event(requestId: string, client: string, choices: seq<Choice>, receipts: map<string, Receipt>)

  datatype Reply = Receipts(receipts: map<string, Receipt>) | Reused | Invalid | Changed | NoWorkspace

  const MAX_CHOICES := 4
  const DOMAINS: set<string> := {"opportunity", "planning", "discoveryProfile", "privateReminder"}

  function ProofOf(g: Option<Grant>): Option<Proof> {
    if g.Some? then Some(Proof(g.value.id, g.value.revision)) else None
  }

  function GrantAt(grants: map<Key, Grant>, key: Key): Option<Grant> {
    if key in grants then Some(grants[key]) else None
  }

  predicate WellFormed(c: Choice) {
    c.domain in DOMAINS && c.bound && (c.decision.Revoke? ==> c.expected.Some?)
  }

  predicate DistinctDomains(choices: seq<Choice>) {
    forall i, j | 0 <= i < j < |choices| :: choices[i].domain != choices[j].domain
  }

  predicate Approves(choices: seq<Choice>) {
    exists c | c in choices :: c.decision.Approve?
  }

  /** What one choice makes of the grant it found. */
  function Decided(g: Option<Grant>, c: Choice, newId: string): (Option<Grant>, Outcome) {
    if c.decision.Approve? then
      (Some(if g.Some? then Grant(g.value.id, g.value.revision + 1, false) else Grant(newId, 1, false)), Approved)
    else if g.Some? && !g.value.revoked then (Some(Grant(g.value.id, g.value.revision + 1, true)), Revoked)
    else (g, AlreadyRevoked)
  }

  /** How many receipts of the events moved the grant. */
  function Moves(events: seq<Event>, key: Key): nat {
    if events == [] then 0
    else
      var e := events[|events| - 1];
      Moves(events[..|events| - 1], key)
      + if e.client == key.client && key.domain in e.receipts
        && e.receipts[key.domain].outcome in {Approved, Revoked} then 1 else 0
  }

  function Find(events: seq<Event>, requestId: string): (r: Option<Event>)
    ensures r.Some? ==> r.value in events && r.value.requestId == requestId
    ensures r.None? ==> forall e | e in events :: e.requestId != requestId
  {
    if events == [] then None
    else if events[|events| - 1].requestId == requestId then Some(events[|events| - 1])
    else Find(events[..|events| - 1], requestId)
  }

  function Revision(grants: map<Key, Grant>, key: Key): nat {
    if key in grants then grants[key].revision else 0
  }

  predicate Matches(grants: map<Key, Grant>, client: string, c: Choice) {
    ProofOf(GrantAt(grants, Key(client, c.domain))) == c.expected
  }

  /** The choice was made on the grant as it is now. */
  ghost predicate Observed(grants: map<Key, Grant>, client: string, c: Choice) {
    var key := Key(client, c.domain);
    match c.expected
    case None => key !in grants
    case Some(p) => key in grants && grants[key].id == p.id && grants[key].revision == p.revision
  }

  /** What a choice may make of a grant: approving it starts it, or moves it on and lifts a revocation;
      revoking it moves it on and revokes it, unless it is revoked already. */
  ghost predicate Turns(g: Option<Grant>, c: Choice, newId: string, next: Option<Grant>, r: Receipt) {
    match c.decision
    case Approve =>
      && next.Some? && !next.value.revoked && r.outcome == Approved && r.grant == ProofOf(next)
      && (g.None? ==> next.value.id == newId && next.value.revision == 1)
      && (g.Some? ==> next.value.id == g.value.id && next.value.revision == g.value.revision + 1)
    case Revoke =>
      && r.grant == ProofOf(next)
      && (g.Some? && !g.value.revoked ==>
            r.outcome == Revoked && next == Some(Grant(g.value.id, g.value.revision + 1, true)))
      && (g.None? || g.value.revoked ==> r.outcome == AlreadyRevoked && next == g)
  }

  /** The state after a batch: every chosen domain is decided from the grant it was decided on, every
      other grant is as it was. */
  ghost predicate Batch(before: map<Key, Grant>, after: map<Key, Grant>, client: string, choices: seq<Choice>,
                        newId: string -> string, receipts: map<string, Receipt>)
  {
    && receipts.Keys == (set c | c in choices :: c.domain)
    && (forall c | c in choices ::
          var key := Key(client, c.domain);
          Turns(GrantAt(before, key), c, newId(c.domain), GrantAt(after, key), receipts[c.domain]))
    && (forall key: Key | key.client != client || key.domain !in receipts ::
          GrantAt(after, key) == GrantAt(before, key))
  }

  /** Every receipt of a batch that admission refused. */
  ghost predicate AllDenied(choices: seq<Choice>, receipts: map<string, Receipt>) {
    && receipts.Keys == (set c | c in choices :: c.domain)
    && forall d | d in receipts :: receipts[d] == Receipt(Denied, None)
  }

  /** The choice is well bound and, unless admission is refused anyway, was made on the grant as it is. */
  ghost predicate Acceptable(grants: map<Key, Grant>, client: string, c: Choice, denied: bool) {
    && c.domain in {"opportunity", "planning", "discoveryProfile", "privateReminder"}
    && c.bound && (c.decision == Revoke ==> c.expected != None)
    && (denied || Observed(grants, client, c))
  }

  datatype Staged = Staged(grants: map<Key, Grant>, receipts: map<string, Receipt>) | Failed(reply: Reply)

  /** The loop over the choices, on staged grants. */
  method Stage(grants: map<Key, Grant>, client: string, choices: seq<Choice>, denied: bool, newId: string -> string)
    returns (r: Staged)
    requires DistinctDomains(choices)
    ensures r.Staged? <==> forall c | c in choices :: Acceptable(grants, client, c, denied)
    ensures r.Staged? ==> if denied then r.grants == grants && AllDenied(choices, r.receipts)
                          else Batch(grants, r.grants, client, choices, newId, r.receipts)
    ensures r.Failed? ==> !r.reply.Receipts?
  {
    var staged, receipts := grants, map[];
    for n := 0 to |choices|
      invariant forall c | c in choices[..n] :: Acceptable(grants, client, c, denied)
      invariant denied ==> staged == grants && AllDenied(choices[..n], receipts)
      invariant !denied ==> Batch(grants, staged, client, choices[..n], newId, receipts)
    {
      var c := choices[n];
      assert c in choices && choices[..n + 1] == choices[..n] + [c];
      if !WellFormed(c) {
        return Failed(Invalid);
      }
      forall x | x in choices[..n] ensures x.domain != c.domain {
        var i :| 0 <= i < n && choices[i] == x;
      }
      if denied {
        receipts := receipts[c.domain := Receipt(Denied, None)];
      } else {
        var key := Key(client, c.domain);
        assert GrantAt(staged, key) == GrantAt(grants, key);
        if !Matches(staged, client, c) {
          return Failed(Changed);
        }
        var d := Decided(GrantAt(staged, key), c, newId(c.domain));
        BatchGrows(grants, staged, client, choices[..n], newId, receipts, c);
        staged, receipts := staged[key := d.0.value], receipts[c.domain := Receipt(d.1, ProofOf(d.0))];
      }
    }
    assert choices[..|choices|] == choices;
    return Staged(staged, receipts);
  }

  /** What a request that was not seen before may be refused for. */
  ghost predicate Refusable(grants: map<Key, Grant>, client: string, choices: seq<Choice>, admitted: bool,
                            workspace: bool)
  {
    var approves := exists c | c in choices :: c.decision == Approve;
    || |choices| == 0 || |choices| > 4
    || (exists i, j | 0 <= i < j < |choices| :: choices[i].domain == choices[j].domain)
    || (exists c | c in choices :: !Acceptable(grants, client, c, approves && !admitted))
    || (approves && admitted && !workspace)
  }

  class Authority {
    var grants: map<Key, Grant>
    var events: seq<Event>
    ghost var initial: map<Key, Grant>

    /** Every grant's revision is what it started with plus the receipts that moved it. */
    ghost predicate Valid()
      reads this
    {
      && (forall i, j | 0 <= i < j < |events| :: events[i].requestId != events[j].requestId)
      && (forall key :: Revision(grants, key) == Revision(initial, key) + Moves(events, key))
    }

    constructor (grants: map<Key, Grant>)
      ensures Valid() && this.grants == grants && events == [] && initial == grants
    {
      this.grants, events, initial := grants, [], grants;
    }

    /** One locked transaction. A retry gets the stored receipts, an error leaves grants and events
        alone, and otherwise all choices are decided and their receipts stored together. */
    method Decide(requestId: string, client: string, choices: seq<Choice>, admitted: bool, workspace: bool,
                  newId: string -> string)
      returns (reply: Reply)
      requires Valid()
      modifies this
      ensures Valid() && initial == old(initial)
      ensures var known := Find(old(events), requestId);
              if known.Some?
              then && grants == old(grants) && events == old(events)
                   && reply == if known.value.client == client && known.value.choices == choices
                      then Receipts(known.value.receipts) else Reused
              else if Refusable(old(grants), client, choices, admitted, workspace)
              then !reply.Receipts? && grants == old(grants) && events == old(events)
              else && reply.Receipts? && events == old(events) + [Event(requestId, client, choices, reply.receipts)]
                   && if (exists c | c in choices :: c.decision == Approve) && !admitted then grants == old(grants)
                      && AllDenied(choices, reply.receipts)
                      else Batch(old(grants), grants, client, choices, newId, reply.receipts)
    {
      var known := Find(events, requestId);
      if known.Some? {
        return if known.value.client == client && known.value.choices == choices then Receipts(known.value.receipts)
          else Reused;
      }
      reply := DecideNew(requestId, client, choices, admitted, workspace, newId);
    }

    /** A request that was not seen before. */
    method DecideNew(requestId: string, client: string, choices: seq<Choice>, admitted: bool, workspace: bool,
                     newId: string -> string)
      returns (reply: Reply)
      requires Valid() && Find(events, requestId).None?
      modifies this
      ensures Valid() && initial == old(initial)
      ensures reply.Receipts? <==> !Refusable(old(grants), client, choices, admitted, workspace)
      ensures !reply.Receipts? ==> grants == old(grants) && events == old(events)
      ensures reply.Receipts? ==>
                && events == old(events) + [Event(requestId, client, choices, reply.receipts)]
                && if (exists c | c in choices :: c.decision == Approve) && !admitted
                   then grants == old(grants) && AllDenied(choices, reply.receipts)
                   else Batch(old(grants), grants, client, choices, newId, reply.receipts)
    {
      var denied := Approves(choices) && !admitted;
      RefusableExactly(grants, client, choices, admitted, workspace);
      if !(1 <= |choices| <= MAX_CHOICES && DistinctDomains(choices)) {
        return Invalid;
      }
      var staged := Stage(grants, client, choices, denied, newId);
      if staged.Failed? {
        return staged.reply;
      }
      if !denied && Approves(choices) && !workspace {
        return NoWorkspace;
      }
      Record(Event(requestId, client, choices, staged.receipts), staged.grants, newId, denied);
      return Receipts(staged.receipts);
    }

    /** The staged grants and the event are stored together. */
    method Record(event: Event, after: map<Key, Grant>, ghost newId: string -> string, ghost denied: bool)
      requires Valid() && Find(events, event.requestId).None?
      requires forall c | c in event.choices :: Acceptable(grants, event.client, c, denied)
      requires if denied then after == grants && AllDenied(event.choices, event.receipts)
               else Batch(grants, after, event.client, event.choices, newId, event.receipts)
      modifies this
      ensures Valid() && initial == old(initial) && grants == after && events == old(events) + [event]
    {
      EventMoves(grants, after, event.client, event.choices, newId, event.receipts, events, event, denied);
      assert forall i | 0 <= i < |events| :: events[i] in events;
      grants, events := after, events + [event];
    }
  }

  /** The checks of the transaction, in its order. */
  lemma RefusableExactly(grants: map<Key, Grant>, client: string, choices: seq<Choice>, admitted: bool, workspace: bool)
    ensures Refusable(grants, client, choices, admitted, workspace) <==>
              || !(1 <= |choices| <= MAX_CHOICES && DistinctDomains(choices))
              || !(forall c | c in choices :: Acceptable(grants, client, c, Approves(choices) && !admitted))
              || (!(Approves(choices) && !admitted) && Approves(choices) && !workspace)
  {
    assert Approves(choices) <==> exists c | c in choices :: c.decision == Approve;
  }

  lemma EventMoves(before: map<Key, Grant>, after: map<Key, Grant>, client: string, choices: seq<Choice>,
                   newId: string -> string,
                   receipts: map<string, Receipt>, events: seq<Event>, event: Event, denied: bool)
    requires event.client == client && event.receipts == receipts
    requires forall c | c in choices :: Acceptable(before, client, c, denied)
    requires if denied then after == before && AllDenied(choices, receipts)
             else Batch(before, after, client, choices, newId, receipts)
    ensures forall key ::
              Revision(after, key) - Revision(before, key) == Moves(events + [event], key) - Moves(events, key)
  {
    assert (events + [event])[..|events|] == events;
    if !denied {
      BatchMoves(before, after, client, choices, newId, receipts, events, event);
    }
  }

  lemma BatchGrows(before: map<Key, Grant>, staged: map<Key, Grant>, client: string, choices: seq<Choice>,
                   newId: string -> string, receipts: map<string, Receipt>, c: Choice)
    requires Batch(before, staged, client, choices, newId, receipts)
    requires forall x | x in choices :: x.domain != c.domain
    ensures var d := Decided(GrantAt(staged, Key(client, c.domain)), c, newId(c.domain));
            d.0.Some? ==>
              Batch(before, staged[Key(client, c.domain) := d.0.value], client, choices + [c], newId,
                    receipts[c.domain := Receipt(d.1, ProofOf(d.0))])
  {
    var d := Decided(GrantAt(staged, Key(client, c.domain)), c, newId(c.domain));
    if d.0.Some? {
      var more, after := receipts[c.domain := Receipt(d.1, ProofOf(d.0))], staged[Key(client, c.domain) := d.0.value];
      assert more.Keys == set x | x in choices + [c] :: x.domain;
      forall x | x in choices + [c]
        ensures Turns(GrantAt(before, Key(client, x.domain)), x, newId(x.domain), GrantAt(after, Key(client, x.domain)),
                      more[x.domain])
      {
        GrowsAt(before, staged, client, choices, newId, receipts, c, x);
      }
    }
  }

  lemma GrowsAt(before: map<Key, Grant>, staged: map<Key, Grant>, client: string, choices: seq<Choice>,
                newId: string -> string, receipts: map<string, Receipt>, c: Choice, x: Choice)
    requires Batch(before, staged, client, choices, newId, receipts) && x in choices + [c]
    requires forall x | x in choices :: x.domain != c.domain
    requires Decided(GrantAt(staged, Key(client, c.domain)), c, newId(c.domain)).0.Some?
    ensures var d := Decided(GrantAt(staged, Key(client, c.domain)), c, newId(c.domain));
            Turns(GrantAt(before, Key(client, x.domain)), x, newId(x.domain),
                  GrantAt(staged[Key(client, c.domain) := d.0.value], Key(client, x.domain)),
                  receipts[c.domain := Receipt(d.1, ProofOf(d.0))][x.domain])
  {
    if x in choices {
      assert Key(client, x.domain) != Key(client, c.domain);
    } else {
      assert GrantAt(staged, Key(client, c.domain)) == GrantAt(before, Key(client, c.domain));
    }
  }

  lemma BatchMoves(before: map<Key, Grant>, after: map<Key, Grant>, client: string, choices: seq<Choice>,
                   newId: string -> string, receipts: map<string, Receipt>, events: seq<Event>, event: Event)
    requires Batch(before, after, client, choices, newId, receipts)
    requires event.client == client && event.receipts == receipts
    requires forall c | c in choices :: c.decision.Revoke? ==> GrantAt(before, Key(client, c.domain)).Some?
    ensures forall key ::
              Revision(after, key) - Revision(before, key) == Moves(events + [event], key) - Moves(events, key)
  {
    forall key: Key
      ensures Revision(after, key) - Revision(before, key) == Moves(events + [event], key) - Moves(events, key)
    {
      assert (events + [event])[..|events|] == events;
      if key.client == client && key.domain in receipts {
        var c :| c in choices && c.domain == key.domain;
        assert Key(client, c.domain) == key;
        } else {
        assert GrantAt(after, key) == GrantAt(before, key);
      }
    }
  }

  /** One request moves each chosen domain by at most one revision, exactly one unless it was already
      revoked, and never touches a neighbour. */
  lemma BatchAdvances(before: map<Key, Grant>, after: map<Key, Grant>, client: string, choices: seq<Choice>,
                      newId: string -> string, receipts: map<string, Receipt>, key: Key)
    requires Batch(before, after, client, choices, newId, receipts)
    requires forall c | c in choices :: Acceptable(before, client, c, false)
    ensures Revision(after, key) ==
            Revision(before, key) + if key.client == client && key.domain in receipts
              && receipts[key.domain].outcome != AlreadyRevoked then 1 else 0
    ensures key.client == client && key.domain in receipts ==>
              receipts[key.domain].grant == ProofOf(GrantAt(after, key)) && key in after
              && (receipts[key.domain].outcome != Approved <==> after[key].revoked)
  {
    if key.client == client && key.domain in receipts {
      var c :| c in choices && c.domain == key.domain;
      assert Key(client, c.domain) == key;
      assert Turns(GrantAt(before, key), c, newId(c.domain), GrantAt(after, key), receipts[c.domain]);
    } else {
      assert GrantAt(after, key) == GrantAt(before, key);
    }
  }

  /** A choice made on the grant as it was decides it: approval leaves it active, one revision on or new at
      revision 1; revocation leaves it revoked, one revision on, or as it is if it was revoked before; and the
      receipt says which, with the grant it left. */
  lemma BatchDecides(before: map<Key, Grant>, after: map<Key, Grant>, client: string, choices: seq<Choice>,
                     newId: string -> string, receipts: map<string, Receipt>, c: Choice)
    requires Batch(before, after, client, choices, newId, receipts) && c in choices
    requires Acceptable(before, client, c, false)
    ensures var key := Key(client, c.domain);
            && key in after && c.domain in receipts
            && receipts[c.domain].grant == Some(Proof(after[key].id, after[key].revision))
            && (if key in before then after[key].id == before[key].id
                else after[key].id == newId(c.domain) && after[key].revision == 1)
            && (c.decision == Approve ==>
                  && receipts[c.domain].outcome == Approved && !after[key].revoked
                  && (key in before ==> after[key].revision == before[key].revision + 1))
            && (c.decision == Revoke ==> key in before && after[key].revoked)
            && (c.decision == Revoke && !before[key].revoked ==>
                  receipts[c.domain].outcome == Revoked && after[key].revision == before[key].revision + 1)
            && (c.decision == Revoke && before[key].revoked ==>
                  receipts[c.domain].outcome == AlreadyRevoked && after[key] == before[key])
  {
    var key := Key(client, c.domain);
    assert Turns(GrantAt(before, key), c, newId(c.domain), GrantAt(after, key), receipts[c.domain]);
  }

  // ---------------------------------------------------------------------------------------
  // The single-grant form
  // ---------------------------------------------------------------------------------------

  datatype OwnerReceipt = OwnerReceipt(decision: Decision, revision: nat)

  /** One grant of one client: every new request writes it once, every retry reads its receipt. */
  class OwnerConsent {
    var writes: nat
    var grant: Option<Grant>
    var receipts: map<string, OwnerReceipt>

    /** Receipts, writes and the grant's revision count the same thing, and the receipts hold each
        revision once. */
    ghost predicate Valid()
      reads this
    {
      && |receipts| == writes
      && (if writes == 0 then grant.None? else grant.Some? && grant.value.revision == writes)
      && (forall id | id in receipts :: 1 <= receipts[id].revision <= writes)
      && (forall a, b | a in receipts && b in receipts && a != b :: receipts[a].revision != receipts[b].revision)
      && (forall id | id in receipts && receipts[id].revision == writes ::
            grant.value.revoked <==> receipts[id].decision.Revoke?)
    }

    constructor ()
      ensures Valid() && writes == 0
    {
      writes, grant, receipts := 0, None, map[];
    }

    method Post(requestId: string, decision: Decision, grantId: string) returns (receipt: OwnerReceipt)
      requires Valid()
      modifies this
      ensures Valid()
      ensures requestId in receipts && receipts[requestId] == receipt
      ensures requestId in old(receipts) ==> receipts == old(receipts) && grant == old(grant) && writes == old(writes)
      ensures requestId !in old(receipts) ==>
                && writes == old(writes) + 1 && receipts == old(receipts)[requestId := OwnerReceipt(decision, writes)]
                && grant == Some(Grant(grantId, writes, decision.Revoke?))
    {
      if requestId !in receipts {
        writes := writes + 1;
        grant := Some(Grant(grantId, writes, decision.Revoke?));
        assert |receipts.Keys + {requestId}| == |receipts.Keys| + 1;
        assert receipts[requestId := OwnerReceipt(decision, writes)].Keys == receipts.Keys + {requestId};
        receipts := receipts[requestId := OwnerReceipt(decision, writes)];
      }
      receipt := receipts[requestId];
    }
  }
}
