/** What revoking, adopting and expiring do to the broker and to the registry, principal by
    principal: who is changed, how, and what else goes with them. */
module Transitions {

  import opened Wrappers
  import opened Forest
  import opened RegistryModel
  import Expiry
  import opened BrokerModel
  import opened BrokerInvariant
  import opened SessionEffects
  import EnrollmentRequests

  // ---------- Sessions that are disconnected ----------

  /** Those of `ids` that are live are no sessions any more, and with them go their deliveries,
      their asks, the asks put to them and the answers remembered for or about them. */
  ghost predicate AreDisconnected(b: Broker, ids: set<Id>, b': Broker) {
    var live := ids * b.sessions.Keys;
    && b'.sessions == b.sessions - live && b'.connections == b.connections
    && b'.pending == b.pending - Ended(b.pending, live)
    && AreWithout(b'.edges, live, b.edges)
    && (forall k :: k in b'.recent <==>
      k in b.recent && k !in EndedKeys(b.pending, live) && b.recent[k].from !in live && b.recent[k].to !in live)
    && (forall k :: k in b'.recent ==> b'.recent[k] == b.recent[k])
  }

  lemma InvolvingAnyIsEnded(b: Broker, live: set<Id>)
    requires Inv(b)
    ensures InvolvingAny(b, live) == Ended(b.pending, live)
  {
    hide RecordsHold, AsksHold, Mirrors, Indexed, Capped, Bound;
  }

  /** What is remembered of the deliveries that end is about the sessions that end them. */
  lemma FailuresArePurged(b: Broker, live: set<Id>, recent: map<Key, Recent>, now: int)
    requires RemembersFailures(b, live, _ => RecipientDisconnected, now, recent)
    ensures forall k :: k in Purged(recent, live) <==>
      k in b.recent && k !in EndedKeys(b.pending, live) && b.recent[k].from !in live && b.recent[k].to !in live
    ensures forall k :: k in Purged(recent, live) ==> k in b.recent && Purged(recent, live)[k] == b.recent[k]
  {
    forall k | k in EndedKeys(b.pending, live) ensures k !in Purged(recent, live) {
      var d :| d in b.pending && Involves(b.pending[d], live) && b.pending[d].key == k;
    }
    hide EndedKeys;
  }

  lemma DisconnectingExactly(b: Broker, ids: set<Id>, now: int)
    requires Inv(b)
    ensures AreDisconnected(b, ids, Disconnect(b, ids, now)) && Disconnect(b, ids, now).registry == b.registry
  {
    hide Inv, FailAll, InvolvingAny, Ended, EndedAsks, EndedKeys, RemembersFailures, ClearEdgesOf, Purged;
    var live := ids * b.sessions.Keys;
    InvolvingAnyIsEnded(b, live);
    FailingAllOf(b, live, _ => RecipientDisconnected, now);
    var failed := FailAll(b, Ended(b.pending, live), _ => RecipientDisconnected, now);
    ClearingExactly(failed, live);
    FailuresArePurged(b, live, failed.recent, now);
    forall k | k in b.edges && k in EndedAsks(b.pending, live) { EndedAskTouches(b, live, k); }
  }

  // ---------- Whole subtrees ----------

  /** The principal `id` and all principals whose parents lead to it. */
  ghost function Branch(r: Registry, id: Id): set<Id> {
    set x | x in r.principals && id in r.principals && Below(map y | y in r.principals :: r.principals[y].parent, x, id)
  }

  lemma BranchExactly(r: Registry, id: Id)
    ensures Tree(r, id) == Branch(r, id)
  {
    assert ParentsOf(r) == map y | y in r.principals :: r.principals[y].parent;
    hide Below;
  }

  /** The principals of `ids` are revoked, one generation on, and nothing else has changed. */
  ghost predicate AreRevoked(r: Registry, ids: set<Id>, now: int, r': Registry) {
    && r'.enrollments == r.enrollments && r'.principals.Keys == r.principals.Keys
    && forall x :: x in r.principals ==>
      var p := r.principals[x];
      r'.principals[x] == if x in ids then p.(status := Revoked, generation := p.generation + 1, updatedAt := now) else p
  }

  /** Revoking a principal revokes it and everything below it, and disconnects whoever of them is
      connected. Revoking somebody unknown changes nothing. */
  lemma RevocationDecides(b: Broker, id: Id, now: int)
    requires Inv(b)
    ensures var b' := RevokeSubtree(b, id, now);
            && AreRevoked(b.registry, Branch(b.registry, id), now, b'.registry)
            && AreDisconnected(b, Branch(b.registry, id), b')
            && (id !in b.registry.principals ==> b'.registry == b.registry && b'.sessions == b.sessions)
  {
    hide Inv, Disconnect, Tree, Below, AreWithout, Ended, EndedKeys;
    BranchExactly(b.registry, id);
    DisconnectingExactly(b, Branch(b.registry, id), now);
  }

  // ---------- Adoption ----------

  /** The principals of `ids` are under the new root, one generation on, `id` directly below the
      new parent, and the tokens that any of them has handed out are gone. */
  ghost predicate AreMoved(r: Registry, ids: set<Id>, id: Id, newParent: Id, newRoot: Id, now: int, r': Registry) {
    && r'.principals.Keys == r.principals.Keys
    && (forall x :: x in r.principals ==>
      var p := r.principals[x];
      r'.principals[x] ==
        if x !in ids then p
        else if x == id then p.(parent := newParent, root := newRoot, generation := p.generation + 1, updatedAt := now)
        else p.(root := newRoot, generation := p.generation + 1, updatedAt := now))
    && (forall t :: t in r'.enrollments <==> t in r.enrollments && r.enrollments[t].template.parent !in ids)
    && (forall t :: t in r'.enrollments ==> r'.enrollments[t] == r.enrollments[t])
  }

  /** An adoption is refused for an unknown principal, for a new parent below it or equal to it,
      and for a new parent whose id is no clean text, in this order. */
  lemma AdoptionIsRefusedFor(r: Registry, id: Id, newParent: Id, newRoot: Id, now: int)
    ensures var (r', answer) := Adopt(r, id, newParent, newRoot, now);
            && (answer == Err(UnknownPrincipal) <==> id !in r.principals)
            && (answer == Err(OwnershipCycle) <==> id in r.principals && (newParent == id || newParent in Branch(r, id)))
            && (answer.Ok? <==>
              id in r.principals && newParent != id && newParent !in Branch(r, id) && EnrollmentRequests.IsClean(newParent, 512))
            && (answer.Ok? ==> answer.value == Branch(r, id) && AreMoved(r, Branch(r, id), id, newParent, newRoot, now, r'))
            && (answer.Err? ==> r' == r)
  {
    hide Tree, Branch, IsText, EnrollmentRequests.IsClean;
    BranchExactly(r, id);
    EnrollmentRequests.CleanExactly(newParent, 512);
  }

  /** The root under which a new parent would put a branch: a live local session is its own, an
      active principal has one. */
  function RootBelow(b: Broker, newParent: Id): Option<Id> {
    if newParent in b.sessions && b.sessions[newParent].origin == Local then Some(newParent)
    else if newParent in b.registry.principals && b.registry.principals[newParent].status == Active then
      Some(b.registry.principals[newParent].root)
    else None
  }

  /** A branch moves below a live local session or an active principal outside it, and then all of
      it is disconnected and has to come back with its new generation. Otherwise nothing changes. */
  lemma AdoptionDecides(b: Broker, id: Id, newParent: Id, now: int)
    requires Inv(b)
    ensures var b', root := AdoptSubtree(b, id, newParent, now), RootBelow(b, newParent);
            if root.Some? && id in b.registry.principals && newParent != id && newParent !in Branch(b.registry, id)
               && EnrollmentRequests.IsClean(newParent, 512)
            then AreMoved(b.registry, Branch(b.registry, id), id, newParent, root.value, now, b'.registry)
              && AreDisconnected(b, Branch(b.registry, id), b')
            else b' == b
  {
    hide Inv, Disconnect, Adopt, Branch, AreMoved, AreWithout, Ended, EndedKeys, EnrollmentRequests.IsClean;
    if MayAdopt(b, newParent) {
      AdoptionIsRefusedFor(b.registry, id, newParent, AdoptedRoot(b, newParent), now);
      DisconnectingExactly(b, Branch(b.registry, id), now);
    }
  }

  // ---------- Expiry ----------

  /** The principals whose own time is over, or that of one they stand below. */
  ghost function Overdue(r: Registry, now: int): set<Id> {
    set x | x in r.principals && exists due :: IsOverdue(r, due, now) && x in Branch(r, due)
  }

  predicate IsOverdue(r: Registry, id: Id, now: int) {
    id in r.principals && r.principals[id].status == Active && r.principals[id].expiresAt <= now
  }

  /** The principals of `ids` are revoked at a later generation; who they are, whose they are and
      what they were granted has not changed, nor has anything about anybody else. */
  ghost predicate AreExpired(r: Registry, ids: set<Id>, r': Registry) {
    && r'.enrollments == r.enrollments && r'.principals.Keys == r.principals.Keys
    && (forall x :: x in r.principals && x !in ids ==> r'.principals[x] == r.principals[x])
    && (forall x :: x in r.principals && x in ids ==>
      var p, p' := r.principals[x], r'.principals[x];
      p'.generation > p.generation && p' == p.(status := Revoked, generation := p'.generation, updatedAt := p'.updatedAt))
  }

  lemma {:induction false} SweepKeepsTheRest(r: Registry, order: seq<Id>, now: int)
    ensures var r' := Sweep(r, order, now).0;
            && r'.enrollments == r.enrollments && r'.principals.Keys == r.principals.Keys
            && forall x :: x in r.principals ==>
              var p, p' := r.principals[x], r'.principals[x];
              p' == p.(status := p'.status, generation := p'.generation, updatedAt := p'.updatedAt)
    decreases |order|
  {
    hide Tree;
    if order != [] { SweepKeepsTheRest(r, order[..|order| - 1], now); }
  }

  lemma SweepExpires(r: Registry, order: seq<Id>, now: int)
    requires IsSweepOrder(r, order, now)
    ensures var (r', changed) := Sweep(r, order, now); changed == Overdue(r, now) && AreExpired(r, Overdue(r, now), r')
  {
    hide Sweep, Tree, Branch, IsSweepOrder, Expiry.Swept;
    var changed := Sweep(r, order, now).1;
    Expiry.SweepIsExact(r, order, now);
    Expiry.SweepChangesTheUnion(r, order, now);
    Expiry.SweptArePrincipals(r, order);
    SweepKeepsTheRest(r, order, now);
    forall x | x in r.principals ensures x in changed <==> x in Overdue(r, now) {
      forall due { BranchExactly(r, due); }
      assert x in changed <==> exists due :: due in Due(r, now) && x in Branch(r, due);
    }
  }

  /** In whatever order by depth the due principals are taken, the sweep revokes them and
      everything below them, and disconnects whoever of these is connected. */
  lemma ExpirySweepDecides(b: Broker, order: seq<Id>, now: int)
    requires Inv(b) && IsSweepOrder(b.registry, order, now)
    ensures var b' := ReconcileExpired(b, order, now);
            AreExpired(b.registry, Overdue(b.registry, now), b'.registry) && AreDisconnected(b, Overdue(b.registry, now), b')
  {
    hide Inv, Disconnect, Sweep, Overdue, AreExpired, AreWithout, Ended, EndedKeys, IsSweepOrder;
    SweepExpires(b.registry, order, now);
    DisconnectingExactly(b, Overdue(b.registry, now), now);
  }
}
