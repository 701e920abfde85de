/** The broker as it runs (broker/broker.ts): tables updated in place, by loops that delete what
    they walk over, and shown to do exactly what the broker as a value does. */
module BrokerServer {

  import opened Wrappers
  import opened Forest
  import opened RegistryModel
  import opened Sets
  import RegistryRuns
  import opened AccessRegistry
  import opened Messages
  import opened BrokerModel
  import opened BrokerInvariant
  import opened BrokerSteps
  import BrokerRuns

  // ---------- Doing by one what the model does at once ----------

  ghost predicate CarriersListed(b: Broker) {
    b.history.carrier.Keys <= b.edges.Keys
  }

  lemma DropNothing(b: Broker, keys: set<Key>)
    requires CarriersListed(b) && b.disk == b.edges && keys !! b.edges.Keys
    ensures DropEdges(b, keys) == b
  {
    assert b.edges - keys == b.edges;
    assert (map k | k in b.history.carrier && k in b.edges :: b.history.carrier[k]) == b.history.carrier;
  }

  lemma SameEdges(b: Broker)
    requires CarriersListed(b) && b.disk == b.edges
    ensures WithEdges(b, b.edges) == b
  {
    assert (map k | k in b.history.carrier && k in b.edges :: b.history.carrier[k]) == b.history.carrier;
  }

  lemma DropTwice(b: Broker, first: set<Key>, second: set<Key>)
    ensures DropEdges(DropEdges(b, first), second) == DropEdges(b, first + second)
  {
    assert (b.edges - first) - second == b.edges - (first + second);
  }

  lemma FailingOne(b: Broker, d: DeliveryId)
    requires Indexed(b.pending, b.pendingKeys)
    ensures Failing(b, {d}) == if d in b.pending then {b.pending[d].key} else {}
    ensures FailingAsks(b, {d}) == if d in b.pending && b.pending[d].message.IsAsk() then {b.pending[d].key} else {}
  {}

  lemma FailingOneMore(b: Broker, victims: set<DeliveryId>, d: DeliveryId)
    requires Indexed(b.pending, b.pendingKeys)
    ensures Failing(b, victims + {d}) == Failing(b, victims) + Failing(b, {d})
    ensures FailingAsks(b, victims + {d}) == FailingAsks(b, victims) + FailingAsks(b, {d})
  {}

  lemma TablesDoNotMatter(b: Broker, b': Broker, keys: set<Key>)
    requires b' == b.(pending := b'.pending, pendingKeys := b'.pendingKeys)
    ensures AsksSaved(b) ==> AsksSaved(b')
    ensures DropEdges(b', keys) == DropEdges(b, keys).(pending := b'.pending, pendingKeys := b'.pendingKeys)
    ensures var h := DropEdges(b, keys).history;
            DropEdges(b, keys).recent == b.recent && h.failed == b.history.failed && h.delivered == b.history.delivered
  {}

  /** What failing one delivery does, table after table, when the pending tables are inverse. */
  lemma FailOne(b: Broker, d: DeliveryId, code: FailureCode, now: int)
    requires Indexed(b.pending, b.pendingKeys) && d in b.pending
    ensures var p := b.pending[d];
            var taken := b.(pending := b.pending - {d}, pendingKeys := b.pendingKeys - {p.key});
            var dropped := DropEdges(taken, if p.message.IsAsk() then {p.key} else {});
            FailDelivery(b, d, code, now) ==
            dropped.(recent := dropped.recent[p.key := Answer(p, true, DeliveryFailed(code), now)],
                     history := dropped.history.(failed := dropped.history.failed + {d}))
  {
    hide Failing, FailingAsks, FailureAnswers, Indexed, DropEdges;
    FailingOne(b, d);
    OneAnswer(b, d, _ => code, now);
    var p := b.pending[d];
    TablesDoNotMatter(b, b.(pending := b.pending - {d}, pendingKeys := b.pendingKeys - {p.key}), FailingAsks(b, {d}));
  }

  lemma OneAnswer(b: Broker, d: DeliveryId, code: Delivery -> FailureCode, now: int)
    requires Indexed(b.pending, b.pendingKeys)
    ensures d !in b.pending ==> FailureAnswers(b, {d}, code, now) == map[] && {d} * b.pending.Keys == {}
    ensures d in b.pending ==>
      var p := b.pending[d];
      && b.recent + FailureAnswers(b, {d}, code, now) == b.recent[p.key := Answer(p, true, DeliveryFailed(code(p)), now)]
      && {d} * b.pending.Keys == {d}
  {
    FailingOne(b, d);
    if d in b.pending { assert b.pendingKeys[b.pending[d].key] == d; }
    hide Failing;
  }

  /** The same, with the asks untouched when no ask was carried. */
  lemma FailOneSaved(b: Broker, d: DeliveryId, code: FailureCode, now: int)
    requires Indexed(b.pending, b.pendingKeys) && AsksSaved(b) && d in b.pending
    ensures var p := b.pending[d];
            var taken := b.(pending := b.pending - {d}, pendingKeys := b.pendingKeys - {p.key});
            var dropped := if p.message.IsAsk() then DropEdges(taken, {p.key}) else taken;
            && AsksSaved(taken)
            && FailDelivery(b, d, code, now) ==
               dropped.(recent := dropped.recent[p.key := Answer(p, true, DeliveryFailed(code), now)],
                        history := dropped.history.(failed := dropped.history.failed + {d}))
  {
    FailOne(b, d, code, now);
    var taken := b.(pending := b.pending - {d}, pendingKeys := b.pendingKeys - {b.pending[d].key});
    hide FailDelivery, Indexed;
    TablesDoNotMatter(b, taken, {});
    DropNothing(taken, {});
    hide DropEdges;
  }

  lemma AcknowledgeOne(b: Broker, d: DeliveryId, now: int)
    requires d in b.pending
    ensures var p := b.pending[d];
            var taken := b.(pending := b.pending - {d}, pendingKeys := b.pendingKeys - {p.key});
            var dropped := if p.message.replyTo.Some? then DropEdges(taken, {Key(p.to, p.message.replyTo.value)}) else taken;
            Acknowledge(b, d, now) ==
            dropped.(recent := dropped.recent[p.key := Answer(p, false, Delivered(d), now)],
                     history := dropped.history.(delivered := dropped.history.delivered + {d}))
  {
    var p := b.pending[d];
    if p.message.replyTo.Some? {
      TablesDoNotMatter(b, b.(pending := b.pending - {d}, pendingKeys := b.pendingKeys - {p.key}), {Key(p.to, p.message.replyTo.value)});
    }
    hide DropEdges;
  }

  lemma NobodyFails(b: Broker, code: Delivery -> FailureCode, now: int)
    ensures Failing(b, {}) == {} && FailingAsks(b, {}) == {} && FailureAnswers(b, {}, code, now) == map[]
  {}

  lemma NothingTaken(b: Broker)
    ensures b.pendingKeys - {} == b.pendingKeys && b.pending - {} == b.pending
    ensures forall none: map<Key, Recent> :: none == map[] ==> b.recent + none == b.recent
    ensures b.history.failed + {} * b.pending.Keys == b.history.failed
  {}

  lemma FailNone(b: Broker, code: Delivery -> FailureCode, now: int)
    requires CarriersListed(b) && b.disk == b.edges
    ensures FailAll(b, {}, code, now) == b
  {
    DropNothing(b, {});
    NobodyFails(b, code, now);
    hide Failing, FailingAsks, FailureAnswers, DropEdges;
    NothingTaken(b);
  }

  lemma FailAbsent(b: Broker, d: DeliveryId, code: FailureCode, now: int)
    requires CarriersListed(b) && b.disk == b.edges && Indexed(b.pending, b.pendingKeys) && d !in b.pending
    ensures FailDelivery(b, d, code, now) == b
  {
    FailNone(b, _ => code, now);
    NobodyFails(b, _ => code, now);
    FailingOne(b, d);
    OneAnswer(b, d, _ => code, now);
    assert b.pending - {d} == b.pending - {} && {} * b.pending.Keys == {};
    hide Failing, FailingAsks, FailureAnswers, DropEdges, Indexed, CarriersListed;
  }

  /** Failing one more delivery of a table that is walked over. */
  lemma FailOneMore(b: Broker, victims: set<DeliveryId>, code: Delivery -> FailureCode, d: DeliveryId, now: int)
    requires Indexed(b.pending, b.pendingKeys) && d in b.pending && d !in victims
    ensures FailDelivery(FailAll(b, victims, code, now), d, code(b.pending[d]), now) == FailAll(b, victims + {d}, code, now)
  {
    var mid, p := FailAll(b, victims, code, now), b.pending[d];
    FailAllEffect(b, victims, code, now);
    FewerPendingIndexed(b.pending, b.pendingKeys, victims);
    FailOne(mid, d, code(p), now);
    FailingOne(b, d);
    FailingOneMore(b, victims, d);
    FailureAnswersOneMore(b, victims, code, d, now);
    DropTwice(b, FailingAsks(b, victims), FailingAsks(b, {d}));
    hide Failing, FailingAsks, FailureAnswers, DropEdges, Indexed, FailDelivery, EdgesGone, FewerEdges;
    TablesOneMore(b, victims, d, Failing(b, victims), p.key, FailureAnswers(b, victims, code, now), Answer(p, true, DeliveryFailed(code(p)), now));
  }

  lemma TablesOneMore(b: Broker, victims: set<DeliveryId>, d: DeliveryId, failing: set<Key>, k: Key, answers: map<Key, Recent>, r: Recent)
    requires d in b.pending
    ensures (b.pending - victims) - {d} == b.pending - (victims + {d})
    ensures (b.pendingKeys - failing) - {k} == b.pendingKeys - (failing + {k})
    ensures (b.recent + answers)[k := r] == b.recent + answers[k := r]
    ensures (b.history.failed + victims * b.pending.Keys) + {d} == b.history.failed + (victims + {d}) * b.pending.Keys
  {}

  lemma FailureAnswersOneMore(b: Broker, victims: set<DeliveryId>, code: Delivery -> FailureCode, d: DeliveryId, now: int)
    requires Indexed(b.pending, b.pendingKeys) && d in b.pending
    ensures var p := b.pending[d];
            FailureAnswers(b, victims + {d}, code, now) ==
            FailureAnswers(b, victims, code, now)[p.key := Answer(p, true, DeliveryFailed(code(p)), now)]
  {
    FailingOne(b, d);
    FailingOneMore(b, victims, d);
    assert b.pendingKeys[b.pending[d].key] == d;
    hide Failing;
  }

  // ---------- Disconnecting one principal after another ----------

  function PendingOf(pending: map<DeliveryId, Delivery>, ids: set<Id>): set<DeliveryId> {
    set d | d in pending && (pending[d].from in ids || pending[d].to in ids)
  }

  function EdgesWithout(b: Broker, ids: set<Id>): map<Key, AskEdge> {
    map k | k in b.edges && k !in FailingAsks(b, PendingOf(b.pending, ids)) && !Touches(b.edges[k], ids) :: b.edges[k]
  }

  function RecentWithout(b: Broker, ids: set<Id>): map<Key, Recent> {
    Purged(b.recent - Failing(b, PendingOf(b.pending, ids)), ids)
  }

  /** What is left when the live sessions `ids` are disconnected. */
  function Without(b: Broker, ids: set<Id>): Broker {
    var b' := WithEdges(b, EdgesWithout(b, ids));
    b'.(pending := b.pending - PendingOf(b.pending, ids),
        pendingKeys := b.pendingKeys - Failing(b, PendingOf(b.pending, ids)),
        sessions := b.sessions - ids,
        recent := RecentWithout(b, ids),
        history := b'.history.(failed := b.history.failed + PendingOf(b.pending, ids)))
  }

  lemma AnswersArePurged(recent: map<Key, Recent>, answers: map<Key, Recent>, ids: set<Id>)
    requires forall k :: k in answers ==> answers[k].from in ids || answers[k].to in ids
    ensures Purged(recent + answers, ids) == Purged(recent - answers.Keys, ids)
  {}

  lemma RecentOfVictimsPurged(b: Broker, ids: set<Id>, code: Delivery -> FailureCode, now: int, failed: Broker)
    requires failed.recent == b.recent + FailureAnswers(b, PendingOf(b.pending, ids), code, now)
    ensures PurgeRecentOf(failed, ids).recent == RecentWithout(b, ids)
  {
    var answers := FailureAnswers(b, PendingOf(b.pending, ids), code, now);
    assert answers.Keys == Failing(b, PendingOf(b.pending, ids));
    assert forall k :: k in answers ==> answers[k].from in ids || answers[k].to in ids;
    hide FailureAnswers, Failing, PendingOf, Purged;
    AnswersArePurged(b.recent, answers, ids);
  }

  lemma EdgesOfVictimsCleared(b: Broker, ids: set<Id>, failed: Broker)
    requires failed.edges == b.edges - FailingAsks(b, PendingOf(b.pending, ids))
    ensures failed.edges - (set k | k in failed.edges && Touches(failed.edges[k], ids)) == EdgesWithout(b, ids)
  {
    hide FailingAsks, Touches;
  }

  lemma WithEdgesTwice(b: Broker, first: map<Key, AskEdge>, second: map<Key, AskEdge>)
    requires second.Keys <= first.Keys
    ensures WithEdges(WithEdges(b, first), second) == WithEdges(b, second)
  {}

  lemma DisconnectIs(b: Broker, ids: set<Id>, code: Delivery -> FailureCode, now: int)
    ensures PurgeRecentOf(RemoveSessions(ClearEdgesOf(FailAll(b, PendingOf(b.pending, ids), code, now), ids), ids), ids) == Without(b, ids)
  {
    var failed := FailAll(b, PendingOf(b.pending, ids), code, now);
    RecentOfVictimsPurged(b, ids, code, now, failed);
    EdgesOfVictimsCleared(b, ids, failed);
    WithEdgesTwice(b, failed.edges, EdgesWithout(b, ids));
    assert PendingOf(b.pending, ids) * b.pending.Keys == PendingOf(b.pending, ids);
    hide PendingOf, Failing, FailingAsks, FailureAnswers, EdgesWithout, RecentWithout;
  }

  lemma PendingOfTwice(b: Broker, ids: set<Id>, more: set<Id>)
    requires Indexed(b.pending, b.pendingKeys)
    ensures var mid := Without(b, ids);
            && PendingOf(b.pending, ids) + PendingOf(mid.pending, more) == PendingOf(b.pending, ids + more)
            && Failing(b, PendingOf(b.pending, ids)) + Failing(mid, PendingOf(mid.pending, more)) == Failing(b, PendingOf(b.pending, ids + more))
            && FailingAsks(b, PendingOf(b.pending, ids)) + FailingAsks(mid, PendingOf(mid.pending, more))
               == FailingAsks(b, PendingOf(b.pending, ids + more))
  {
    hide WithEdges, RecentWithout, EdgesWithout;
  }

  lemma EdgesWithoutTwice(b: Broker, ids: set<Id>, more: set<Id>)
    requires Indexed(b.pending, b.pendingKeys)
    ensures EdgesWithout(Without(b, ids), more) == EdgesWithout(b, ids + more)
  {
    PendingOfTwice(b, ids, more);
    hide FailingAsks, PendingOf, Failing, RecentWithout, Indexed;
  }

  lemma RecentWithoutTwice(b: Broker, ids: set<Id>, more: set<Id>)
    requires Indexed(b.pending, b.pendingKeys)
    ensures RecentWithout(Without(b, ids), more) == RecentWithout(b, ids + more)
  {
    PendingOfTwice(b, ids, more);
    hide FailingAsks, PendingOf, Failing, EdgesWithout, WithEdges, Indexed;
  }

  lemma WithoutTwice(b: Broker, ids: set<Id>, more: set<Id>)
    requires Indexed(b.pending, b.pendingKeys)
    ensures Without(Without(b, ids), more) == Without(b, ids + more)
  {
    hide PendingOf, Failing, FailingAsks, EdgesWithout, RecentWithout, Indexed;
    PendingOfTwice(b, ids, more);
    EdgesWithoutTwice(b, ids, more);
    RecentWithoutTwice(b, ids, more);
    FewerEdgesWithout(b, ids, more);
    WithEdgesTwice(b, EdgesWithout(b, ids), EdgesWithout(b, ids + more));
  }

  lemma FewerEdgesWithout(b: Broker, ids: set<Id>, more: set<Id>)
    requires Indexed(b.pending, b.pendingKeys)
    ensures EdgesWithout(b, ids + more).Keys <= EdgesWithout(b, ids).Keys
  {
    hide FailingAsks, PendingOf, Failing, RecentWithout, Indexed;
    EdgesWithoutTwice(b, ids, more);
  }

  lemma OneMoreToGo(b: Broker, live: set<Id>, id: Id)
    requires OnSockets(b.pending, b.sessions) && id in b.sessions && id !in live
    ensures var mid := Without(b, live);
            id in mid.sessions && Involving(mid.pending, id, mid.sessions[id].socket) == PendingOf(mid.pending, {id})
  {
    hide Failing, FailingAsks, EdgesWithout, RecentWithout, WithEdges;
  }

  /** Disconnecting one more of the changed principals, one whole socket at a time. */
  lemma DisconnectOneMore(b: Broker, done: set<Id>, id: Id, now: int)
    requires Indexed(b.pending, b.pendingKeys) && OnSockets(b.pending, b.sessions)
    requires id in b.sessions && id !in done
    ensures var mid := Disconnect(b, done, now);
            && id in mid.sessions
            && PurgeRecentOf(RemoveSessions(ClearEdgesOf(ClearPending(mid, id, mid.sessions[id].socket, now), {id}), {id}), {id})
               == Disconnect(b, done + {id}, now)
  {
    var live := done * b.sessions.Keys;
    assert (done + {id}) * b.sessions.Keys == live + {id};
    DisconnectIsWithout(b, done, now);
    DisconnectIsWithout(b, done + {id}, now);
    OneMoreToGo(b, live, id);
    var mid := Without(b, live);
    hide OnSockets, Without, Disconnect, FailAll, Involving, Indexed, ClearEdgesOf, RemoveSessions, PurgeRecentOf, PendingOf;
    WithoutTwice(b, live, {id});
    var socket := mid.sessions[id].socket;
    DisconnectIs(mid, {id}, (p: Delivery) => if p.to == id && p.recipientSocket == socket then RecipientDisconnected else SenderDisconnected, now);
  }

  lemma DisconnectIsWithout(b: Broker, changed: set<Id>, now: int)
    requires OnSockets(b.pending, b.sessions)
    ensures Disconnect(b, changed, now) == Without(b, changed * b.sessions.Keys)
  {
    var live := changed * b.sessions.Keys;
    assert InvolvingAny(b, live) == PendingOf(b.pending, live);
    hide InvolvingAny, PendingOf, FailAll, Without;
    DisconnectIs(b, live, _ => RecipientDisconnected, now);
  }

  // ---------- As much of the invariant as holds in the middle of a handler ----------

  ghost predicate AsksSaved(b: Broker) {
    b.disk == b.edges && CarriersListed(b)
  }

  ghost predicate Consistent(b: Broker) {
    && Indexed(b.pending, b.pendingKeys) && AsksSaved(b)
    && (forall d :: d in b.pending ==> WellDescribed(b.pending[d]))
  }

  lemma InvIsConsistent(b: Broker)
    requires Inv(b)
    ensures Consistent(b) && AsksSaved(b) && OnSockets(b.pending, b.sessions)
  {
    hide OnSockets, Capped, Bound, CacheSound, EdgesShaped, BlockingOnSockets, MutualWaitsResolve, Mirrors;
    forall d | d in b.pending ensures WellDescribed(b.pending[d]) {
      assert b.history.accepted[d] == b.pending[d];
    }
  }

  lemma FailAllKeepsConsistent(b: Broker, victims: set<DeliveryId>, code: Delivery -> FailureCode, now: int)
    requires Consistent(b)
    ensures Consistent(FailAll(b, victims, code, now))
  {
    FailAllEffect(b, victims, code, now);
    FewerPendingIndexed(b.pending, b.pendingKeys, victims);
    hide Failing, FailingAsks, FailureAnswers, Indexed;
  }

  lemma PruneTouchesRecent(b: Broker, now: int)
    requires Consistent(b)
    ensures Prune(b, now) == b.(recent := Prune(b, now).recent)
    ensures forall recent :: Consistent(b.(recent := recent))
  {}

  lemma OnlyMember<T(!new)>(s: set<T>, x: T)
    requires x in s && |s| == 1
    ensures Only(s) == x
  {
    if Only(s) != x { SubsetIsSmaller({x, Only(s)}, s); }
  }

  /** The ask is the session's own, whatever socket it came over. */
  predicate OwnAsk(b: Broker, id: Id, messageId: MessageId) {
    Key(id, messageId) in b.edges && b.edges[Key(id, messageId)].from == id
  }

  lemma FailAbsentIfSo(b: Broker, d: DeliveryId, code: FailureCode, now: int)
    requires Consistent(b)
    ensures d !in b.pending ==> FailDelivery(b, d, code, now) == b
  {
    if d !in b.pending { FailAbsent(b, d, code, now); }
  }

  /** An adoption as the registry reports it: the principals it moved, if it moved any. */
  ghost function Moved(s: Registry, id: Id, newParent: Id, newRoot: Id, now: int): (Registry, Option<set<Id>>) {
    var (registry, outcome) := Adopt(s, id, newParent, newRoot, now);
    (registry, if outcome.Ok? then Some(outcome.value) else None)
  }

  lemma DisconnectKeepsConsistent(b: Broker, changed: set<Id>, now: int)
    requires Consistent(b)
    ensures Consistent(Disconnect(b, changed, now))
  {
    var live := changed * b.sessions.Keys;
    FailAllKeepsConsistent(b, InvolvingAny(b, live), _ => RecipientDisconnected, now);
    hide FailAll, Indexed, InvolvingAny;
  }

  lemma NobodyInvolved(b: Broker)
    ensures InvolvingAny(b, {}) == {}
    ensures (set k | k in b.edges && Touches(b.edges[k], {})) == {}
    ensures PurgeRecentOf(b, {}) == b
    ensures RemoveSessions(b, {}) == b
  {
    assert PurgeRecentOf(b, {}).recent == b.recent;
    assert b.sessions - {} == b.sessions;
  }

  lemma DisconnectNone(b: Broker, now: int)
    requires Consistent(b)
    ensures Disconnect(b, {}, now) == b
  {
    hide FailAll, InvolvingAny, PurgeRecentOf, RemoveSessions, Touches, DropEdges, CarriersListed, Indexed;
    var none: set<Id> := {};
    assert none * b.sessions.Keys == none;
    NobodyInvolved(b);
    FailNone(b, _ => RecipientDisconnected, now);
    DropNothing(b, {});
  }

  lemma DisconnectedAreGone(b: Broker, done: set<Id>, id: Id, now: int)
    ensures Disconnect(b, done, now).sessions == b.sessions - done * b.sessions.Keys
    ensures id !in b.sessions ==> Disconnect(b, done + {id}, now) == Disconnect(b, done, now)
  {
    if id !in b.sessions { assert (done + {id}) * b.sessions.Keys == done * b.sessions.Keys; }
  }

  /** Disconnecting neither reads nor writes the registry. */
  lemma RegistryDoesNotMatter(b: Broker, registry: Registry, changed: set<Id>, now: int)
    requires Consistent(b)
    ensures Disconnect(b.(registry := registry), changed, now) == Disconnect(b, changed, now).(registry := registry)
    ensures Consistent(b.(registry := registry))
  {
    var b' := b.(registry := registry);
    var live := changed * b.sessions.Keys;
    assert InvolvingAny(b', live) == InvolvingAny(b, live);
    FailAllIgnores(b, b', InvolvingAny(b, live), _ => RecipientDisconnected, now);
    var failed := FailAll(b, InvolvingAny(b, live), _ => RecipientDisconnected, now);
    hide FailAll, InvolvingAny, Consistent;
    assert ClearEdgesOf(failed.(registry := registry), live) == ClearEdgesOf(failed, live).(registry := registry);
    hide ClearEdgesOf;
    assert forall x: Broker :: PurgeRecentOf(x.(registry := registry), live) == PurgeRecentOf(x, live).(registry := registry);
  }

  /** Failing deliveries neither reads nor writes the registry and the sessions. */
  lemma FailAllIgnores(b: Broker, b': Broker, victims: set<DeliveryId>, code: Delivery -> FailureCode, now: int)
    requires b' == b.(registry := b'.registry, sessions := b'.sessions)
    ensures FailAll(b', victims, code, now) == FailAll(b, victims, code, now).(registry := b'.registry, sessions := b'.sessions)
  {
    assert Failing(b', victims) == Failing(b, victims);
    assert FailingAsks(b', victims) == FailingAsks(b, victims);
    assert FailureAnswers(b', victims, code, now) == FailureAnswers(b, victims, code, now);
    hide Failing, FailingAsks, FailureAnswers;
  }

  lemma DropNothingUnless(b: Broker, k: Key)
    requires Consistent(b)
    ensures k !in b.edges ==> DropEdges(b, {k}) == b
  {
    if k !in b.edges { DropNothing(b, {k}); }
  }

  lemma ClearPendingKeepsConsistent(b: Broker, id: Id, socket: Socket, now: int)
    requires Consistent(b)
    ensures Consistent(ClearPending(b, id, socket, now)) && AsksSaved(ClearPending(b, id, socket, now))
  {
    hide FailAll;
    FailAllKeepsConsistent(b, Involving(b.pending, id, socket),
      (p: Delivery) => if p.to == id && p.recipientSocket == socket then RecipientDisconnected else SenderDisconnected, now);
  }

  lemma ClearPendingFrame(b: Broker, id: Id, socket: Socket, now: int)
    ensures var b' := ClearPending(b, id, socket, now);
            b'.sessions == b.sessions && b'.connections == b.connections && b'.registry == b.registry
  {}

  lemma DeferEdgesFrame(b: Broker, id: Id)
    ensures var b' := DeferEdgesOf(b, id);
            b'.sessions == b.sessions && b'.connections == b.connections && b'.registry == b.registry
  {}

  /** The session may be removed before its deliveries and asks are dealt with. */
  lemma SessionsDoNotMatter(b: Broker, sessions: map<Id, Session>, id: Id, socket: Socket, preserveAsks: bool, now: int)
    requires Consistent(b) && sessions == b.sessions - {id}
    ensures var early := b.(sessions := sessions);
            && Consistent(early)
            && Leave(b, id, socket, preserveAsks, now) ==
               if preserveAsks then DeferEdgesOf(ClearPending(early, id, socket, now), id)
               else ClearEdgesOf(ClearPending(early, id, socket, now), {id})
  {
    var early := b.(sessions := sessions);
    var code := (p: Delivery) => if p.to == id && p.recipientSocket == socket then RecipientDisconnected else SenderDisconnected;
    FailAllIgnores(b, early, Involving(b.pending, id, socket), code, now);
    hide FailAll, Involving, DeferEdgesOf, ClearEdgesOf;
    assert ClearPending(b, id, socket, now).sessions == b.sessions by { ClearPendingFrame(b, id, socket, now); }
  }

  lemma TakeOne<T>(all: set<T>, rest: set<T>, x: T)
    requires x in rest
    ensures all - (rest - {x}) == if x in all then all - rest + {x} else all - rest
  {}

  /** The edges of a session deferred, but for those in `rest`. */
  function DeferredBut(edges: map<Key, AskEdge>, id: Id, rest: set<Key>): map<Key, AskEdge> {
    map k | k in edges :: if Touches(edges[k], {id}) && k !in rest then edges[k].(state := Deferred) else edges[k]
  }

  lemma DeferredButEnds(b: Broker, id: Id)
    ensures DeferredBut(b.edges, id, b.edges.Keys) == b.edges
    ensures WithEdges(b, DeferredBut(b.edges, id, {})) == DeferEdgesOf(b, id)
  {}

  lemma DeferOneMore(edges: map<Key, AskEdge>, id: Id, rest: set<Key>, k: Key)
    requires k in rest && rest <= edges.Keys
    ensures DeferredBut(edges, id, rest).Keys == edges.Keys && DeferredBut(edges, id, rest)[k] == edges[k]
    ensures DeferredBut(edges, id, rest - {k}) ==
            DeferredBut(edges, id, rest)[k := if edges[k].from == id || edges[k].to == id then edges[k].(state := Deferred) else edges[k]]
  {}

  lemma ConsistentIsIndexed(b: Broker)
    requires Consistent(b)
    ensures Indexed(b.pending, b.pendingKeys)
  {}

  class IntercomBroker {
    const accessRegistry: RemoteAccessRegistry
    const host: Host
    var connections: map<Socket, Connection>
    var sessions: map<Id, Session>
    var askEdges: map<Key, AskEdge>
    var pendingDeliveries: map<DeliveryId, Delivery>
    var pendingDeliveryKeys: map<Key, DeliveryId>
    var recentDeliveries: map<Key, Recent>
    var askState: map<Key, AskEdge>    // the asks as last written to disk
    ghost var history: History

    ghost function State(): Broker
      reads this, accessRegistry
    {
      Broker(accessRegistry.State(), connections, sessions, askEdges, pendingDeliveries, pendingDeliveryKeys,
        recentDeliveries, askState, history)
    }

    ghost predicate Valid()
      reads this, accessRegistry
    {
      accessRegistry.Valid() && Inv(State())
    }

    /** A broker that starts from what the one before it, `was`, left on disk. */
    constructor (registry: RemoteAccessRegistry, host: Host, saved: map<Key, AskEdge>, now: int, ghost was: Broker)
      requires registry.Valid() && registry.State() == was.registry
      requires Inv(was) && saved == was.disk
      ensures accessRegistry == registry && this.host == host
      ensures Valid() && State() == Restart(was, now)
    {
      hide Inv, Restored, RootsAreText, RegistryRuns.Keyed;
      accessRegistry, this.host := registry, host;
      connections, sessions, pendingDeliveries, pendingDeliveryKeys, recentDeliveries := map[], map[], map[], map[], map[];
      askEdges, askState := map[], saved;
      history := was.history.(lost := was.history.lost + was.pending.Keys, carrier := map[]);
      new;
      LoadAskEdges(saved, now);
      assert history.carrier == map[];
      RestartKeeps(was, now);
    }

    // ---------- Asks ----------

    /** Edges whose time is over are not loaded, the others wait as deferred asks. */
    method LoadAskEdges(saved: map<Key, AskEdge>, now: int)
      requires askEdges == map[]
      modifies this`askEdges, this`askState, this`history
      ensures State() == WithEdges(old(State()), Restored(saved, now))
    {
      var rest := saved.Keys;
      while rest != {}
        invariant rest <= saved.Keys && askState == old(askState) && history == old(history)
        invariant askEdges == map k | k in Restored(saved, now) && k !in rest :: Restored(saved, now)[k]
        decreases rest
      {
        var key :| key in rest;
        rest := rest - {key};
        var edge := saved[key];
        if edge.expiresAt > now {
          askEdges := askEdges[key := edge.(state := Deferred)];
        }
      }
      assert askEdges == Restored(saved, now);
      PersistAskEdges();
    }

    /** Writes the asks to disk; the bookkeeping forgets the carriers of edges that are gone. */
    method PersistAskEdges()
      modifies this`askState, this`history
      ensures askState == askEdges && history == WithEdges(old(State()), askEdges).history
    {
      askState := askEdges;
      history := WithEdges(State(), askEdges).history;
    }

    method RemoveAskEdge(key: Key)
      requires AsksSaved(State())
      modifies this`askEdges, this`askState, this`history
      ensures State() == DropEdges(old(State()), {key})
    {
      if key !in askEdges {
        DropNothing(State(), {key});
        return;
      }
      askEdges := askEdges - {key};
      PersistAskEdges();
    }

    method ClearAskEdgesForSession(sessionId: Id)
      requires AsksSaved(State())
      modifies this`askEdges, this`askState, this`history
      ensures State() == ClearEdgesOf(old(State()), {sessionId})
    {
      ghost var s := State();
      ghost var touching := set k | k in askEdges && Touches(askEdges[k], {sessionId});
      var changed, rest := false, askEdges.Keys;
      while rest != {}
        invariant rest <= askEdges.Keys && askState == s.disk && history == s.history
        invariant askEdges == s.edges - (touching - rest)
        invariant !changed ==> askEdges == s.edges
        decreases rest
      {
        var key :| key in rest;
        rest := rest - {key};
        if askEdges[key].from == sessionId || askEdges[key].to == sessionId {
          askEdges := askEdges - {key};
          changed := true;
        }
      }
      assert touching - rest == touching;
      hide Touches;
      if changed { PersistAskEdges(); } else { SameEdges(s); }
    }

    method DeferAskEdgesForSession(sessionId: Id)
      requires AsksSaved(State())
      modifies this`askEdges, this`askState, this`history
      ensures State() == DeferEdgesOf(old(State()), sessionId)
    {
      hide CarriersListed, DeferredBut;
      ghost var s := State();
      DeferredButEnds(s, sessionId);
      var changed, rest := false, askEdges.Keys;
      while rest != {}
        invariant rest <= s.edges.Keys == askEdges.Keys && askState == s.disk && history == s.history
        invariant askEdges == DeferredBut(s.edges, sessionId, rest) && (!changed ==> askEdges == s.edges)
        decreases rest
      {
        var key :| key in rest;
        DeferOneMore(s.edges, sessionId, rest, key);
        rest := rest - {key};
        var edge := askEdges[key];
        if (edge.from == sessionId || edge.to == sessionId) && edge.state == Blocking {
          askEdges := askEdges[key := edge.(state := Deferred)];
          changed := true;
        }
      }
      hide Touches;
      if changed { PersistAskEdges(); } else { SameEdges(s); }
    }

    method CountAskEdgesFrom(sessionId: Id) returns (count: nat)
      ensures count == |EdgesFrom(askEdges, sessionId)|
    {
      count := 0;
      var rest := askEdges.Keys;
      ghost var counted: set<Key> := {};
      while rest != {}
        invariant rest <= askEdges.Keys && count == |counted|
        invariant counted == set k | k in EdgesFrom(askEdges, sessionId) && k !in rest
        decreases rest
      {
        var key :| key in rest;
        rest := rest - {key};
        if askEdges[key].from == sessionId {
          count := count + 1;
          counted := counted + {key};
        }
      }
      assert counted == EdgesFrom(askEdges, sessionId);
    }

    // ---------- Deliveries ----------

    method CountPendingDeliveriesFrom(sessionId: Id) returns (count: nat)
      ensures count == |PendingFrom(pendingDeliveries, sessionId)|
    {
      count := 0;
      var rest := pendingDeliveries.Keys;
      ghost var counted: set<DeliveryId> := {};
      while rest != {}
        invariant rest <= pendingDeliveries.Keys && count == |counted|
        invariant counted == set d | d in PendingFrom(pendingDeliveries, sessionId) && d !in rest
        decreases rest
      {
        var d :| d in rest;
        rest := rest - {d};
        if pendingDeliveries[d].from == sessionId {
          count := count + 1;
          counted := counted + {d};
        }
      }
      assert counted == PendingFrom(pendingDeliveries, sessionId);
    }

    method FailPendingDelivery(deliveryId: DeliveryId, code: FailureCode, now: int)
      requires Consistent(State())
      modifies this`askEdges, this`askState, this`pendingDeliveries, this`pendingDeliveryKeys, this`recentDeliveries, this`history
      ensures State() == FailDelivery(old(State()), deliveryId, code, now)
    {
      hide FailDelivery, Indexed, DropEdges, CarriersListed;
      ghost var s := State();
      if deliveryId !in pendingDeliveries {
        FailAbsent(s, deliveryId, code, now);
        return;
      }
      FailOneSaved(s, deliveryId, code, now);
      var pending := pendingDeliveries[deliveryId];
      ghost var taken := s.(pending := s.pending - {deliveryId}, pendingKeys := s.pendingKeys - {pending.key});
      pendingDeliveries := pendingDeliveries - {deliveryId};
      pendingDeliveryKeys := pendingDeliveryKeys - {pending.key};
      assert State() == taken;
      if pending.message.IsAsk() { RemoveAskEdge(Key(pending.from, pending.message.id)); }
      recentDeliveries := recentDeliveries[pending.key :=
        Recent(pending.fingerprint, pending.from, pending.to, pending.action, pending.fromGeneration, pending.toGeneration,
          true, DeliveryFailed(code), now + RECENT_DELIVERY_TTL_MS)];
      history := history.(failed := history.failed + {deliveryId});
    }

    /** Walks over the deliveries that were pending at the start, while failing some of them. */
    method ClearPendingDeliveriesForSession(sessionId: Id, socket: Socket, now: int)
      requires Consistent(State())
      modifies this`askEdges, this`askState, this`pendingDeliveries, this`pendingDeliveryKeys, this`recentDeliveries, this`history
      ensures State() == ClearPending(old(State()), sessionId, socket, now)
    {
      ghost var s := State();
      ghost var code := (p: Delivery) => if p.to == sessionId && p.recipientSocket == socket then RecipientDisconnected else SenderDisconnected;
      ghost var involved := Involving(s.pending, sessionId, socket);
      var snapshot := pendingDeliveries;
      var rest := snapshot.Keys;
      FailNone(s, code, now);
      assert involved - rest == {};
      hide FailAll, Indexed, FailDelivery, Consistent, AsksSaved;
      while rest != {}
        invariant rest <= snapshot.Keys
        invariant State() == FailAll(s, involved - rest, code, now)
        decreases rest
      {
        var d :| d in rest;
        ghost var done := involved - rest;
        TakeOne(involved, rest, d);
        rest := rest - {d};
        ConsistentIsIndexed(s);
        FailAllKeepsConsistent(s, done, code, now);
        if snapshot[d].to == sessionId && snapshot[d].recipientSocket == socket {
          FailOneMore(s, done, code, d, now);
          FailPendingDelivery(d, RecipientDisconnected, now);
        } else if snapshot[d].from == sessionId && snapshot[d].senderSocket == socket {
          FailOneMore(s, done, code, d, now);
          FailPendingDelivery(d, SenderDisconnected, now);
        }
      }
      assert involved - rest == involved;
    }

    method PruneRecentDeliveries(now: int)
      modifies this`recentDeliveries
      ensures State() == Prune(old(State()), now)
    {
      ghost var before := recentDeliveries;
      var rest := recentDeliveries.Keys;
      while rest != {}
        invariant rest <= recentDeliveries.Keys
        invariant recentDeliveries == map k | k in before && (k in rest || before[k].expiresAt > now) :: before[k]
        decreases rest
      {
        var key :| key in rest;
        rest := rest - {key};
        if recentDeliveries[key].expiresAt <= now { recentDeliveries := recentDeliveries - {key}; }
      }
    }

    method ForgetRecentDeliveriesOf(id: Id)
      modifies this`recentDeliveries
      ensures State() == PurgeRecentOf(old(State()), {id})
    {
      ghost var before := recentDeliveries;
      var rest := recentDeliveries.Keys;
      while rest != {}
        invariant rest <= recentDeliveries.Keys
        invariant recentDeliveries == map k | k in before && (k in rest || (before[k].from != id && before[k].to != id)) :: before[k]
        decreases rest
      {
        var key :| key in rest;
        rest := rest - {key};
        var recent := recentDeliveries[key];
        if recent.from == id || recent.to == id { recentDeliveries := recentDeliveries - {key}; }
      }
      assert recentDeliveries == PurgeRecentOf(old(State()), {id}).recent;
    }

    // ---------- Who may do what ----------

    method IsCurrentPrincipal(sessionId: Id, now: int) returns (current: bool)
      ensures current == BrokerModel.IsCurrentPrincipal(State(), sessionId, now)
    {
      if sessionId !in sessions { return false; }
      match sessions[sessionId].origin
      case Local => return true;
      case Remote(generation, _, _) =>
        var principal := accessRegistry.ValidatePrincipal(sessionId, generation, now);
        return principal.Ok?;
    }

    method IsAuthorized(actorId: Id, action: Action, targetId: Id, now: int) returns (allowed: bool)
      ensures allowed == BrokerModel.IsAuthorized(State(), host, actorId, action, targetId, now)
    {
      var actorIsCurrent := IsCurrentPrincipal(actorId, now);
      if !actorIsCurrent { return false; }
      var targetIsCurrent := IsCurrentPrincipal(targetId, now);
      if !targetIsCurrent { return false; }
      return host.authorize(map id | id in sessions :: sessions[id].origin, actorId, action, targetId);
    }

    method StillAuthorized(from: Id, to: Id, action: Action, fromGeneration: int, toGeneration: int, now: int) returns (still: bool)
      ensures still == BrokerModel.StillAuthorized(State(), host, from, to, action, fromGeneration, toGeneration, now)
    {
      if from !in sessions || to !in sessions { return false; }
      if sessions[from].origin.Generation() != fromGeneration || sessions[to].origin.Generation() != toGeneration { return false; }
      still := IsAuthorized(from, action, to, now);
    }

    /** The session that a message on this socket speaks for. */
    method SpeakerOn(socket: Socket, now: int) returns (speaker: Option<Id>)
      ensures speaker == Speaker(State(), socket, now)
    {
      if socket !in connections || connections[socket].sessionId.None? { return None; }
      var current := IsCurrentPrincipal(connections[socket].sessionId.value, now);
      return if current then connections[socket].sessionId else None;
    }

    method FindSessions(nameOrId: string) returns (found: set<Id>)
      ensures found == BrokerModel.FindSessions(State(), host, nameOrId)
    {
      if nameOrId in sessions { return {nameOrId}; }
      var lowerName := host.lower(nameOrId);
      var byName := set id | id in sessions && sessions[id].name.Some? && host.lower(sessions[id].name.value) == lowerName;
      if byName != {} { return byName; }
      return set id | id in sessions && StartsWith(id, nameOrId);
    }

    method TargetsOf(from: Id, to: string, action: Action, now: int) returns (targets: set<Id>)
      ensures targets == Targets(State(), host, from, to, action, now)
    {
      var rest := FindSessions(to);
      ghost var candidates := rest;
      targets := {};
      while rest != {}
        invariant rest <= candidates
        invariant targets == set id | id in candidates && id !in rest && BrokerModel.IsAuthorized(State(), host, from, action, id, now)
        decreases rest
      {
        var id :| id in rest;
        rest := rest - {id};
        var allowed := IsAuthorized(from, action, id, now);
        if allowed { targets := targets + {id}; }
      }
    }

    // ---------- Sending ----------

    /** What the recent answers and the pending table say about a message that comes again. */
    method AnswerAgain(from: Id, to: string, m: Message, now: int) returns (outcome: Option<SendOutcome>)
      requires Consistent(State())
      modifies this`askEdges, this`askState, this`pendingDeliveries, this`pendingDeliveryKeys, this`recentDeliveries, this`history
      ensures (State(), outcome) == Deduplicate(old(State()), host, from, to, m, now)
    {
      hide BrokerModel.AnswerPending, BrokerModel.StillAuthorized, Prune;
      ghost var s := State();
      PruneTouchesRecent(s, now);
      hide Consistent;
      PruneRecentDeliveries(now);
      ghost var pruned := State();
      var key, fingerprint := Key(from, m.id), FingerprintOf(to, m);
      if key in recentDeliveries {
        var recent := recentDeliveries[key];
        if recent.fingerprint != fingerprint { return Some(Refused(DuplicateMessageId)); }
        var stillAuthorized := StillAuthorized(from, recent.to, recent.action, recent.fromGeneration, recent.toGeneration, now);
        if !recent.retryable && stillAuthorized { return Some(Replayed(recent.response)); }
        recentDeliveries := recentDeliveries - {key};
      }
      assert recentDeliveries == pruned.recent - {key};
      outcome := AnswerPending(key, fingerprint, now);
    }

    method AnswerPending(key: Key, fingerprint: Fingerprint, now: int) returns (outcome: Option<SendOutcome>)
      requires Consistent(State())
      modifies this`askEdges, this`askState, this`pendingDeliveries, this`pendingDeliveryKeys, this`recentDeliveries, this`history
      ensures (State(), outcome) == BrokerModel.AnswerPending(old(State()), host, key, fingerprint, now)
    {
      hide FailDelivery, BrokerModel.StillAuthorized, Consistent;
      if key !in pendingDeliveryKeys { return None; }
      var d := pendingDeliveryKeys[key];
      if d !in pendingDeliveries || pendingDeliveries[d].fingerprint != fingerprint { return Some(Refused(DuplicateMessageId)); }
      var p := pendingDeliveries[d];
      var stillAuthorized := StillAuthorized(p.from, p.to, p.action, p.fromGeneration, p.toGeneration, now);
      if stillAuthorized { return Some(StillPending(d)); }
      FailPendingDelivery(d, SessionNotFound, now);
      return None;
    }

    /** Whether some edge between two sessions satisfies what a send looks for. */
    method HasAsk(from: Id, to: Id) returns (found: bool)
      ensures found <==> exists k :: k in askEdges && askEdges[k].from == from && askEdges[k].to == to
    {
      found := false;
      var rest := askEdges.Keys;
      while rest != {} && !found
        invariant rest <= askEdges.Keys
        invariant found ==> exists k :: k in askEdges && askEdges[k].from == from && askEdges[k].to == to
        invariant forall k :: k in askEdges && k !in rest && askEdges[k].from == from && askEdges[k].to == to ==> found
        decreases rest
      {
        var key :| key in rest;
        rest := rest - {key};
        found := askEdges[key].from == from && askEdges[key].to == to;
      }
    }

    method HasReverseWait(from: Id, target: Id, m: Message) returns (found: bool)
      ensures found <==> exists k :: k in askEdges && IsReverseWait(askEdges[k], from, target, m)
    {
      found := false;
      var rest := askEdges.Keys;
      while rest != {} && !found
        invariant rest <= askEdges.Keys
        invariant found ==> exists k :: k in askEdges && IsReverseWait(askEdges[k], from, target, m)
        invariant forall k :: k in askEdges && k !in rest && IsReverseWait(askEdges[k], from, target, m) ==> found
        decreases rest
      {
        var key :| key in rest;
        rest := rest - {key};
        var edge := askEdges[key];
        found := edge.state == Blocking && !(m.replyTo == Some(edge.messageId) && target == edge.from) && edge.from == target && edge.to == from;
      }
    }

    method RefuseAsk(from: Id, target: Id, m: Message) returns (code: Option<FailureCode>)
      ensures code == AskRefusal(askEdges, from, target, m)
    {
      if m.replyTo.Some? {
        var replied := Key(target, m.replyTo.value);
        if replied !in askEdges { return Some(InvalidReplyTarget); }
        if askEdges[replied].to != from || askEdges[replied].from != target { return Some(InvalidReplyTarget); }
      }
      if !m.IsAsk() { return None; }
      var alreadyPending := HasAsk(from, target);
      if alreadyPending { return Some(AskAlreadyPending); }
      var reverse := HasReverseWait(from, target, m);
      if reverse { return Some(MutualAsk); }
      var count := CountAskEdgesFrom(from);
      if count >= MAX_PENDING_ASKS_PER_SESSION { return Some(TooManyPendingAsks); }
      return None;
    }

    method AddAskEdge(messageId: MessageId, from: Id, to: Id, now: int)
      modifies this`askEdges, this`askState, this`history
      ensures State() == WithEdges(old(State()),
        old(askEdges)[Key(from, messageId) := AskEdge(messageId, from, to, now, now + host.askTimeoutMs, Blocking)])
    {
      askEdges := askEdges[Key(from, messageId) := AskEdge(messageId, from, to, now, now + host.askTimeoutMs, Blocking)];
      PersistAskEdges();
    }

    /** Routes a message that is not known yet. */
    method Forward(socket: Socket, from: Id, to: string, m: Message, deliveryId: DeliveryId, now: int) returns (outcome: SendOutcome)
      requires from in sessions
      modifies this`askEdges, this`askState, this`pendingDeliveries, this`pendingDeliveryKeys, this`history
      ensures (State(), outcome) == Route(old(State()), host, socket, from, to, m, deliveryId, now)
    {
      hide AskRefusal, PendingFrom, Targets, IsReverseWait, Accept, FingerprintOf;
      ghost var s := State();
      TargetsAreLive(s, host, from, to, ActionOf(m), now);
      if |pendingDeliveries| >= MAX_PENDING_DELIVERIES { return Refused(TooManyPendingDeliveries); }
      var mine := CountPendingDeliveriesFrom(from);
      if mine >= MAX_PENDING_DELIVERIES_PER_SESSION { return Refused(TooManyPendingDeliveries); }
      var targets := TargetsOf(from, to, ActionOf(m), now);
      if |targets| == 1 {
        if sessions[from].socket != socket { return Refused(SenderNotFound); }
        var target: Id :| target in targets;
        OnlyMember(targets, target);
        var refusal := RefuseAsk(from, target, m);
        if refusal.Some? { return Refused(refusal.value); }
        Deliver(socket, from, target, to, m, deliveryId, now);
        return Accepted(deliveryId, target);
      }
      return Refused(if |targets| > 1 then AmbiguousTarget else SessionNotFound);
    }

    method Deliver(socket: Socket, from: Id, target: Id, to: string, m: Message, deliveryId: DeliveryId, now: int)
      requires from in sessions && target in sessions
      modifies this`askEdges, this`askState, this`pendingDeliveries, this`pendingDeliveryKeys, this`history
      ensures State() == Accept(old(State()), host, deliveryId, DeliveryFor(old(State()), socket, from, target, to, m), now)
    {
      if m.IsAsk() {
        AddAskEdge(m.id, from, target, now);
      }
      var pending := Delivery(Key(from, m.id), FingerprintOf(to, m), m, from, target, socket, sessions[target].socket, ActionOf(m),
        sessions[from].origin.Generation(), sessions[target].origin.Generation());
      pendingDeliveries := pendingDeliveries[deliveryId := pending];
      pendingDeliveryKeys := pendingDeliveryKeys[pending.key := deliveryId];
      history := history.(accepted := history.accepted[deliveryId := pending],
        carrier := if m.IsAsk() then history.carrier[pending.key := deliveryId] else history.carrier);
    }

    method Send(socket: Socket, to: string, m: Message, deliveryId: DeliveryId, now: int) returns (outcome: SendOutcome)
      requires Valid() && deliveryId !in history.accepted
      modifies this
      ensures Valid() && (State(), outcome) == BrokerModel.Send(old(State()), host, socket, to, m, deliveryId, now)
    {
      hide Inv, Consistent, Deduplicate, Route;
      ghost var s := State();
      InvIsConsistent(s);
      SendKeeps(s, host, socket, to, m, deliveryId, now);
      var speaker := SpeakerOn(socket, now);
      if speaker.None? { return Denied; }
      DeduplicateKeeps(s, host, speaker.value, to, m, now);
      var answer := AnswerAgain(speaker.value, to, m, now);
      if answer.Some? { return answer.value; }
      outcome := Forward(socket, speaker.value, to, m, deliveryId, now);
    }

    // ---------- Answers to deliveries ----------

    method MessageReceived(socket: Socket, deliveryId: DeliveryId, now: int) returns (receipt: Receipt)
      requires Valid()
      modifies this
      ensures Valid() && (State(), receipt) == BrokerModel.MessageReceived(old(State()), host, socket, deliveryId, now)
    {
      hide Inv, Consistent, FailDelivery, Acknowledge, BrokerModel.StillAuthorized;
      ghost var s := State();
      InvIsConsistent(s);
      ReceivedKeeps(s, host, socket, deliveryId, now);
      var speaker := SpeakerOn(socket, now);
      if speaker.None? { return Ignored; }
      if deliveryId !in pendingDeliveries { return Ignored; }
      var pending := pendingDeliveries[deliveryId];
      if pending.to != speaker.value || pending.recipientSocket != socket { return Ignored; }
      var stillAuthorized := StillAuthorized(pending.from, pending.to, pending.action, pending.fromGeneration, pending.toGeneration, now);
      if !stillAuthorized {
        FailPendingDelivery(deliveryId, SessionNotFound, now);
        return ReportedFailed;
      }
      AcknowledgePendingDelivery(deliveryId, now);
      return ReportedDelivered;
    }

    method AcknowledgePendingDelivery(deliveryId: DeliveryId, now: int)
      requires Consistent(State()) && deliveryId in pendingDeliveries
      modifies this`askEdges, this`askState, this`pendingDeliveries, this`pendingDeliveryKeys, this`recentDeliveries, this`history
      ensures State() == Acknowledge(old(State()), deliveryId, now)
    {
      hide Acknowledge, Indexed, DropEdges, AsksSaved;
      ghost var s := State();
      AcknowledgeOne(s, deliveryId, now);
      var pending := pendingDeliveries[deliveryId];
      ghost var taken := s.(pending := s.pending - {deliveryId}, pendingKeys := s.pendingKeys - {pending.key});
      TablesDoNotMatter(s, taken, {});
      pendingDeliveries := pendingDeliveries - {deliveryId};
      pendingDeliveryKeys := pendingDeliveryKeys - {pending.key};
      assert State() == taken;
      if pending.message.replyTo.Some? { RemoveAskEdge(Key(pending.to, pending.message.replyTo.value)); }
      recentDeliveries := recentDeliveries[pending.key :=
        Recent(pending.fingerprint, pending.from, pending.to, pending.action, pending.fromGeneration, pending.toGeneration,
          false, Delivered(deliveryId), now + RECENT_DELIVERY_TTL_MS)];
      history := history.(delivered := history.delivered + {deliveryId});
    }

    method MessageRejected(socket: Socket, deliveryId: DeliveryId, now: int)
      requires Valid()
      modifies this
      ensures Valid() && State() == BrokerModel.MessageRejected(old(State()), socket, deliveryId, now)
    {
      hide Inv, Consistent, FailDelivery;
      ghost var s := State();
      InvIsConsistent(s);
      RejectedKeeps(s, socket, deliveryId, now);
      var speaker := SpeakerOn(socket, now);
      if speaker.Some? && deliveryId in pendingDeliveries &&
         pendingDeliveries[deliveryId].to == speaker.value && pendingDeliveries[deliveryId].recipientSocket == socket {
        FailPendingDelivery(deliveryId, ConflictingMessageId, now);
      }
    }

    /** The timer of a delivery that nobody acknowledged. */
    method DeliveryTimedOut(deliveryId: DeliveryId, now: int)
      requires Valid()
      modifies this
      ensures Valid() && State() == BrokerModel.DeliveryTimedOut(old(State()), deliveryId, now)
    {
      hide Inv, Consistent, FailDelivery;
      ghost var s := State();
      InvIsConsistent(s);
      TimedOutKeeps(s, deliveryId, now);
      FailAbsentIfSo(s, deliveryId, DeliveryTimeout, now);
      FailPendingDelivery(deliveryId, DeliveryTimeout, now);
    }

    // ---------- Asks under way ----------

    method DeferAsk(socket: Socket, messageId: MessageId, now: int) returns (applied: bool)
      requires Valid()
      modifies this
      ensures Valid() && State() == BrokerModel.DeferAsk(old(State()), socket, messageId, now)
      ensures applied <==> Speaker(old(State()), socket, now).Some? && OwnAsk(old(State()), Speaker(old(State()), socket, now).value, messageId)
    {
      hide Inv;
      ghost var s := State();
      DeferAskKeeps(s, socket, messageId, now);
      var speaker := SpeakerOn(socket, now);
      if speaker.None? { return false; }
      var key := Key(speaker.value, messageId);
      applied := key in askEdges && askEdges[key].from == speaker.value;
      if applied && askEdges[key].state == Blocking {
        askEdges := askEdges[key := askEdges[key].(state := Deferred)];
        PersistAskEdges();
      }
    }

    method CancelAsk(socket: Socket, messageId: MessageId, now: int) returns (applied: bool)
      requires Valid()
      modifies this
      ensures Valid() && State() == BrokerModel.CancelAsk(old(State()), socket, messageId, now)
      ensures applied <==>
        var speaker := Speaker(old(State()), socket, now);
        speaker.Some? && OwnAsk(old(State()), speaker.value, messageId) && old(sessions)[speaker.value].socket == socket
    {
      hide Inv, Consistent, AsksSaved;
      ghost var s := State();
      InvIsConsistent(s);
      CancelAskKeeps(s, socket, messageId, now);
      var speaker := SpeakerOn(socket, now);
      if speaker.None? { return false; }
      var key := Key(speaker.value, messageId);
      applied := sessions[speaker.value].socket == socket && key in askEdges && askEdges[key].from == speaker.value;
      if applied { RemoveAskEdge(key); }
    }

    /** The timer of an ask, which looks at the clock again before it gives the ask up. */
    method AskExpired(key: Key, expiresAt: int, now: int)
      requires Valid() && (key in askEdges ==> askEdges[key].expiresAt == expiresAt)
      modifies this
      ensures Valid() && State() == BrokerModel.AskExpired(old(State()), key, now)
    {
      hide Inv, Consistent, AsksSaved;
      ghost var s := State();
      InvIsConsistent(s);
      DropEdgesKeeps(s, {key});
      if expiresAt > now { return; }
      RemoveAskEdge(key);
      DropNothingUnless(s, key);
    }

    // ---------- Connections and sessions ----------

    method HandleConnection(socket: Socket, remote: bool)
      requires Valid() && socket !in connections
      modifies this
      ensures Valid() && State() == Connect(old(State()), socket, remote)
    {
      hide Inv;
      ConnectKeeps(State(), socket, remote);
      connections := connections[socket := Connection(remote, None)];
    }

    method SetId(socket: Socket, id: Option<Id>)
      modifies this`connections
      ensures State() == Bind(old(State()), socket, id)
    {
      if socket in connections { connections := connections[socket := connections[socket].(sessionId := id)]; }
    }

    /** A local session registers, and replaces the one that has its id. */
    method RegisterLocal(socket: Socket, id: Id, name: Option<string>, now: int)
      requires Valid() && id !in accessRegistry.principals
      modifies this
      ensures Valid() && State() == BrokerModel.RegisterLocal(old(State()), socket, id, name, now)
    {
      hide Inv, Consistent, AsksSaved, ClearPending, DeferEdgesOf, FailAll;
      ghost var s := State();
      InvIsConsistent(s);
      RegisterLocalKeeps(s, socket, id, name, now);
      if socket !in connections || connections[socket] != Connection(false, None) { return; }
      if id !in sessions && |sessions| >= MAX_SESSIONS { return; }
      if id in sessions {
        ghost var previous := sessions[id].socket;
        ClearPendingKeepsConsistent(s, id, previous, now);
        ClearPendingDeliveriesForSession(id, sessions[id].socket, now);
        DeferAskEdgesForSession(id);
        DeferEdgesFrame(ClearPending(s, id, previous, now), id);
        ClearPendingFrame(s, id, previous, now);
      }
      SetId(socket, Some(id));
      sessions := sessions[id := Session(socket, name, Local)];
    }

    method CheckAccess(access: Access, now: int, id: Id, credential: Secret) returns (admitted: Result<Principal, AccessError>)
      requires accessRegistry.Valid()
      modifies accessRegistry
      ensures accessRegistry.Valid() && (accessRegistry.State(), admitted) == Admit(old(accessRegistry.State()), access, now, id, credential)
    {
      match access
      case EnrollmentToken(token) => admitted := accessRegistry.ConsumeEnrollment(token, now, id, credential);
      case SessionCredential(sid, generation, secret) => admitted := accessRegistry.AuthenticateSession(sid, generation, secret, now);
      case MalformedAccess => return Err(InvalidCredential);
    }

    /** A remote session registers with an enrolment token or with its credential; `id` and
        `credential` are the fresh ones that a consumed enrolment gets. */
    method RegisterRemote(socket: Socket, access: Access, now: int, id: Id, credential: Secret)
      requires Valid() && id !in accessRegistry.principals && id !in sessions
      modifies this, accessRegistry
      ensures Valid() && State() == BrokerModel.RegisterRemote(old(State()), socket, access, now, id, credential)
    {
      hide Inv, RootsAreText, Admit;
      ghost var s := State();
      RegisterRemoteKeeps(s, socket, access, now, id, credential);
      if socket !in connections || connections[socket] != Connection(true, None) { return; }
      if |sessions| >= MAX_SESSIONS { return; }
      var admitted := CheckAccess(access, now, id, credential);
      if admitted.Err? { return; }
      var p := admitted.value;
      if p.id in sessions { return; }
      SetId(socket, Some(p.id));
      sessions := sessions[p.id := Session(socket, Some(p.name), Remote(p.generation, p.parent, p.root))];
    }

    /** The session gives up its socket: it is removed, its deliveries fail, and its asks are
        deferred or cleared. */
    method LeaveSession(id: Id, socket: Socket, preserveAsks: bool, now: int)
      requires Consistent(State())
      modifies this`sessions, this`askEdges, this`askState, this`pendingDeliveries, this`pendingDeliveryKeys, this`recentDeliveries, this`history
      ensures State() == Leave(old(State()), id, socket, preserveAsks, now)
    {
      ghost var s := State();
      sessions := sessions - {id};
      SessionsDoNotMatter(s, sessions, id, socket, preserveAsks, now);
      ClearPendingKeepsConsistent(State(), id, socket, now);
      hide Consistent, AsksSaved, ClearPending, DeferEdgesOf, ClearEdgesOf;
      ClearPendingDeliveriesForSession(id, socket, now);
      if preserveAsks { DeferAskEdgesForSession(id); } else { ClearAskEdgesForSession(id); }
    }

    method Unregister(socket: Socket, preserveAsks: bool, now: int)
      requires Valid()
      modifies this
      ensures Valid() && State() == BrokerModel.Unregister(old(State()), socket, preserveAsks, now)
    {
      hide Inv, Leave, Consistent;
      ghost var s := State();
      InvIsConsistent(s);
      UnregisterKeeps(s, socket, preserveAsks, now);
      var speaker := SpeakerOn(socket, now);
      if speaker.None? { return; }
      if sessions[speaker.value].socket == socket {
        LeaveSession(speaker.value, socket, preserveAsks, now);
      }
      SetId(socket, None);
    }

    method SocketClosed(socket: Socket, now: int)
      requires Valid()
      modifies this
      ensures Valid() && State() == Close(old(State()), socket, now)
    {
      hide Inv, Leave, Consistent;
      ghost var s := State();
      InvIsConsistent(s);
      CloseKeeps(s, socket, now);
      if socket !in connections { return; }
      var sessionId := connections[socket].sessionId;
      if sessionId.Some? && sessionId.value in sessions && sessions[sessionId.value].socket == socket {
        LeaveRemoves(s, sessionId.value, socket, true, now);
        LeaveSession(sessionId.value, socket, true, now);
      }
      connections := connections - {socket};
    }

    /** The part of a presence update that the broker's decisions depend on. */
    method Rename(socket: Socket, name: string, now: int)
      requires Valid()
      modifies this
      ensures Valid() && State() == BrokerModel.Rename(old(State()), socket, name, now)
    {
      hide Inv;
      ghost var s := State();
      RenameKeeps(s, socket, name, now);
      var speaker := SpeakerOn(socket, now);
      if speaker.None? { return; }
      var session := sessions[speaker.value];
      if session.socket == socket && session.origin.Local? && session.name != Some(name) {
        sessions := sessions[speaker.value := session.(name := Some(name))];
      }
    }

    // ---------- Principals in transition ----------

    /** Takes the changed principals one at a time, each with all that hangs on its session. */
    method DisconnectTransitionedPrincipals(changed: set<Id>, now: int)
      requires Consistent(State()) && OnSockets(pendingDeliveries, sessions)
      modifies this`sessions, this`askEdges, this`askState, this`pendingDeliveries, this`pendingDeliveryKeys, this`recentDeliveries, this`history
      ensures State() == Disconnect(old(State()), changed, now)
    {
      hide Consistent, AsksSaved, OnSockets, Disconnect, Indexed, ClearPending, ClearEdgesOf, PurgeRecentOf;
      ghost var s := State();
      ConsistentIsIndexed(s);
      DisconnectNone(s, now);
      var rest := changed;
      assert changed - rest == {};
      while rest != {}
        invariant rest <= changed && State() == Disconnect(s, changed - rest, now)
        decreases rest
      {
        var id :| id in rest;
        ghost var done := changed - rest;
        rest := rest - {id};
        assert changed - rest == done + {id};
        DisconnectKeepsConsistent(s, done, now);
        DisconnectedAreGone(s, done, id, now);
        if id in sessions {
          DisconnectOneMore(s, done, id, now);
          ClearPendingKeepsConsistent(State(), id, sessions[id].socket, now);
          ClearPendingDeliveriesForSession(id, sessions[id].socket, now);
          ClearAskEdgesForSession(id);
          sessions := sessions - {id};
          ForgetRecentDeliveriesOf(id);
        }
      }
      assert changed - rest == changed;
    }

    method RevokeSubtree(principalId: Id, now: int)
      requires Valid()
      modifies this, accessRegistry
      ensures Valid() && State() == BrokerModel.RevokeSubtree(old(State()), principalId, now)
    {
      hide Inv, Consistent, OnSockets, RootsAreText, Disconnect, Revoke, Tree;
      ghost var s := State();
      InvIsConsistent(s);
      RevokeSubtreeKeeps(s, principalId, now);
      RegistryDoesNotMatter(s, Revoke(s.registry, principalId, now), Tree(s.registry, principalId), now);
      var records := accessRegistry.RevokePrincipal(principalId, now);
      DisconnectTransitionedPrincipals((set r | r in records :: r.id), now);
    }

    method AdoptSubtree(principalId: Id, newParentId: Id, now: int)
      requires Valid()
      modifies this, accessRegistry
      ensures Valid() && State() == BrokerModel.AdoptSubtree(old(State()), principalId, newParentId, now)
    {
      hide Inv, Consistent, OnSockets, Disconnect, Adopt, IsText, RegistryRuns.Keyed;
      ghost var s := State();
      InvIsConsistent(s);
      AdoptSubtreeKeeps(s, principalId, newParentId, now);
      var newRootId := RootBelow(newParentId);
      if newRootId.None? { return; }
      var moved := MoveInRegistry(principalId, newParentId, newRootId.value, now);
      if moved.None? { return; }
      RegistryDoesNotMatter(s, accessRegistry.State(), moved.value, now);
      DisconnectTransitionedPrincipals(moved.value, now);
    }

    /** The root of what is adopted by this parent, if it may adopt. */
    method RootBelow(newParentId: Id) returns (root: Option<Id>)
      ensures root == if MayAdopt(State(), newParentId) then Some(AdoptedRoot(State(), newParentId)) else None
    {
      var localParent := newParentId in sessions && sessions[newParentId].origin.Local?;
      if !localParent && !(newParentId in accessRegistry.principals && accessRegistry.principals[newParentId].status == Active) { return None; }
      return Some(if localParent then newParentId else accessRegistry.principals[newParentId].root);
    }

    method MoveInRegistry(principalId: Id, newParentId: Id, newRootId: Id, now: int) returns (moved: Option<set<Id>>)
      requires accessRegistry.Valid() && (IsText(newParentId, 512) ==> IsText(newRootId, 512))
      modifies accessRegistry
      ensures accessRegistry.Valid()
      ensures (accessRegistry.State(), moved) == Moved(old(accessRegistry.State()), principalId, newParentId, newRootId, now)
      ensures moved.None? ==> accessRegistry.State() == old(accessRegistry.State())
    {
      BrokerRuns.RefusedAdoptionChangesNothing(accessRegistry.State(), principalId, newParentId, newRootId, now);
      hide Adopt, IsText;
      var r := accessRegistry.AdoptSubtree(principalId, newParentId, newRootId, now);
      return if r.Err? then None else Some(set id | id in r.value);
    }

    method ReconcileExpiredPrincipals(now: int) returns (ghost order: seq<Id>)
      requires Valid()
      modifies this, accessRegistry
      ensures Valid() && IsSweepOrder(old(State()).registry, order, now)
      ensures State() == ReconcileExpired(old(State()), order, now)
    {
      hide Inv, Consistent, OnSockets, Disconnect, Sweep, IsSweepOrder, RootsAreText;
      ghost var s := State();
      InvIsConsistent(s);
      var changed;
      changed, order := accessRegistry.ExpirePrincipals(now);
      ReconcileKeeps(s, order, now);
      RegistryDoesNotMatter(s, accessRegistry.State(), changed.Keys, now);
      if changed.Keys != {} {
        DisconnectTransitionedPrincipals(changed.Keys, now);
      } else {
        DisconnectNone(s, now);
      }
    }

    /** An administrator's enrolment below a live local session. */
    method IssueDirect(parent: Id, root: Id, remoteHost: string, c: ChildRequest, ttlMs: int, now: int, token: Secret)
      requires Valid()
      modifies accessRegistry
      ensures Valid() && State() == BrokerModel.IssueDirect(old(State()), parent, root, remoteHost, c, ttlMs, now, token)
    {
      hide Inv, Issue, RootsAreText;
      ghost var s := State();
      if parent !in sessions || sessions[parent].origin.Remote? || root != parent { return; }
      var request := EnrollmentRequest(c.name, parent, parent, remoteHost, c.expiresAt, c.canDelegate, None, c.maxDepth, c.maxChildren);
      IssueDirectKeeps(s, parent, root, remoteHost, c, ttlMs, now, token);
      var issued := accessRegistry.IssueEnrollment(request, ttlMs, now, token);
    }

    /** A principal's own enrolment; `allowed` is what the policy says of the delegation. */
    method IssueDelegated(parent: Id, generation: int, credential: Secret, allowed: bool, c: ChildRequest, ttlMs: int, now: int, token: Secret)
      requires Valid()
      modifies accessRegistry
      ensures Valid() && State() == BrokerModel.IssueDelegated(old(State()), parent, generation, credential, allowed, c, ttlMs, now, token)
    {
      hide Inv, IssueChild, RootsAreText;
      ghost var s := State();
      var authenticated := accessRegistry.AuthenticateSession(parent, generation, credential, now);
      if authenticated.Err? || !allowed { return; }
      IssueDelegatedKeeps(s, parent, generation, credential, allowed, c, ttlMs, now, token);
      var issued := accessRegistry.IssueChildEnrollment(parent, generation, c, ttlMs, now, token);
    }
  }
}
