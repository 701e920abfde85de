/** What every state of the broker satisfies, and why each building block keeps it. */
module BrokerInvariant {

  import opened Wrappers
  import opened Forest
  import opened RegistryModel
  import opened Sets
  import opened Messages
  import opened BrokerModel

  // ---------- The invariant, table by table ----------

  /** `pendingDeliveries` and `pendingDeliveryKeys` are inverse to each other. */
  ghost predicate Indexed(pending: map<DeliveryId, Delivery>, keys: map<Key, DeliveryId>) {
    && (forall d :: d in pending ==> pending[d].key in keys && keys[pending[d].key] == d)
    && (forall k :: k in keys ==> keys[k] in pending && pending[keys[k]].key == k)
  }

  predicate WellDescribed(p: Delivery) {
    && p.key == Key(p.from, p.message.id)
    && p.fingerprint == FingerprintOf(p.fingerprint.to, p.message)
    && p.action == ActionOf(p.message)
  }

  /** Every pending delivery runs between the current sockets of two live sessions. */
  ghost predicate OnSockets(pending: map<DeliveryId, Delivery>, sessions: map<Id, Session>) {
    forall d :: d in pending ==>
      && pending[d].from in sessions && sessions[pending[d].from].socket == pending[d].senderSocket
      && pending[d].to in sessions && sessions[pending[d].to].socket == pending[d].recipientSocket
  }

  /** No set of pending deliveries, and none of one sender, is larger than its limit. */
  ghost predicate Capped(pending: map<DeliveryId, Delivery>) {
    && (forall some: set<DeliveryId> :: some <= pending.Keys ==> |some| <= MAX_PENDING_DELIVERIES)
    && forall id :: |PendingFrom(pending, id)| <= MAX_PENDING_DELIVERIES_PER_SESSION
  }

  /** A live session's socket is an open connection that speaks for it. */
  ghost predicate Bound(sessions: map<Id, Session>, connections: map<Socket, Connection>) {
    forall id :: id in sessions ==>
      sessions[id].socket in connections && connections[sessions[id].socket].sessionId == Some(id)
  }

  /** A live remote session mirrors an active principal, a local one is no principal. */
  ghost predicate Mirrors(sessions: map<Id, Session>, registry: Registry) {
    forall id :: id in sessions ==> MirrorsPrincipal(id, sessions[id].origin, registry)
  }

  predicate MirrorsPrincipal(id: Id, origin: Origin, registry: Registry) {
    match origin
    case Local => id !in registry.principals
    case Remote(generation, parent, root) =>
      id in registry.principals &&
      var p := registry.principals[id];
      p.status.Active? && p.generation == generation && p.parent == parent && p.root == root
  }

  /** What the recent cache says happened, did; what is pending has no final answer in it. */
  ghost predicate CacheSound(recent: map<Key, Recent>, keys: map<Key, DeliveryId>, accepted: map<DeliveryId, Delivery>, delivered: set<DeliveryId>) {
    && (forall k :: k in recent && k in keys ==> recent[k].retryable)
    && (forall k :: k in recent && recent[k].retryable ==> recent[k].response.DeliveryFailed?)
    && (forall k :: k in recent && !recent[k].retryable ==> IsAnswerTo(recent[k], k, accepted, delivered))
  }

  predicate IsAnswerTo(r: Recent, k: Key, accepted: map<DeliveryId, Delivery>, delivered: set<DeliveryId>) {
    && r.response.Delivered?
    && r.response.deliveryId in delivered && r.response.deliveryId in accepted
    && var p := accepted[r.response.deliveryId];
       && p.key == k && p.from == r.from && p.to == r.to && p.fingerprint == r.fingerprint && p.action == r.action
       && p.fromGeneration == r.fromGeneration && p.toGeneration == r.toGeneration
  }

  /** Exactly one of four. */
  predicate EndedOnce(pending: bool, delivered: bool, failed: bool, lost: bool) {
    || (pending && !delivered && !failed && !lost)
    || (!pending && delivered && !failed && !lost)
    || (!pending && !delivered && failed && !lost)
    || (!pending && !delivered && !failed && lost)
  }

  /** Every accepted delivery is pending or has ended in exactly one way. */
  ghost predicate Accounted(accepted: map<DeliveryId, Delivery>, pending: map<DeliveryId, Delivery>,
                            delivered: set<DeliveryId>, failed: set<DeliveryId>, lost: set<DeliveryId>) {
    && (forall d :: d in accepted ==> EndedOnce(d in pending, d in delivered, d in failed, d in lost))
    && (forall d :: d in pending || d in delivered || d in failed || d in lost ==> d in accepted)
    && (forall d :: d in pending ==> accepted[d] == pending[d])
    && (forall d :: d in accepted ==> WellDescribed(accepted[d]))
  }

  /** Edges sit under their own key, one for each ordered pair, at most 64 for each asker. */
  ghost predicate EdgesShaped(edges: map<Key, AskEdge>) {
    && (forall k :: k in edges ==> k == Key(edges[k].from, edges[k].messageId))
    && (forall k, l :: k in edges && l in edges && edges[k].from == edges[l].from && edges[k].to == edges[l].to ==> k == l)
    && (forall id :: |EdgesFrom(edges, id)| <= MAX_PENDING_ASKS_PER_SESSION)
  }

  /** An edge that was not restored from disk was carried by a delivery that is still pending
      or was acknowledged; and a pending ask carries the edge under its key, if there is one. */
  ghost predicate Carried(edges: map<Key, AskEdge>, carrier: map<Key, DeliveryId>, accepted: map<DeliveryId, Delivery>,
                          delivered: set<DeliveryId>, pending: map<DeliveryId, Delivery>) {
    && (forall k :: k in carrier ==> k in edges && IsCarrier(carrier[k], k, edges[k], accepted))
    && (forall k :: k in carrier ==> carrier[k] in pending || carrier[k] in delivered)
    && (forall d :: d in pending && pending[d].message.IsAsk() && pending[d].key in edges ==>
      pending[d].key in carrier && carrier[pending[d].key] == d)
  }

  predicate IsCarrier(d: DeliveryId, k: Key, e: AskEdge, accepted: map<DeliveryId, Delivery>) {
    d in accepted && accepted[d].key == k && accepted[d].message.IsAsk() && accepted[d].to == e.to
  }

  /** Both ends of a blocking edge are connected, on the sockets they had when it was made. */
  ghost predicate BlockingOnSockets(edges: map<Key, AskEdge>, carrier: map<Key, DeliveryId>, accepted: map<DeliveryId, Delivery>,
                                    sessions: map<Id, Session>) {
    forall k :: k in edges && edges[k].state.Blocking? ==>
      && k in carrier && carrier[k] in accepted
      && edges[k].from in sessions && edges[k].to in sessions
      && sessions[edges[k].from].socket == accepted[carrier[k]].senderSocket
      && sessions[edges[k].to].socket == accepted[carrier[k]].recipientSocket
  }

  /** Two different sessions that wait for each other. */
  predicate WaitForEachOther(edges: map<Key, AskEdge>, k: Key, l: Key) {
    && k in edges && l in edges && edges[k].state.Blocking? && edges[l].state.Blocking?
    && edges[k].from == edges[l].to && edges[k].to == edges[l].from && edges[k].from != edges[k].to
  }

  /** Delivery `d` is the counter-ask that made edge `newer` and replies to edge `older`. */
  predicate IsCounterAsk(pending: map<DeliveryId, Delivery>, d: DeliveryId, older: Key, newer: Key) {
    && d in pending && pending[d].message.IsAsk()
    && pending[d].key == newer && pending[d].to == older.from
    && pending[d].message.replyTo == Some(older.messageId)
  }

  ghost predicate Resolves(pending: map<DeliveryId, Delivery>, k: Key, l: Key) {
    exists d :: IsCounterAsk(pending, d, k, l) || IsCounterAsk(pending, d, l, k)
  }

  ghost predicate MutualWaitsResolve(edges: map<Key, AskEdge>, pending: map<DeliveryId, Delivery>) {
    forall k, l :: WaitForEachOther(edges, k, l) ==> Resolves(pending, k, l)
  }

  ghost predicate TablesHold(b: Broker) {
    && Indexed(b.pending, b.pendingKeys) && OnSockets(b.pending, b.sessions) && Capped(b.pending)
    && Bound(b.sessions, b.connections)
  }

  ghost predicate RecordsHold(b: Broker) {
    && CacheSound(b.recent, b.pendingKeys, b.history.accepted, b.history.delivered)
    && Accounted(b.history.accepted, b.pending, b.history.delivered, b.history.failed, b.history.lost)
  }

  ghost predicate AsksHold(b: Broker) {
    && EdgesShaped(b.edges)
    && Carried(b.edges, b.history.carrier, b.history.accepted, b.history.delivered, b.pending)
    && BlockingOnSockets(b.edges, b.history.carrier, b.history.accepted, b.sessions)
    && MutualWaitsResolve(b.edges, b.pending)
    && b.disk == b.edges
  }

  ghost predicate Inv(b: Broker) {
    TablesHold(b) && RecordsHold(b) && AsksHold(b) && Mirrors(b.sessions, b.registry)
  }

  lemma TablesOf(b: Broker)
    requires Inv(b)
    ensures Indexed(b.pending, b.pendingKeys) && Mirrors(b.sessions, b.registry) && b.disk == b.edges
  {
    hide Indexed, Mirrors;
  }

  // ---------- Counting ----------

  lemma FewerKeys<K, V>(m: map<K, V>, larger: map<K, V>)
    requires m.Keys <= larger.Keys
    ensures |m| <= |larger|
  {
    assert larger.Keys == m.Keys + (larger.Keys - m.Keys);
    assert |m.Keys| == |m| && |larger.Keys| == |larger|;
  }

  // ---------- Fewer edges ----------

  predicate Weaker(e: AskEdge, was: AskEdge) {
    e == was || e == was.(state := Deferred)
  }

  /** The same ask, whether blocking or deferred. */
  predicate SameAsk(e: AskEdge, was: AskEdge) {
    e.(state := Deferred) == was.(state := Deferred)
  }

  ghost predicate FewerEdges(edges: map<Key, AskEdge>, was: map<Key, AskEdge>) {
    forall k :: k in edges ==> k in was && Weaker(edges[k], was[k])
  }

  lemma FewerEdgesShaped(edges: map<Key, AskEdge>, was: map<Key, AskEdge>)
    requires EdgesShaped(was) && FewerEdges(edges, was)
    ensures EdgesShaped(edges)
  {
    forall id ensures |EdgesFrom(edges, id)| <= MAX_PENDING_ASKS_PER_SESSION {
      SubsetIsSmaller(EdgesFrom(edges, id), EdgesFrom(was, id));
    }
  }

  lemma FewerEdgesResolve(edges: map<Key, AskEdge>, was: map<Key, AskEdge>, pending: map<DeliveryId, Delivery>)
    requires MutualWaitsResolve(was, pending) && FewerEdges(edges, was)
    ensures MutualWaitsResolve(edges, pending)
  {
    forall k, l | WaitForEachOther(edges, k, l) ensures Resolves(pending, k, l) {
      assert WaitForEachOther(was, k, l);
    }
  }

  lemma FewerEdgesCarried(b: Broker, edges: map<Key, AskEdge>)
    requires FewerEdges(edges, b.edges)
    requires Carried(b.edges, b.history.carrier, b.history.accepted, b.history.delivered, b.pending)
    requires BlockingOnSockets(b.edges, b.history.carrier, b.history.accepted, b.sessions)
    ensures var b' := WithEdges(b, edges);
            && Carried(edges, b'.history.carrier, b.history.accepted, b.history.delivered, b.pending)
            && BlockingOnSockets(edges, b'.history.carrier, b.history.accepted, b.sessions)
  {}

  /** Fewer edges, some of them deferred, keep every promise. */
  lemma FewerEdgesKeep(b: Broker, edges: map<Key, AskEdge>)
    requires Inv(b) && FewerEdges(edges, b.edges)
    ensures Inv(WithEdges(b, edges))
  {
    hide EdgesShaped, Carried, BlockingOnSockets, MutualWaitsResolve, Indexed, OnSockets, Capped, Bound, CacheSound, Accounted, Mirrors, FewerEdges;
    FewerEdgesShaped(edges, b.edges);
    FewerEdgesResolve(edges, b.edges, b.pending);
    FewerEdgesCarried(b, edges);
  }

  lemma DropEdgesKeeps(b: Broker, keys: set<Key>)
    requires Inv(b)
    ensures Inv(DropEdges(b, keys))
  {
    hide Inv;
    FewerEdgesKeep(b, b.edges - keys);
  }

  lemma ClearEdgesKeeps(b: Broker, ids: set<Id>)
    requires Inv(b)
    ensures Inv(ClearEdgesOf(b, ids))
    ensures forall k :: k in ClearEdgesOf(b, ids).edges ==> !Touches(ClearEdgesOf(b, ids).edges[k], ids)
  {
    hide Inv;
    DropEdgesKeeps(b, set k | k in b.edges && Touches(b.edges[k], ids));
  }

  lemma DeferEdgesKeeps(b: Broker, id: Id)
    requires Inv(b)
    ensures Inv(DeferEdgesOf(b, id))
    ensures forall k :: k in DeferEdgesOf(b, id).edges && Touches(DeferEdgesOf(b, id).edges[k], {id}) ==>
      DeferEdgesOf(b, id).edges[k].state.Deferred?
  {
    hide Inv;
    FewerEdgesKeep(b, DeferEdgesOf(b, id).edges);
  }

  // ---------- Deliveries that end ----------

  ghost predicate FewerPending(pending: map<DeliveryId, Delivery>, was: map<DeliveryId, Delivery>) {
    forall d :: d in pending ==> d in was && pending[d] == was[d]
  }

  lemma FewerPendingCapped(pending: map<DeliveryId, Delivery>, was: map<DeliveryId, Delivery>)
    requires Capped(was) && FewerPending(pending, was)
    ensures Capped(pending)
  {
    forall some: set<DeliveryId> | some <= pending.Keys ensures |some| <= MAX_PENDING_DELIVERIES {
      assert some <= was.Keys;
    }
    forall id ensures |PendingFrom(pending, id)| <= MAX_PENDING_DELIVERIES_PER_SESSION {
      SubsetIsSmaller(PendingFrom(pending, id), PendingFrom(was, id));
    }
  }

  lemma FewerPendingIndexed(pending: map<DeliveryId, Delivery>, keys: map<Key, DeliveryId>, ended: set<DeliveryId>)
    requires Indexed(pending, keys)
    ensures Indexed(pending - ended, map k | k in keys && keys[k] !in ended :: keys[k])
  {}

  lemma FewerPendingOnSockets(pending: map<DeliveryId, Delivery>, was: map<DeliveryId, Delivery>, sessions: map<Id, Session>)
    requires OnSockets(was, sessions) && FewerPending(pending, was)
    ensures OnSockets(pending, sessions)
  {}

  /** The ask behind an ended delivery: the edge it made or the edge it replies to is gone. */
  ghost predicate EdgesGone(edges: map<Key, AskEdge>, pending: map<DeliveryId, Delivery>, ended: set<DeliveryId>, made: bool) {
    forall d :: d in pending && d in ended ==>
      if made then pending[d].message.IsAsk() ==> pending[d].key !in edges
      else pending[d].message.replyTo.Some? ==> Key(pending[d].to, pending[d].message.replyTo.value) !in edges
  }

  lemma EndedLeaveResolved(edges: map<Key, AskEdge>, pending: map<DeliveryId, Delivery>, ended: set<DeliveryId>, made: bool)
    requires EdgesShaped(edges) && MutualWaitsResolve(edges, pending) && EdgesGone(edges, pending, ended, made)
    ensures MutualWaitsResolve(edges, pending - ended)
  {
    forall k, l | WaitForEachOther(edges, k, l) ensures Resolves(pending - ended, k, l) {
      assert Resolves(pending, k, l);
      var d :| IsCounterAsk(pending, d, k, l) || IsCounterAsk(pending, d, l, k);
      assert d !in ended;
      assert IsCounterAsk(pending - ended, d, k, l) || IsCounterAsk(pending - ended, d, l, k);
    }
  }

  lemma EndedLeaveCarried(b: Broker, ended: set<DeliveryId>, delivered: set<DeliveryId>)
    requires Carried(b.edges, b.history.carrier, b.history.accepted, b.history.delivered, b.pending)
    requires Accounted(b.history.accepted, b.pending, b.history.delivered, b.history.failed, b.history.lost)
    requires b.history.delivered <= delivered
    requires EdgesGone(b.edges, b.pending, ended - delivered, true)
    ensures Carried(b.edges, b.history.carrier, b.history.accepted, delivered, b.pending - ended)
  {
    forall k | k in b.history.carrier ensures b.history.carrier[k] in b.pending - ended || b.history.carrier[k] in delivered {
      assert IsCarrier(b.history.carrier[k], k, b.edges[k], b.history.accepted);
    }
  }

  lemma EndedLeaveAsks(b: Broker, ended: set<DeliveryId>, delivered: set<DeliveryId>, made: bool, b': Broker)
    requires AsksHold(b) && Accounted(b.history.accepted, b.pending, b.history.delivered, b.history.failed, b.history.lost)
    requires b.history.delivered <= delivered && EdgesGone(b.edges, b.pending, ended, made)
    requires EdgesGone(b.edges, b.pending, ended - delivered, true)
    requires b'.edges == b.edges && b'.disk == b.disk && b'.sessions == b.sessions && b'.pending == b.pending - ended
    requires b'.history.carrier == b.history.carrier && b'.history.accepted == b.history.accepted && b'.history.delivered == delivered
    ensures AsksHold(b')
  {
    hide EdgesShaped, Carried, BlockingOnSockets, MutualWaitsResolve, Accounted, EdgesGone;
    EndedLeaveResolved(b.edges, b.pending, ended, made);
    EndedLeaveCarried(b, ended, delivered);
  }

  lemma EndedLeaveTables(b: Broker, b': Broker, ended: set<DeliveryId>)
    requires TablesHold(b) && b'.sessions == b.sessions && b'.connections == b.connections
    requires b'.pending == b.pending - ended
    requires b'.pendingKeys == map k | k in b.pendingKeys && b.pendingKeys[k] !in ended :: b.pendingKeys[k]
    ensures TablesHold(b')
  {
    hide Indexed, OnSockets, Capped, Bound;
    FewerPendingCapped(b'.pending, b.pending);
    FewerPendingIndexed(b.pending, b.pendingKeys, ended);
    FewerPendingOnSockets(b'.pending, b.pending, b.sessions);
  }

  lemma FailedAreAccounted(b: Broker, victims: set<DeliveryId>)
    requires Accounted(b.history.accepted, b.pending, b.history.delivered, b.history.failed, b.history.lost)
    ensures Accounted(b.history.accepted, b.pending - victims, b.history.delivered, b.history.failed + victims * b.pending.Keys, b.history.lost)
  {}

  /** What `FailAll` does to the tables, in terms of the deliveries. */
  lemma FailAllEffect(b: Broker, victims: set<DeliveryId>, code: Delivery -> FailureCode, now: int)
    requires Indexed(b.pending, b.pendingKeys)
    ensures var b' := FailAll(b, victims, code, now);
            && b'.pending == b.pending - victims
            && b'.pendingKeys == (map k | k in b.pendingKeys && b.pendingKeys[k] !in victims :: b.pendingKeys[k])
            && FewerEdges(b'.edges, b.edges) && EdgesGone(b'.edges, b.pending, victims, true)
            && (forall k :: k in b'.recent ==>
              if k in b.pendingKeys && b.pendingKeys[k] in victims then b'.recent[k].retryable && b'.recent[k].response.DeliveryFailed?
              else k in b.recent && b'.recent[k] == b.recent[k])
  {}

  lemma FailAllKeeps(b: Broker, victims: set<DeliveryId>, code: Delivery -> FailureCode, now: int)
    requires Inv(b)
    ensures Inv(FailAll(b, victims, code, now))
  {
    hide EdgesShaped, Carried, BlockingOnSockets, MutualWaitsResolve, Indexed, OnSockets, Capped, Bound, Accounted, Mirrors, EdgesGone, FewerEdges;
    var b' := FailAll(b, victims, code, now);
    FailAllEffect(b, victims, code, now);
    var dropped := WithEdges(b, b'.edges);
    FewerEdgesKeep(b, b'.edges);
    EndedLeaveTables(b, b', victims);
    FailedAreAccounted(b, victims);
    assert EdgesGone(dropped.edges, dropped.pending, victims - b.history.delivered, true) by {
      FailAllGone(b', b, victims);
    }
    EndedLeaveAsks(dropped, victims, b.history.delivered, true, b');
  }

  lemma FailAllGone(b': Broker, b: Broker, victims: set<DeliveryId>)
    requires EdgesGone(b'.edges, b.pending, victims, true)
    ensures EdgesGone(b'.edges, b.pending, victims - b.history.delivered, true)
  {}

  lemma DeliveredIsAccounted(b: Broker, d: DeliveryId)
    requires Accounted(b.history.accepted, b.pending, b.history.delivered, b.history.failed, b.history.lost) && d in b.pending
    ensures Accounted(b.history.accepted, b.pending - {d}, b.history.delivered + {d}, b.history.failed, b.history.lost)
    ensures d in b.history.accepted && b.history.accepted[d] == b.pending[d]
  {}

  lemma OneKeyLess(pending: map<DeliveryId, Delivery>, keys: map<Key, DeliveryId>, d: DeliveryId)
    requires Indexed(pending, keys) && d in pending
    ensures keys - {pending[d].key} == map k | k in keys && keys[k] !in {d} :: keys[k]
  {}

  lemma DeliveredIsCached(b: Broker, d: DeliveryId, now: int)
    requires CacheSound(b.recent, b.pendingKeys, b.history.accepted, b.history.delivered)
    requires d in b.pending && d in b.history.accepted && b.history.accepted[d] == b.pending[d]
    ensures var p := b.pending[d];
            CacheSound(b.recent[p.key := Answer(p, false, Delivered(d), now)], b.pendingKeys - {p.key}, b.history.accepted, b.history.delivered + {d})
  {
    forall k | k in b.recent && !b.recent[k].retryable ensures IsAnswerTo(b.recent[k], k, b.history.accepted, b.history.delivered + {d}) {
      assert IsAnswerTo(b.recent[k], k, b.history.accepted, b.history.delivered);
    }
  }

  lemma RepliedEdgeGone(edges: map<Key, AskEdge>, b: Broker, d: DeliveryId)
    requires d in b.pending
    requires b.pending[d].message.replyTo.Some? ==> Key(b.pending[d].to, b.pending[d].message.replyTo.value) !in edges
    ensures EdgesGone(edges, b.pending, {d}, false)
    ensures EdgesGone(edges, b.pending, {d} - (b.history.delivered + {d}), true)
  {}

  lemma AcknowledgeKeeps(b: Broker, d: DeliveryId, now: int)
    requires Inv(b) && d in b.pending
    ensures Inv(Acknowledge(b, d, now))
  {
    hide EdgesShaped, Carried, BlockingOnSockets, MutualWaitsResolve, Indexed, OnSockets, Capped, Bound, CacheSound, Accounted, Mirrors,
      EdgesGone, FewerEdges;
    var p, b' := b.pending[d], Acknowledge(b, d, now);
    var dropped := if p.message.replyTo.Some? then DropEdges(b, {Key(p.to, p.message.replyTo.value)}) else b;
    if p.message.replyTo.Some? { DropEdgesKeeps(b, {Key(p.to, p.message.replyTo.value)}); }
    OneKeyLess(b.pending, b.pendingKeys, d);
    EndedLeaveTables(b, b', {d});
    DeliveredIsAccounted(b, d);
    DeliveredIsCached(b, d, now);
    RepliedEdgeGone(dropped.edges, dropped, d);
    EndedLeaveAsks(dropped, {d}, b'.history.delivered, false, b');
  }

  // ---------- Sessions and connections ----------

  lemma RemoveSessionsKeeps(b: Broker, ids: set<Id>)
    requires Inv(b)
    requires forall d :: d in b.pending ==> b.pending[d].from !in ids && b.pending[d].to !in ids
    requires forall k :: k in b.edges && Touches(b.edges[k], ids) ==> b.edges[k].state.Deferred?
    ensures Inv(RemoveSessions(b, ids))
  {
    hide EdgesShaped, Carried, MutualWaitsResolve, Indexed, Capped, CacheSound, Accounted;
  }

  lemma NewSessionOnSockets(b: Broker, id: Id, session: Session)
    requires OnSockets(b.pending, b.sessions)
    requires BlockingOnSockets(b.edges, b.history.carrier, b.history.accepted, b.sessions)
    requires forall d :: d in b.pending ==> b.pending[d].from != id && b.pending[d].to != id
    requires forall k :: k in b.edges && Touches(b.edges[k], {id}) ==> b.edges[k].state.Deferred?
    ensures OnSockets(b.pending, b.sessions[id := session])
    ensures BlockingOnSockets(b.edges, b.history.carrier, b.history.accepted, b.sessions[id := session])
  {}

  lemma NewSessionBound(b: Broker, socket: Socket, id: Id, name: Option<string>, origin: Origin)
    requires Bound(b.sessions, b.connections) && socket in b.connections && b.connections[socket].sessionId.None?
    ensures var b' := AddSession(b, socket, id, name, origin);
            && Bound(b'.sessions, b'.connections) && b' == b.(sessions := b.sessions[id := Session(socket, name, origin)], connections := b'.connections)
  {}

  lemma AddSessionKeeps(b: Broker, socket: Socket, id: Id, name: Option<string>, origin: Origin)
    requires Inv(b) && socket in b.connections && b.connections[socket].sessionId.None?
    requires forall d :: d in b.pending ==> b.pending[d].from != id && b.pending[d].to != id
    requires forall k :: k in b.edges && Touches(b.edges[k], {id}) ==> b.edges[k].state.Deferred?
    requires MirrorsPrincipal(id, origin, b.registry)
    ensures Inv(AddSession(b, socket, id, name, origin))
  {
    hide EdgesShaped, Carried, MutualWaitsResolve, Indexed, Capped, CacheSound, Accounted, AddSession, OnSockets, BlockingOnSockets, Bound,
      MirrorsPrincipal;
    NewSessionOnSockets(b, id, Session(socket, name, origin));
    NewSessionBound(b, socket, id, name, origin);
  }

  lemma FewerRecentKeep(b: Broker, recent: map<Key, Recent>)
    requires Inv(b)
    requires forall k :: k in recent ==> k in b.recent && recent[k] == b.recent[k]
    ensures Inv(b.(recent := recent))
  {
    hide EdgesShaped, Carried, BlockingOnSockets, MutualWaitsResolve, Indexed, OnSockets, Capped, Bound, Accounted, Mirrors;
  }

  lemma ClearPendingKeeps(b: Broker, id: Id, now: int)
    requires Inv(b) && id in b.sessions
    ensures var b' := ClearPending(b, id, b.sessions[id].socket, now);
            && Inv(b') && b'.sessions == b.sessions && b'.connections == b.connections && b'.registry == b.registry
            && forall d :: d in b'.pending ==> d in b.pending && b'.pending[d].from != id && b'.pending[d].to != id
  {
    var socket := b.sessions[id].socket;
    hide Inv;
    FailAllKeeps(b, Involving(b.pending, id, socket),
      (p: Delivery) => if p.to == id && p.recipientSocket == socket then RecipientDisconnected else SenderDisconnected, now);
  }

  lemma LeaveKeeps(b: Broker, id: Id, preserveAsks: bool, now: int)
    requires Inv(b) && id in b.sessions
    ensures Inv(Leave(b, id, b.sessions[id].socket, preserveAsks, now))
  {
    hide Inv, ClearPending;
    var failed := ClearPending(b, id, b.sessions[id].socket, now);
    ClearPendingKeeps(b, id, now);
    if preserveAsks { DeferEdgesKeeps(failed, id); } else { ClearEdgesKeeps(failed, {id}); }
    RemoveSessionsKeeps(if preserveAsks then DeferEdgesOf(failed, id) else ClearEdgesOf(failed, {id}), {id});
  }

  lemma InvolvingAnyIsAll(b: Broker, ids: set<Id>)
    requires OnSockets(b.pending, b.sessions)
    ensures forall d :: d in b.pending && (b.pending[d].from in ids || b.pending[d].to in ids) ==> d in InvolvingAny(b, ids)
  {}

  lemma DisconnectKeeps(b: Broker, changed: set<Id>, now: int)
    requires Inv(b)
    ensures var b' := Disconnect(b, changed, now);
            && Inv(b') && b'.registry == b.registry
            && forall id :: id in b'.sessions ==> id in b.sessions && b'.sessions[id] == b.sessions[id] && id !in changed
  {
    var live := changed * b.sessions.Keys;
    InvolvingAnyIsAll(b, live);
    hide Inv, InvolvingAny;
    var failed := FailAll(b, InvolvingAny(b, live), _ => RecipientDisconnected, now);
    FailAllKeeps(b, InvolvingAny(b, live), _ => RecipientDisconnected, now);
    ClearEdgesKeeps(failed, live);
    var cleared := ClearEdgesOf(failed, live);
    RemoveSessionsKeeps(cleared, live);
    FewerRecentKeep(RemoveSessions(cleared, live), Disconnect(b, changed, now).recent);
  }

  // ---------- Accepting a delivery ----------

  lemma OneMoreCapped(pending: map<DeliveryId, Delivery>, d: DeliveryId, p: Delivery)
    requires Capped(pending) && d !in pending
    requires |pending| < MAX_PENDING_DELIVERIES && |PendingFrom(pending, p.from)| < MAX_PENDING_DELIVERIES_PER_SESSION
    ensures Capped(pending[d := p])
  {
    var pending' := pending[d := p];
    forall some: set<DeliveryId> | some <= pending'.Keys ensures |some| <= MAX_PENDING_DELIVERIES {
      SubsetIsSmaller(some, pending.Keys + {d});
      assert |pending.Keys| == |pending|;
    }
    forall id ensures |PendingFrom(pending', id)| <= MAX_PENDING_DELIVERIES_PER_SESSION {
      SubsetIsSmaller(PendingFrom(pending', id), if id == p.from then PendingFrom(pending, id) + {d} else PendingFrom(pending, id));
    }
  }

  lemma OneMoreEdgeCount(edges: map<Key, AskEdge>, k: Key, edge: AskEdge, id: Id)
    requires |EdgesFrom(edges, id)| <= MAX_PENDING_ASKS_PER_SESSION
    requires id == edge.from ==> |EdgesFrom(edges, id)| < MAX_PENDING_ASKS_PER_SESSION
    ensures |EdgesFrom(edges[k := edge], id)| <= MAX_PENDING_ASKS_PER_SESSION
  {
    var before, after := EdgesFrom(edges, id), EdgesFrom(edges[k := edge], id);
    if id == edge.from {
      SubsetIsSmaller(after, before + {k});
    } else {
      SubsetIsSmaller(after, before);
    }
  }

  lemma OneMoreEdgeShaped(edges: map<Key, AskEdge>, edge: AskEdge, m: Message)
    requires EdgesShaped(edges) && m.IsAsk() && AskRefusal(edges, edge.from, edge.to, m).None?
    ensures EdgesShaped(edges[Key(edge.from, edge.messageId) := edge])
  {
    assert |EdgesFrom(edges, edge.from)| < MAX_PENDING_ASKS_PER_SESSION;
    hide EdgesFrom;
    var k := Key(edge.from, edge.messageId);
    var edges' := edges[k := edge];
    forall id ensures |EdgesFrom(edges', id)| <= MAX_PENDING_ASKS_PER_SESSION {
      OneMoreEdgeCount(edges, k, edge, id);
    }
    assert !exists l :: l in edges && edges[l].from == edge.from && edges[l].to == edge.to;
  }

  /** The new delivery is one the checks of a send have passed. */
  ghost predicate Admissible(b: Broker, d: DeliveryId, p: Delivery) {
    && d !in b.history.accepted && WellDescribed(p) && p.key !in b.pendingKeys
    && (p.key in b.recent ==> b.recent[p.key].retryable)
    && p.from in b.sessions && b.sessions[p.from].socket == p.senderSocket
    && p.to in b.sessions && b.sessions[p.to].socket == p.recipientSocket
    && |b.pending| < MAX_PENDING_DELIVERIES && |PendingFrom(b.pending, p.from)| < MAX_PENDING_DELIVERIES_PER_SESSION
    && AskRefusal(b.edges, p.from, p.to, p.message).None?
  }

  lemma OneMoreIndexed(pending: map<DeliveryId, Delivery>, keys: map<Key, DeliveryId>, d: DeliveryId, p: Delivery)
    requires Indexed(pending, keys) && d !in pending && p.key !in keys
    ensures Indexed(pending[d := p], keys[p.key := d])
  {}

  lemma OneMoreOnSockets(pending: map<DeliveryId, Delivery>, sessions: map<Id, Session>, d: DeliveryId, p: Delivery)
    requires OnSockets(pending, sessions)
    requires p.from in sessions && sessions[p.from].socket == p.senderSocket
    requires p.to in sessions && sessions[p.to].socket == p.recipientSocket
    ensures OnSockets(pending[d := p], sessions)
  {}

  lemma OneMoreAccounted(h: History, pending: map<DeliveryId, Delivery>, d: DeliveryId, p: Delivery)
    requires Accounted(h.accepted, pending, h.delivered, h.failed, h.lost) && d !in h.accepted && WellDescribed(p)
    ensures Accounted(h.accepted[d := p], pending[d := p], h.delivered, h.failed, h.lost)
  {}

  lemma OneMoreCacheSound(recent: map<Key, Recent>, keys: map<Key, DeliveryId>, accepted: map<DeliveryId, Delivery>,
                          delivered: set<DeliveryId>, d: DeliveryId, p: Delivery)
    requires CacheSound(recent, keys, accepted, delivered) && d !in accepted
    requires p.key in recent ==> recent[p.key].retryable
    ensures CacheSound(recent, keys[p.key := d], accepted[d := p], delivered)
  {
    forall k | k in recent && !recent[k].retryable ensures IsAnswerTo(recent[k], k, accepted[d := p], delivered) {
      assert IsAnswerTo(recent[k], k, accepted, delivered);
    }
  }

  lemma AcceptKeepsMutualWaits(edges: map<Key, AskEdge>, edge: AskEdge, pending: map<DeliveryId, Delivery>, d: DeliveryId, p: Delivery)
    requires EdgesShaped(edges) && MutualWaitsResolve(edges, pending) && d !in pending && p.message.IsAsk()
    requires edge.from == p.from && edge.to == p.to && p.key == Key(p.from, p.message.id)
    requires AskRefusal(edges, p.from, p.to, p.message).None?
    ensures MutualWaitsResolve(edges[p.key := edge], pending[d := p])
  {
    var edges', pending' := edges[p.key := edge], pending[d := p];
    forall k, l | WaitForEachOther(edges', k, l) ensures Resolves(pending', k, l) {
      if k != p.key && l != p.key {
        assert WaitForEachOther(edges, k, l) && Resolves(pending, k, l);
        var x :| IsCounterAsk(pending, x, k, l) || IsCounterAsk(pending, x, l, k);
        assert IsCounterAsk(pending', x, k, l) || IsCounterAsk(pending', x, l, k);
      } else {
        var older := if k == p.key then l else k;
        assert !IsReverseWait(edges[older], p.from, p.to, p.message);
        assert IsCounterAsk(pending', d, older, p.key);
      }
    }
  }

  lemma MorePendingResolves(edges: map<Key, AskEdge>, pending: map<DeliveryId, Delivery>, more: map<DeliveryId, Delivery>)
    requires MutualWaitsResolve(edges, pending) && FewerPending(pending, more)
    ensures MutualWaitsResolve(edges, more)
  {
    forall k, l | WaitForEachOther(edges, k, l) ensures Resolves(more, k, l) {
      assert Resolves(pending, k, l);
      var x :| IsCounterAsk(pending, x, k, l) || IsCounterAsk(pending, x, l, k);
      assert IsCounterAsk(more, x, k, l) || IsCounterAsk(more, x, l, k);
    }
  }

  lemma OneMoreCarried(b: Broker, d: DeliveryId, p: Delivery, edge: AskEdge)
    requires Carried(b.edges, b.history.carrier, b.history.accepted, b.history.delivered, b.pending)
    requires BlockingOnSockets(b.edges, b.history.carrier, b.history.accepted, b.sessions)
    requires d !in b.history.accepted && p.message.IsAsk() && edge.from == p.from && edge.to == p.to
    requires p.from in b.sessions && b.sessions[p.from].socket == p.senderSocket
    requires p.to in b.sessions && b.sessions[p.to].socket == p.recipientSocket
    requires forall x :: x in b.pending ==> b.pending[x].key != p.key
    ensures Carried(b.edges[p.key := edge], b.history.carrier[p.key := d], b.history.accepted[d := p], b.history.delivered, b.pending[d := p])
    ensures BlockingOnSockets(b.edges[p.key := edge], b.history.carrier[p.key := d], b.history.accepted[d := p], b.sessions)
  {
    var carrier, accepted := b.history.carrier[p.key := d], b.history.accepted[d := p];
    forall k | k in carrier ensures IsCarrier(carrier[k], k, (b.edges[p.key := edge])[k], accepted) {
      if k != p.key { assert IsCarrier(b.history.carrier[k], k, b.edges[k], b.history.accepted); }
    }
  }

  lemma OneMorePlainCarried(b: Broker, d: DeliveryId, p: Delivery)
    requires Carried(b.edges, b.history.carrier, b.history.accepted, b.history.delivered, b.pending)
    requires BlockingOnSockets(b.edges, b.history.carrier, b.history.accepted, b.sessions)
    requires d !in b.history.accepted && !p.message.IsAsk()
    ensures Carried(b.edges, b.history.carrier, b.history.accepted[d := p], b.history.delivered, b.pending[d := p])
    ensures BlockingOnSockets(b.edges, b.history.carrier, b.history.accepted[d := p], b.sessions)
  {
    forall k | k in b.history.carrier ensures IsCarrier(b.history.carrier[k], k, b.edges[k], b.history.accepted[d := p]) {
      assert IsCarrier(b.history.carrier[k], k, b.edges[k], b.history.accepted);
    }
  }

  lemma AcceptedAreNew(b: Broker, d: DeliveryId, p: Delivery)
    requires Indexed(b.pending, b.pendingKeys) && p.key !in b.pendingKeys && d !in b.history.accepted
    requires Accounted(b.history.accepted, b.pending, b.history.delivered, b.history.failed, b.history.lost)
    ensures d !in b.pending
    ensures forall x :: x in b.pending ==> b.pending[x].key != p.key
  {}

  lemma CarrierSurvives(b: Broker, k: Key, edge: AskEdge)
    requires Carried(b.edges, b.history.carrier, b.history.accepted, b.history.delivered, b.pending)
    ensures WithEdges(b, b.edges[k := edge]).history.carrier == b.history.carrier
  {}

  lemma AcceptKeepsAsks(b: Broker, host: Host, d: DeliveryId, p: Delivery, now: int)
    requires AsksHold(b) && Admissible(b, d, p) && d !in b.pending
    requires forall x :: x in b.pending ==> b.pending[x].key != p.key
    ensures AsksHold(Accept(b, host, d, p, now))
  {
    hide EdgesShaped, Carried, BlockingOnSockets, MutualWaitsResolve, AskRefusal, PendingFrom;
    var edge := AskEdge(p.message.id, p.from, p.to, now, now + host.askTimeoutMs, Blocking);
    if p.message.IsAsk() {
      CarrierSurvives(b, p.key, edge);
      OneMoreEdgeShaped(b.edges, edge, p.message);
      AcceptKeepsMutualWaits(b.edges, edge, b.pending, d, p);
      OneMoreCarried(b, d, p, edge);
    } else {
      assert FewerPending(b.pending, b.pending[d := p]);
      MorePendingResolves(b.edges, b.pending, b.pending[d := p]);
      OneMorePlainCarried(b, d, p);
    }
  }

  lemma AcceptKeeps(b: Broker, host: Host, d: DeliveryId, p: Delivery, now: int)
    requires Inv(b) && Admissible(b, d, p)
    ensures Inv(Accept(b, host, d, p, now))
  {
    hide EdgesShaped, Carried, BlockingOnSockets, MutualWaitsResolve, Indexed, OnSockets, Capped, Bound, CacheSound, Accounted, Mirrors,
      AskRefusal, PendingFrom;
    AcceptedAreNew(b, d, p);
    OneMoreCapped(b.pending, d, p);
    OneMoreIndexed(b.pending, b.pendingKeys, d, p);
    OneMoreOnSockets(b.pending, b.sessions, d, p);
    OneMoreAccounted(b.history, b.pending, d, p);
    OneMoreCacheSound(b.recent, b.pendingKeys, b.history.accepted, b.history.delivered, d, p);
    AcceptKeepsAsks(b, host, d, p, now);
  }
}
