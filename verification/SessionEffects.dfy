/** What registering, leaving, closing and renaming do to every table. The remaining tables are
    determined by the invariant: pending keys follow the deliveries, and the disk the asks. */
module SessionEffects {

  import opened Wrappers
  import opened Forest
  import opened Messages
  import opened BrokerModel
  import opened BrokerInvariant
  import opened Entitlement
  import opened DeliveryEffects

  // ---------- Deliveries of sessions that leave ----------

  predicate Involves(p: Delivery, ids: set<Id>) {
    p.from in ids || p.to in ids
  }

  function Ended(pending: map<DeliveryId, Delivery>, ids: set<Id>): set<DeliveryId> {
    set d | d in pending && Involves(pending[d], ids)
  }

  function EndedKeys(pending: map<DeliveryId, Delivery>, ids: set<Id>): set<Key> {
    set d | d in pending && Involves(pending[d], ids) :: pending[d].key
  }

  function EndedAsks(pending: map<DeliveryId, Delivery>, ids: set<Id>): set<Key> {
    set d | d in pending && Involves(pending[d], ids) && pending[d].message.expectsReply == Some(true) :: pending[d].key
  }

  /** The deliveries from and to `ids`, and no others, are remembered as failed. */
  ghost predicate RemembersFailures(b: Broker, ids: set<Id>, code: Delivery -> FailureCode, now: int, recent: map<Key, Recent>) {
    && (forall d :: d in b.pending && Involves(b.pending[d], ids) ==>
      b.pending[d].key in recent && recent[b.pending[d].key] == Remembrance(b.pending[d], true, DeliveryFailed(code(b.pending[d])), now))
    && (forall k :: k !in EndedKeys(b.pending, ids) ==> (k in recent <==> k in b.recent) && (k in recent ==> recent[k] == b.recent[k]))
  }

  lemma FailingKeysOf(b: Broker, ids: set<Id>)
    requires Indexed(b.pending, b.pendingKeys)
    ensures Failing(b, Ended(b.pending, ids)) == EndedKeys(b.pending, ids)
    ensures FailingAsks(b, Ended(b.pending, ids)) == EndedAsks(b.pending, ids)
  {}

  lemma FailingAnswerOf(b: Broker, ids: set<Id>, code: Delivery -> FailureCode, now: int, d: DeliveryId)
    requires Indexed(b.pending, b.pendingKeys) && d in b.pending && Involves(b.pending[d], ids)
    ensures var recent, k := b.recent + FailureAnswers(b, Ended(b.pending, ids), code, now), b.pending[d].key;
            k in recent && recent[k] == Remembrance(b.pending[d], true, DeliveryFailed(code(b.pending[d])), now)
  {
    assert b.pending[d].key in b.pendingKeys && b.pendingKeys[b.pending[d].key] == d && d in Ended(b.pending, ids);
    hide Indexed, Ended, Involves;
  }

  lemma FailingAnswersOf(b: Broker, ids: set<Id>, code: Delivery -> FailureCode, now: int)
    requires Indexed(b.pending, b.pendingKeys)
    ensures RemembersFailures(b, ids, code, now, b.recent + FailureAnswers(b, Ended(b.pending, ids), code, now))
  {
    hide Indexed, Failing, Involves, Ended, EndedKeys, Remembrance, Answer;
    FailingKeysOf(b, ids);
    forall d | d in b.pending && Involves(b.pending[d], ids) { FailingAnswerOf(b, ids, code, now, d); }
  }

  /** Failing all deliveries from and to some sessions takes away these and the asks they carried. */
  lemma FailingAllOf(b: Broker, ids: set<Id>, code: Delivery -> FailureCode, now: int)
    requires Inv(b)
    ensures var b' := FailAll(b, Ended(b.pending, ids), code, now);
            && SamePeople(b, b') && b'.pending == b.pending - Ended(b.pending, ids)
            && b'.edges == b.edges - EndedAsks(b.pending, ids)
            && RemembersFailures(b, ids, code, now, b'.recent)
  {
    hide Inv, Indexed, Mirrors, Failing, FailingAsks, FailureAnswers, RemembersFailures, Ended, EndedAsks, EndedKeys;
    TablesOf(b);
    FailingKeysOf(b, ids);
    FailingAnswersOf(b, ids, code, now);
  }

  /** An ask whose delivery ends with one of the sessions is an ask from or to that session. */
  lemma EndedAskTouches(b: Broker, ids: set<Id>, k: Key)
    requires Inv(b) && k in EndedAsks(b.pending, ids) && k in b.edges
    ensures b.edges[k].from in ids || b.edges[k].to in ids
  {
    hide TablesHold, CacheSound, BlockingOnSockets, MutualWaitsResolve, Mirrors;
    var d :| d in b.pending && Involves(b.pending[d], ids) && b.pending[d].message.expectsReply == Some(true) && b.pending[d].key == k;
    assert IsCarrier(d, k, b.edges[k], b.history.accepted) && WellDescribed(b.history.accepted[d]);
  }

  // ---------- One session leaves ----------

  function LeavingCode(id: Id): Delivery -> FailureCode {
    (p: Delivery) => if p.to == id then RecipientDisconnected else SenderDisconnected
  }

  ghost predicate AreDeferredOf(edges: map<Key, AskEdge>, id: Id, was: map<Key, AskEdge>, gone: set<Key>) {
    && edges.Keys == was.Keys - gone
    && forall k :: k in edges ==>
      edges[k] == if was[k].from == id || was[k].to == id then was[k].(state := Deferred) else was[k]
  }

  ghost predicate AreWithout(edges: map<Key, AskEdge>, ids: set<Id>, was: map<Key, AskEdge>) {
    && (forall k :: k in edges <==> k in was && was[k].from !in ids && was[k].to !in ids)
    && (forall k :: k in edges ==> edges[k] == was[k])
  }

  /** All deliveries from and to the session have failed; its asks, and the asks put to it, are
      deferred, except those whose delivery has failed, or they are all gone. */
  ghost predicate HasLeft(b: Broker, id: Id, preserveAsks: bool, now: int, b': Broker) {
    && b'.registry == b.registry
    && b'.pending == b.pending - Ended(b.pending, {id})
    && RemembersFailures(b, {id}, LeavingCode(id), now, b'.recent)
    && if preserveAsks then AreDeferredOf(b'.edges, id, b.edges, EndedAsks(b.pending, {id})) else AreWithout(b'.edges, {id}, b.edges)
  }

  lemma InvolvingIsEnded(b: Broker, id: Id)
    requires Inv(b) && id in b.sessions
    ensures Involving(b.pending, id, b.sessions[id].socket) == Ended(b.pending, {id})
    ensures forall d :: d in b.pending && b.pending[d].to == id ==> b.pending[d].recipientSocket == b.sessions[id].socket
  {
    hide RecordsHold, AsksHold, Mirrors, Indexed, Capped, Bound;
  }

  lemma SameCodes(b: Broker, ids: set<Id>, code: Delivery -> FailureCode, other: Delivery -> FailureCode, now: int, recent: map<Key, Recent>)
    requires RemembersFailures(b, ids, code, now, recent)
    requires forall d :: d in b.pending ==> code(b.pending[d]) == other(b.pending[d])
    ensures RemembersFailures(b, ids, other, now, recent)
  {
    hide EndedKeys;
  }

  lemma ClearingPending(b: Broker, id: Id, now: int)
    requires Inv(b) && id in b.sessions
    ensures var b' := ClearPending(b, id, b.sessions[id].socket, now);
            && SamePeople(b, b') && b'.pending == b.pending - Ended(b.pending, {id}) && b'.edges == b.edges - EndedAsks(b.pending, {id})
            && RemembersFailures(b, {id}, LeavingCode(id), now, b'.recent)
  {
    hide Inv, FailAll, Involving, Ended, EndedAsks, RemembersFailures;
    var socket := b.sessions[id].socket;
    var code := (p: Delivery) => if p.to == id && p.recipientSocket == socket then RecipientDisconnected else SenderDisconnected;
    InvolvingIsEnded(b, id);
    FailingAllOf(b, {id}, code, now);
    SameCodes(b, {id}, code, LeavingCode(id), now, ClearPending(b, id, socket, now).recent);
  }

  lemma DeferringExactly(b: Broker, id: Id)
    ensures var b' := DeferEdgesOf(b, id);
            SamePeople(b, b') && b'.pending == b.pending && b'.recent == b.recent && AreDeferredOf(b'.edges, id, b.edges, {})
  {}

  lemma ClearingExactly(b: Broker, ids: set<Id>)
    ensures var b' := ClearEdgesOf(b, ids);
            SamePeople(b, b') && b'.pending == b.pending && b'.recent == b.recent && AreWithout(b'.edges, ids, b.edges)
  {}

  lemma LeavingExactly(b: Broker, id: Id, preserveAsks: bool, now: int)
    requires Inv(b) && id in b.sessions
    ensures var b' := Leave(b, id, b.sessions[id].socket, preserveAsks, now);
            HasLeft(b, id, preserveAsks, now, b') && b'.sessions == b.sessions - {id} && b'.connections == b.connections
    ensures var b' := DeferEdgesOf(ClearPending(b, id, b.sessions[id].socket, now), id); HasLeft(b, id, true, now, b') && SamePeople(b, b')
  {
    hide Inv, ClearPending, DeferEdgesOf, ClearEdgesOf, Ended, EndedAsks, RemembersFailures;
    var failed := ClearPending(b, id, b.sessions[id].socket, now);
    ClearingPending(b, id, now);
    DeferringExactly(failed, id);
    ClearingExactly(failed, {id});
    forall k | k in b.edges && k in EndedAsks(b.pending, {id}) { EndedAskTouches(b, {id}, k); }
  }

  // ---------- The handlers ----------

  /** Deliveries, asks, recent answers and principals are as they were. */
  ghost predicate SameTraffic(b: Broker, b': Broker) {
    b'.pending == b.pending && b'.edges == b.edges && b'.recent == b.recent && b'.registry == b.registry
  }

  lemma AddingExactly(b: Broker, socket: Socket, id: Id, name: Option<string>, origin: Origin)
    requires socket in b.connections
    ensures var b' := AddSession(b, socket, id, name, origin);
            && b'.sessions == b.sessions[id := Session(socket, name, origin)]
            && b'.connections == b.connections[socket := b.connections[socket].(sessionId := Some(id))]
            && SameTraffic(b, b')
  {}

  lemma StillHasLeft(b: Broker, id: Id, preserveAsks: bool, now: int, mid: Broker, b': Broker)
    requires HasLeft(b, id, preserveAsks, now, mid) && SameTraffic(mid, b')
    ensures HasLeft(b, id, preserveAsks, now, b')
  {
    hide RemembersFailures, AreDeferredOf, AreWithout, Ended, EndedAsks;
  }

  /** A local connection that speaks for nobody yet may register a session: a new one if there are
      fewer than 128, a known one always, and then the session leaves its old socket with its asks
      deferred. Any other registration changes nothing. */
  lemma LocalRegistrationDecides(b: Broker, socket: Socket, id: Id, name: Option<string>, now: int)
    requires Inv(b)
    ensures var b' := RegisterLocal(b, socket, id, name, now);
            if socket in b.connections && b.connections[socket] == Connection(false, None) && (id in b.sessions || |b.sessions| < 128) then
              && b'.sessions == b.sessions[id := Session(socket, name, Local)]
              && b'.connections == b.connections[socket := Connection(false, Some(id))]
              && if id in b.sessions then HasLeft(b, id, true, now, b') else SameTraffic(b, b')
            else b' == b
  {
    hide Inv, ClearPending, DeferEdgesOf, HasLeft, SameTraffic, AddSession;
    if Unregistered(b, socket, false) {
      AddingExactly(b, socket, id, name, Local);
      if id in b.sessions {
        var left := DeferEdgesOf(ClearPending(b, id, b.sessions[id].socket, now), id);
        LeavingExactly(b, id, true, now);
        AddingExactly(left, socket, id, name, Local);
        StillHasLeft(b, id, true, now, left, AddSession(left, socket, id, name, Local));
      }
    }
  }

  lemma UnbindingExactly(b: Broker, socket: Socket)
    requires socket in b.connections
    ensures var b' := Bind(b, socket, None);
            && b'.connections == b.connections[socket := b.connections[socket].(sessionId := None)]
            && b'.sessions == b.sessions && SameTraffic(b, b')
  {}

  /** A session that unregisters on its current socket leaves; on a socket it has been replaced
      on, only that connection stops speaking for it. */
  lemma UnregisteringDecides(b: Broker, socket: Socket, id: Id, preserveAsks: bool, now: int)
    requires Inv(b)
    ensures var b' := Unregister(b, socket, preserveAsks, now);
            && (Speaks(b, socket, id, now) ==>
              && b'.connections == b.connections[socket := b.connections[socket].(sessionId := None)]
              && if b.sessions[id].socket == socket then b'.sessions == b.sessions - {id} && HasLeft(b, id, preserveAsks, now, b')
                 else b'.sessions == b.sessions && SameTraffic(b, b'))
            && ((forall x :: !Speaks(b, socket, x, now)) ==> b' == b)
  {
    hide Inv, Leave, Bind, HasLeft, SameTraffic, Speaker, Entitled;
    SpeakerExactly(b, socket, id, now);
    if Speaks(b, socket, id, now) {
      SpeakerIsLive(b, socket, id, now);
      LeavingExactly(b, id, preserveAsks, now);
      var left := if b.sessions[id].socket == socket then Leave(b, id, socket, preserveAsks, now) else b;
      UnbindingExactly(left, socket);
      if b.sessions[id].socket == socket { StillHasLeft(b, id, preserveAsks, now, left, Bind(left, socket, None)); }
    }
    if Speaker(b, socket, now).Some? { SpeakerExactly(b, socket, Speaker(b, socket, now).value, now); }
  }

  lemma SpeakerIsLive(b: Broker, socket: Socket, id: Id, now: int)
    requires Speaks(b, socket, id, now)
    ensures id in b.sessions && socket in b.connections
  {}

  /** When a connection closes, the session it was the current one of leaves with its asks
      deferred, whether or not it could still speak. */
  lemma ClosingDecides(b: Broker, socket: Socket, now: int)
    requires Inv(b)
    ensures var b' := Close(b, socket, now);
            if socket !in b.connections then b' == b
            else
              && b'.connections == b.connections - {socket}
              && match b.connections[socket].sessionId
                 case Some(id) =>
                   if id in b.sessions && b.sessions[id].socket == socket then b'.sessions == b.sessions - {id} && HasLeft(b, id, true, now, b')
                   else b'.sessions == b.sessions && SameTraffic(b, b')
                 case None => b'.sessions == b.sessions && SameTraffic(b, b')
  {
    hide Inv, Leave, HasLeft;
    if socket in b.connections && b.connections[socket].sessionId.Some? {
      var id := b.connections[socket].sessionId.value;
      if id in b.sessions && b.sessions[id].socket == socket {
        LeavingExactly(b, id, true, now);
        StillHasLeft(b, id, true, now, Leave(b, id, socket, true, now), Close(b, socket, now));
      }
    }
  }

  /** Only a local session on its current socket changes its name, and only its own. */
  lemma RenamingDecides(b: Broker, socket: Socket, id: Id, name: string, now: int)
    ensures var b' := Rename(b, socket, name, now);
            && (Speaks(b, socket, id, now) ==>
              if b.sessions[id].socket == socket && b.sessions[id].origin == Local
              then b' == b.(sessions := b.sessions[id := Session(socket, Some(name), Local)]) else b' == b)
            && ((forall x :: !Speaks(b, socket, x, now)) ==> b' == b)
  {
    hide Speaker, Entitled;
    SpeakerExactly(b, socket, id, now);
    if Speaks(b, socket, id, now) { SpeakerIsLive(b, socket, id, now); }
    if Speaker(b, socket, now).Some? { SpeakerExactly(b, socket, Speaker(b, socket, now).value, now); }
  }
}
