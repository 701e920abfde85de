/** What a run of the broker promises about asks, and what a restart makes of them. */
module AskTheorems {

  import opened Wrappers
  import opened Forest
  import opened RegistryModel
  import opened Messages
  import opened BrokerModel
  import opened BrokerInvariant
  import opened BrokerSteps
  import opened BrokerRuns
  import DeliveryTheorems

  // ---------- Edges over their lifetime ----------

  /** In every reachable state: at most one edge for each ordered pair of sessions, at most 64
      for each asker; a blocking edge has both ends connected, on the sockets of the delivery
      that carried it; and that delivery is pending or was acknowledged. */
  lemma AskEdgesAreSound(host: Host, events: seq<Timed>, k: Key, l: Key, id: Id)
    requires IsRun(host, events)
    ensures var b := Run(host, events).broker; var h := b.history;
            && |EdgesFrom(b.edges, id)| <= MAX_PENDING_ASKS_PER_SESSION
            && (k in b.edges && l in b.edges && b.edges[k].from == b.edges[l].from && b.edges[k].to == b.edges[l].to ==> k == l)
            && (k in b.edges && b.edges[k].state.Blocking? ==>
              && k in h.carrier && h.carrier[k] in h.accepted
              && (h.carrier[k] in b.pending || h.carrier[k] in h.delivered)
              && var p := h.accepted[h.carrier[k]];
                 && p.key == k && p.message.IsAsk() && p.to == b.edges[k].to && p.from == b.edges[k].from
                 && p.from in b.sessions && b.sessions[p.from].socket == p.senderSocket
                 && p.to in b.sessions && b.sessions[p.to].socket == p.recipientSocket)
  {
    ReachableStatesHold(host, events);
    var b := Run(host, events).broker;
    hide TablesHold, CacheSound, MutualWaitsResolve, Run, IsRun, Mirrors;
    if k in b.edges && b.edges[k].state.Blocking? {
      assert IsCarrier(b.history.carrier[k], k, b.edges[k], b.history.accepted);
      assert WellDescribed(b.history.accepted[b.history.carrier[k]]);
    }
  }

  // ---------- No lasting mutual wait ----------

  /** When two sessions block on each other, a pending delivery is the counter-ask that made
      one of the edges and replies to the other. */
  lemma MutualWaitHasCounterAsk(host: Host, events: seq<Timed>, k: Key, l: Key) returns (d: DeliveryId)
    requires IsRun(host, events) && WaitForEachOther(Run(host, events).broker.edges, k, l)
    ensures var pending := Run(host, events).broker.pending; IsCounterAsk(pending, d, k, l) || IsCounterAsk(pending, d, l, k)
  {
    ReachableStatesHold(host, events);
    var b := Run(host, events).broker;
    hide TablesHold, RecordsHold, Mirrors, EdgesShaped, Carried, BlockingOnSockets, Run, IsRun;
    assert Resolves(b.pending, k, l);
    d :| IsCounterAsk(b.pending, d, k, l) || IsCounterAsk(b.pending, d, l, k);
  }

  /** So with nothing pending no two sessions block on each other. */
  lemma NoLastingMutualWait(host: Host, events: seq<Timed>, k: Key, l: Key)
    requires IsRun(host, events) && Run(host, events).broker.pending == map[]
    ensures !WaitForEachOther(Run(host, events).broker.edges, k, l)
  {
    if WaitForEachOther(Run(host, events).broker.edges, k, l) {
      var d := MutualWaitHasCounterAsk(host, events, k, l);
    }
  }

  /** However the counter-ask ends, it ends the mutual wait: acknowledging it removes exactly
      the older edge, failing it exactly the newer one. */
  lemma CounterAskEndsMutualWait(b: Broker, d: DeliveryId, older: Key, newer: Key, code: FailureCode, now: int)
    requires Inv(b) && WaitForEachOther(b.edges, older, newer) && IsCounterAsk(b.pending, d, older, newer)
    ensures Acknowledge(b, d, now).edges == b.edges - {older}
    ensures FailDelivery(b, d, code, now).edges == b.edges - {newer}
  {
    hide OnSockets, Capped, Bound, RecordsHold, Mirrors, Carried, BlockingOnSockets, MutualWaitsResolve;
    assert older == Key(b.edges[older].from, b.edges[older].messageId);
    assert b.pendingKeys[newer] == d;
    assert FailingAsks(b, {d}) == {newer};
    hide FailingAsks, Failing, EdgesShaped, Indexed, FailureAnswers;
  }

  // ---------- Persistence and restart ----------

  /** After every step what is on disk is what is in memory, so a restart, at any moment, comes
      back with exactly the unexpired edges, under the same keys, all of them deferred. */
  lemma RestartRestoresUnexpiredEdges(host: Host, events: seq<Timed>, now: int, k: Key)
    requires IsRun(host, events)
    ensures var b := Run(host, events).broker; var b' := Restart(b, now);
            && b.disk == b.edges
            && (k in b'.edges <==> k in b.edges && b.edges[k].expiresAt > now)
            && (k in b'.edges ==> b'.edges[k] == b.edges[k].(state := Deferred))
            && b'.disk == b'.edges
  {
    ReachableStatesHold(host, events);
    hide TablesHold, RecordsHold, Mirrors, EdgesShaped, Carried, BlockingOnSockets, MutualWaitsResolve, Run, IsRun;
  }

  /** Writing edges to disk is enough: whenever the broker crashes after it, the next one has
      exactly those of them whose time is not over, and no carrier of any other. */
  lemma PersistedAsksComeBack(b: Broker, edges: map<Key, AskEdge>, later: int, k: Key)
    ensures var saved := WithEdges(b, edges); var back := Restart(saved, later).edges;
            && (k in back <==> k in edges && edges[k].expiresAt > later) && (k in back ==> back[k] == edges[k].(state := Deferred))
            && saved.history.carrier.Keys <= edges.Keys && WithEdges(saved, edges) == saved
  {
    var saved := WithEdges(b, edges);
    assert WithEdges(saved, edges).history.carrier == saved.history.carrier;
  }

  /** An accepted ask outlives a crash of the broker: whenever the next broker starts before the
      ask's time is over it has the ask, deferred, and otherwise it has not. */
  lemma AcceptedAskOutlivesACrash(b: Broker, host: Host, socket: Socket, from: Id, to: string, m: Message, d: DeliveryId, target: Id,
                                  now: int, later: int)
    requires Inv(b) && d !in b.history.accepted && m.IsAsk() && Speaker(b, socket, now) == Some(from)
    requires Send(b, host, socket, to, m, d, now).1 == Accepted(d, target)
    ensures var k, back := Key(from, m.id), Restart(Send(b, host, socket, to, m, d, now).0, later).edges;
            && (k in back <==> later < now + host.askTimeoutMs)
            && (k in back ==> back[k] == AskEdge(m.id, from, target, now, now + host.askTimeoutMs, Deferred))
  {
    hide Inv, Indexed, Send, Speaker, Restored;
    AcceptedAskIsAnEdge(b, host, socket, from, to, m, d, target, now);
    SendKeeps(b, host, socket, to, m, d, now);
    var b' := Send(b, host, socket, to, m, d, now).0;
    TablesOf(b');
    RestoredOne(b'.edges, later, Key(from, m.id));
  }

  lemma RestoredOne(edges: map<Key, AskEdge>, later: int, k: Key)
    ensures var back := Restored(edges, later);
            (k in back <==> k in edges && edges[k].expiresAt > later) && (k in back ==> back[k] == edges[k].(state := Deferred))
  {}

  lemma AcceptedAskIsAnEdge(b: Broker, host: Host, socket: Socket, from: Id, to: string, m: Message, d: DeliveryId, target: Id, now: int)
    requires m.IsAsk() && Speaker(b, socket, now) == Some(from) && Send(b, host, socket, to, m, d, now).1 == Accepted(d, target)
    ensures var k, edges := Key(from, m.id), Send(b, host, socket, to, m, d, now).0.edges;
            k in edges && edges[k] == AskEdge(m.id, from, target, now, now + host.askTimeoutMs, Blocking)
  {
    assert from in b.sessions;
    hide Speaker, Deduplicate, Route, DeliveryTheorems.MayAccept, FewerPending, FewerEdges;
    DeduplicateIsCalm(b, host, from, to, m, now);
    DeliveryTheorems.DeduplicationShrinks(b, host, from, to, m, now);
    DeliveryTheorems.RoutedAsAllowed(Deduplicate(b, host, from, to, m, now).0, host, socket, from, to, m, d, now);
  }

  /** Closing connections one after another. */
  ghost function CloseEach(b: Broker, sockets: seq<Socket>, now: int): Broker {
    if sockets == [] then b else Close(CloseEach(b, sockets[..|sockets| - 1], now), sockets[|sockets| - 1], now)
  }

  /** The asks whose delivery is pending. */
  function PendingAsks(pending: map<DeliveryId, Delivery>): set<Key> {
    set d | d in pending && pending[d].message.IsAsk() :: pending[d].key
  }

  ghost predicate EdgesAfterClosing(b: Broker, b': Broker) {
    && FewerEdges(b'.edges, b.edges) && FewerPending(b'.pending, b.pending)
    && forall k :: k in b.edges ==> (k !in b'.edges <==> k in PendingAsks(b.pending) - PendingAsks(b'.pending))
  }

  lemma PendingAskHasKey(pending: map<DeliveryId, Delivery>, keys: map<Key, DeliveryId>, k: Key)
    requires Indexed(pending, keys)
    ensures k in PendingAsks(pending) <==> k in keys && keys[k] in pending && pending[keys[k]].message.IsAsk()
  {}

  lemma FailAllAfterClosing(b: Broker, victims: set<DeliveryId>, code: Delivery -> FailureCode, now: int)
    requires Inv(b)
    ensures EdgesAfterClosing(b, FailAll(b, victims, code, now))
  {
    hide OnSockets, Capped, Bound, RecordsHold, Mirrors, Carried, BlockingOnSockets, MutualWaitsResolve, EdgesShaped, Indexed, PendingAsks, EdgesGone;
    var b' := FailAll(b, victims, code, now);
    FailAllEffect(b, victims, code, now);
    FewerPendingIndexed(b.pending, b.pendingKeys, victims);
    forall k | k in b.edges ensures k !in b'.edges <==> k in PendingAsks(b.pending) - PendingAsks(b'.pending) {
      PendingAskHasKey(b.pending, b.pendingKeys, k);
      PendingAskHasKey(b'.pending, b'.pendingKeys, k);
    }
  }

  lemma LeaveAfterClosing(b: Broker, id: Id, now: int)
    requires Inv(b) && id in b.sessions
    ensures EdgesAfterClosing(b, Leave(b, id, b.sessions[id].socket, true, now))
  {
    hide FailAll, Inv, PendingAsks;
    var socket := b.sessions[id].socket;
    FailAllAfterClosing(b, Involving(b.pending, id, socket),
      (p: Delivery) => if p.to == id && p.recipientSocket == socket then RecipientDisconnected else SenderDisconnected, now);
  }

  lemma ClosingComposes(b: Broker, mid: Broker, b': Broker)
    requires EdgesAfterClosing(b, mid) && EdgesAfterClosing(mid, b')
    ensures EdgesAfterClosing(b, b')
  {
    assert PendingAsks(b'.pending) <= PendingAsks(mid.pending) <= PendingAsks(b.pending);
    hide PendingAsks;
  }

  lemma CloseAfterClosing(b: Broker, socket: Socket, now: int)
    requires Inv(b)
    ensures EdgesAfterClosing(b, Close(b, socket, now))
    ensures forall id :: id in Close(b, socket, now).sessions ==> id in b.sessions && b.sessions[id].socket != socket
  {
    hide Leave, Inv, PendingAsks;
    if socket in b.connections {
      match b.connections[socket].sessionId
      case None => UnboundIsUnused(b, socket);
      case Some(id) =>
        SocketsAreDistinct(b, socket, id);
        if id in b.sessions && b.sessions[id].socket == socket {
          LeaveAfterClosing(b, id, now);
          LeaveRemoves(b, id, socket, true, now);
        }
    } else {
      UnconnectedIsUnused(b, socket);
    }
  }

  lemma UnconnectedIsUnused(b: Broker, socket: Socket)
    requires Inv(b) && socket !in b.connections
    ensures forall id :: id in b.sessions ==> b.sessions[id].socket != socket
  {
    hide AsksHold, RecordsHold, Mirrors, Indexed, OnSockets, Capped;
  }

  lemma {:induction false} CloseEachCloses(b: Broker, sockets: seq<Socket>, now: int)
    requires Inv(b)
    ensures var b' := CloseEach(b, sockets, now);
            && Inv(b') && EdgesAfterClosing(b, b')
            && forall id :: id in b'.sessions ==> id in b.sessions && b'.sessions[id] == b.sessions[id] && b.sessions[id].socket !in sockets
    decreases |sockets|
  {
    hide Inv, Close, PendingAsks, EdgesAfterClosing;
    if sockets == [] {
      ClosingNothing(b);
    } else {
      var n := |sockets| - 1;
      var mid := CloseEach(b, sockets[..n], now);
      CloseEachCloses(b, sockets[..n], now);
      CloseKeeps(mid, sockets[n], now);
      CloseAfterClosing(mid, sockets[n], now);
      CloseKeepsOthers(mid, sockets[n], now);
      ClosingComposes(b, mid, Close(mid, sockets[n], now));
      assert sockets == sockets[..n] + [sockets[n]];
    }
  }

  lemma ClosingNothing(b: Broker)
    ensures EdgesAfterClosing(b, b)
  {}

  lemma CloseKeepsOthers(b: Broker, socket: Socket, now: int)
    ensures forall id :: id in Close(b, socket, now).sessions ==> id in b.sessions && Close(b, socket, now).sessions[id] == b.sessions[id]
  {}

  lemma AloneIsIdle(b: Broker)
    requires Inv(b) && b.sessions == map[]
    ensures b.pending == map[]
    ensures forall k :: k in b.edges ==> b.edges[k].state.Deferred?
  {
    hide EdgesShaped, Carried, MutualWaitsResolve, RecordsHold, Mirrors, Indexed, Capped, Bound;
  }

  /** Disconnecting every session leaves the edges that were not waiting for a delivery, all of
      them deferred. */
  lemma ClosingAllDefersAll(b: Broker, sockets: seq<Socket>, now: int)
    requires Inv(b) && forall id :: id in b.sessions ==> b.sessions[id].socket in sockets
    ensures CloseEach(b, sockets, now).edges ==
            map k | k in b.edges && k !in PendingAsks(b.pending) :: b.edges[k].(state := Deferred)
  {
    hide Inv, Close, PendingAsks;
    CloseEachCloses(b, sockets, now);
    var b' := CloseEach(b, sockets, now);
    assert b'.sessions == map[];
    AloneIsIdle(b');
    NothingPendingNoAsks();
  }

  lemma NothingPendingNoAsks()
    ensures PendingAsks(map[]) == {}
  {}

  /** Which edges a restart makes of all edges, and of those left by an orderly shutdown. */
  lemma RestoredAgree(edges: map<Key, AskEdge>, asks: set<Key>, now: int)
    ensures var closed := map k | k in edges && k !in asks :: edges[k].(state := Deferred);
            Restored(edges, now) == Restored(closed, now) <==> forall k :: k in asks && k in edges ==> edges[k].expiresAt <= now
  {
    var closed := map k | k in edges && k !in asks :: edges[k].(state := Deferred);
    if forall k :: k in asks && k in edges ==> edges[k].expiresAt <= now {
      assert Restored(edges, now).Keys == Restored(closed, now).Keys;
    } else {
      var k :| k in asks && k in edges && edges[k].expiresAt > now;
      assert k in Restored(edges, now) && k !in Restored(closed, now);
    }
  }

  /** A crash and an orderly shutdown of every session leave the next broker the same asks if
      and only if no unexpired ask was still waiting for its delivery. */
  lemma RestartRefinesClosingAll(b: Broker, sockets: seq<Socket>, now: int)
    requires Inv(b) && forall id :: id in b.sessions ==> b.sessions[id].socket in sockets
    ensures Restart(b, now).edges == Restored(CloseEach(b, sockets, now).edges, now) <==>
            forall k :: k in PendingAsks(b.pending) && k in b.edges ==> b.edges[k].expiresAt <= now
  {
    assert b.disk == b.edges;
    hide Inv, CloseEach, PendingAsks, Restored;
    ClosingAllDefersAll(b, sockets, now);
    RestoredAgree(b.edges, PendingAsks(b.pending), now);
  }

  // ---------- Why an ask ends ----------

  /** A delivery that carried the ask failed. */
  ghost predicate CarrierFailed(pending: map<DeliveryId, Delivery>, k: Key, h: History) {
    exists d :: d in pending && pending[d].key == k && pending[d].message.IsAsk() && d in h.failed
  }

  /** The delivery replies to the ask of this key. */
  predicate RepliesTo(p: Delivery, k: Key) {
    p.to == k.from && p.message.replyTo == Some(k.messageId)
  }

  /** A reply by the session that was asked was delivered. */
  ghost predicate Answered(pending: map<DeliveryId, Delivery>, k: Key, asked: Id, h: History) {
    exists d :: d in pending && RepliesTo(pending[d], k) && pending[d].from == asked && d in h.delivered
  }

  /** A reply by another session was delivered, one that was asked before the ask was sent again. */
  ghost predicate AnsweredByAnother(pending: map<DeliveryId, Delivery>, k: Key, asked: Id, h: History) {
    exists d :: d in pending && RepliesTo(pending[d], k) && pending[d].from != asked && d in h.delivered
  }

  /** The ask is still there, to the same session and with the same times. */
  ghost predicate Stays(b: Broker, b': Broker, k: Key)
    requires k in b.edges
  {
    k in b'.edges && SameAsk(b'.edges[k], b.edges[k])
  }

  /** The reasons for which a step that leaves history `h` may take an ask away. */
  ghost predicate MayEnd(b: Broker, e: Event, now: int, k: Key, h: History)
    requires k in b.edges
  {
    || CarrierFailed(b.pending, k, h)
    || Answered(b.pending, k, b.edges[k].to, h)
    || AnsweredByAnother(b.pending, k, b.edges[k].to, h)
    || (e.CancelAskE? && Speaker(b, e.socket, now) == Some(k.from) && e.messageId == k.messageId)
    || (e.AskExpiryE? && e.key == k && b.edges[k].expiresAt <= now)
    || (e.RestartE? && b.edges[k].expiresAt <= now)
    || (e.UnregisterE? && !e.preserveAsks && Speaker(b, e.socket, now).Some? && Touches(b.edges[k], {Speaker(b, e.socket, now).value}))
    || (IsTransition(e) && Touches(b.edges[k], Transitioned(b, e, now) * b.sessions.Keys))
  }

  /** The asker sends the ask again, nothing answers it, and the name it is for now stands for
      another session, which may be asked. */
  ghost predicate Redirects(b: Broker, host: Host, e: Event, now: int, k: Key)
    requires k in b.edges
  {
    && e.SendE? && e.message.IsAsk() && e.message.id == k.messageId && Speaker(b, e.socket, now) == Some(k.from)
    && DeliveryTheorems.Unanswered(b, host, k.from, e.to, e.message, now)
    && exists target :: target != b.edges[k].to && DeliveryTheorems.Permits(b, host, e.socket, k.from, e.to, e.message, target, now)
  }

  lemma FailingEnds(b: Broker, victims: set<DeliveryId>, code: Delivery -> FailureCode, now: int, k: Key)
    requires Indexed(b.pending, b.pendingKeys) && k in b.edges
    ensures var b' := FailAll(b, victims, code, now);
            (Stays(b, b', k) || CarrierFailed(b.pending, k, b'.history)) && (Stays(b, b', k) ==> b'.edges[k] == b.edges[k])
  {
    if !Stays(b, FailAll(b, victims, code, now), k) {
      var d := b.pendingKeys[k];
      assert d in b.pending && b.pending[d].key == k && d in FailAll(b, victims, code, now).history.failed;
    }
  }

  lemma EdgeStepsKeepFailures(b: Broker, id: Id)
    ensures DeferEdgesOf(b, id).history.failed == b.history.failed == ClearEdgesOf(b, {id}).history.failed
    ensures forall k :: k in b.edges ==> Stays(b, DeferEdgesOf(b, id), k)
    ensures forall k :: k in b.edges ==> Stays(b, ClearEdgesOf(b, {id}), k) || Touches(b.edges[k], {id})
  {}

  lemma SameFailures(pending: map<DeliveryId, Delivery>, k: Key, h: History, later: History)
    requires CarrierFailed(pending, k, h) && h.failed <= later.failed
    ensures CarrierFailed(pending, k, later)
  {}

  lemma LeavingEnds(b: Broker, id: Id, socket: Socket, preserveAsks: bool, now: int, k: Key)
    requires Indexed(b.pending, b.pendingKeys) && k in b.edges
    ensures var b' := Leave(b, id, socket, preserveAsks, now);
            Stays(b, b', k) || CarrierFailed(b.pending, k, b'.history) || (!preserveAsks && Touches(b.edges[k], {id}))
  {
    hide FailAll, CarrierFailed, Indexed, Touches, DeferEdgesOf, ClearEdgesOf;
    var code := (p: Delivery) => if p.to == id && p.recipientSocket == socket then RecipientDisconnected else SenderDisconnected;
    var failed := FailAll(b, Involving(b.pending, id, socket), code, now);
    FailingEnds(b, Involving(b.pending, id, socket), code, now, k);
    EdgeStepsKeepFailures(failed, id);
    if !Stays(b, failed, k) { SameFailures(b.pending, k, failed.history, Leave(b, id, socket, preserveAsks, now).history); }
  }

  lemma ReplacingEnds(b: Broker, socket: Socket, id: Id, name: Option<string>, now: int, k: Key)
    requires Indexed(b.pending, b.pendingKeys) && k in b.edges
    ensures var b' := RegisterLocal(b, socket, id, name, now); Stays(b, b', k) || CarrierFailed(b.pending, k, b'.history)
  {
    hide FailAll, CarrierFailed, Indexed, DeferEdgesOf;
    if id in b.sessions {
      var previous := b.sessions[id].socket;
      var code := (p: Delivery) => if p.to == id && p.recipientSocket == previous then RecipientDisconnected else SenderDisconnected;
      var failed := FailAll(b, Involving(b.pending, id, previous), code, now);
      FailingEnds(b, Involving(b.pending, id, previous), code, now, k);
      EdgeStepsKeepFailures(failed, id);
      if !Stays(b, failed, k) { SameFailures(b.pending, k, failed.history, DeferEdgesOf(failed, id).history); }
    }
  }

  lemma DisconnectingEnds(b: Broker, changed: set<Id>, now: int, k: Key)
    requires Indexed(b.pending, b.pendingKeys) && k in b.edges
    ensures var b' := Disconnect(b, changed, now);
            Stays(b, b', k) || CarrierFailed(b.pending, k, b'.history) || Touches(b.edges[k], changed * b.sessions.Keys)
  {
    hide FailAll, CarrierFailed, Indexed, Touches, InvolvingAny;
    var live := changed * b.sessions.Keys;
    var failed := FailAll(b, InvolvingAny(b, live), _ => RecipientDisconnected, now);
    FailingEnds(b, InvolvingAny(b, live), _ => RecipientDisconnected, now, k);
    if !Stays(b, failed, k) { SameFailures(b.pending, k, failed.history, Disconnect(b, changed, now).history); }
  }

  lemma TransitionEnds(b: Broker, host: Host, e: Event, now: int, k: Key)
    requires Indexed(b.pending, b.pendingKeys) && k in b.edges && IsTransition(e)
    ensures var b' := Step(b, host, e, now); Stays(b, b', k) || MayEnd(b, e, now, k, b'.history)
  {
    hide Step, Disconnect, Transitioned, CarrierFailed, Answered, AnsweredByAnother, Indexed, Touches;
    var registry := TransitionDisconnects(b, host, e, now);
    DisconnectingEnds(b, Transitioned(b, e, now), now, k);
  }

  /** What is asked already cannot be asked of the same session again. */
  lemma AskedAlready(b: Broker, host: Host, socket: Socket, to: string, m: Message, target: Id, now: int, k: Key)
    requires EdgesShaped(b.edges) && k in b.edges && m.IsAsk() && DeliveryTheorems.Permits(b, host, socket, k.from, to, m, target, now)
    ensures target != b.edges[k].to
  {
    hide Targets, PendingFrom, EdgesFrom;
  }

  lemma AcceptedAgainRedirects(b: Broker, host: Host, e: Event, now: int, k: Key)
    requires EdgesShaped(b.edges) && k in b.edges && k !in b.pendingKeys
    requires e.SendE? && e.message.IsAsk() && e.message.id == k.messageId && Speaker(b, e.socket, now) == Some(k.from)
    requires Send(b, host, e.socket, e.to, e.message, e.deliveryId, now).1.Accepted?
    ensures Redirects(b, host, e, now, k)
  {
    var target := Send(b, host, e.socket, e.to, e.message, e.deliveryId, now).1.recipient;
    assert k.from in b.sessions;
    hide Speaker, Deduplicate, Route, EdgesShaped, FewerPending, FewerEdges, Calm, DeliveryTheorems.MayAccept, DeliveryTheorems.Unanswered, DeliveryTheorems.Permits;
    DeduplicateIsCalm(b, host, k.from, e.to, e.message, now);
    DeliveryTheorems.DeduplicationShrinks(b, host, k.from, e.to, e.message, now);
    DeliveryTheorems.UnansweredIsRouted(b, host, k.from, e.to, e.message, now);
    DeliveryTheorems.RoutedAsAllowed(Deduplicate(b, host, k.from, e.to, e.message, now).0, host, e.socket, k.from, e.to, e.message, e.deliveryId, now);
    DeliveryTheorems.FailedResendIsRouted(b, host, e.socket, k.from, e.to, e.message, e.deliveryId, now, target);
    AskedAlready(b, host, e.socket, e.to, e.message, target, now, k);
  }

  /** A pending ask that is sent again and is not answered has failed, and took its edge along. */
  lemma PendingAgainFails(b: Broker, host: Host, m: Message, to: string, now: int, k: Key)
    requires Indexed(b.pending, b.pendingKeys) && (forall d :: d in b.pending ==> WellDescribed(b.pending[d]))
    requires k in b.pendingKeys && m.IsAsk() && m.id == k.messageId
    requires Deduplicate(b, host, k.from, to, m, now).1.None?
    ensures k !in Deduplicate(b, host, k.from, to, m, now).0.edges
  {
    assert WellDescribed(b.pending[b.pendingKeys[k]]);
    hide StillAuthorized, RecentHolds, WellDescribed, FailureAnswers;
  }

  lemma SendingEnds(b: Broker, host: Host, e: Event, now: int, k: Key)
    requires Indexed(b.pending, b.pendingKeys) && EdgesShaped(b.edges) && (forall d :: d in b.pending ==> WellDescribed(b.pending[d]))
    requires k in b.edges && e.SendE?
    ensures var b' := Send(b, host, e.socket, e.to, e.message, e.deliveryId, now).0;
            Stays(b, b', k) || CarrierFailed(b.pending, k, b'.history) || Redirects(b, host, e, now, k)
  {
    hide CarrierFailed, Indexed, EdgesShaped, Deduplicate, Route, Calm, WellDescribed, Redirects, DeliveryTheorems.MayAccept;
    var speaker := Speaker(b, e.socket, now);
    if speaker.Some? {
      var from := speaker.value;
      var (mid, decided) := Deduplicate(b, host, from, e.to, e.message, now);
      DeduplicatingEnds(b, host, from, e.to, e.message, now, k);
      if decided.None? {
        DeduplicateKeepsSessions(b, host, from, e.to, e.message, now);
        RouteOnlyAccepts(mid, host, e.socket, from, e.to, e.message, e.deliveryId, now);
        DeliveryTheorems.RoutedAsAllowed(mid, host, e.socket, from, e.to, e.message, e.deliveryId, now);
        var b' := Send(b, host, e.socket, e.to, e.message, e.deliveryId, now).0;
        if !Stays(b, mid, k) {
          SameFailures(b.pending, k, mid.history, b'.history);
        } else if !Stays(b, b', k) {
          assert k == Key(from, e.message.id) && e.message.IsAsk();
          if k in b.pendingKeys { PendingAgainFails(b, host, e.message, e.to, now, k); }
          else { AcceptedAgainRedirects(b, host, e, now, k); }
        }
      }
    }
  }

  lemma DeduplicateKeepsSessions(b: Broker, host: Host, from: Id, to: string, m: Message, now: int)
    ensures Deduplicate(b, host, from, to, m, now).0.sessions == b.sessions
  {
    hide Deduplicate;
    DeduplicateIsCalm(b, host, from, to, m, now);
  }

  lemma DeduplicatingEnds(b: Broker, host: Host, from: Id, to: string, m: Message, now: int, k: Key)
    requires Indexed(b.pending, b.pendingKeys) && k in b.edges
    ensures var b' := Deduplicate(b, host, from, to, m, now).0; Stays(b, b', k) || CarrierFailed(b.pending, k, b'.history)
  {
    hide FailAll, StillAuthorized, RecentHolds, CarrierFailed, Indexed;
    var key := Key(from, m.id);
    var cleared := Prune(b, now).(recent := Prune(b, now).recent - {key});
    if key in b.pendingKeys { FailingEnds(cleared, {b.pendingKeys[key]}, _ => SessionNotFound, now, k); }
  }

  lemma AnswerEnds(b: Broker, host: Host, e: Event, now: int, k: Key)
    requires Indexed(b.pending, b.pendingKeys) && k in b.edges && IsAnswer(e)
    ensures var b' := Step(b, host, e, now);
            Stays(b, b', k) || MayEnd(b, e, now, k, b'.history)
  {
    hide FailAll, StillAuthorized, CarrierFailed, Answered, AnsweredByAnother, Indexed, Speaker, Acknowledge;
    FailingEnds(b, {e.deliveryId}, _ => SessionNotFound, now, k);
    FailingEnds(b, {e.deliveryId}, _ => ConflictingMessageId, now, k);
    FailingEnds(b, {e.deliveryId}, _ => DeliveryTimeout, now, k);
    if e.deliveryId in b.pending { AcknowledgingEnds(b, e.deliveryId, now, k); }
  }

  lemma AcknowledgingEnds(b: Broker, d: DeliveryId, now: int, k: Key)
    requires d in b.pending && k in b.edges
    ensures var b' := Acknowledge(b, d, now);
            || Stays(b, b', k) || Answered(b.pending, k, b.edges[k].to, b'.history)
            || AnsweredByAnother(b.pending, k, b.edges[k].to, b'.history)
  {
    var b' := Acknowledge(b, d, now);
    if !Stays(b, b', k) {
      assert RepliesTo(b.pending[d], k) && d in b'.history.delivered;
    }
  }

  lemma UnregisteringEnds(b: Broker, e: Event, now: int, k: Key)
    requires Indexed(b.pending, b.pendingKeys) && k in b.edges && e.UnregisterE?
    ensures var b' := Unregister(b, e.socket, e.preserveAsks, now); Stays(b, b', k) || MayEnd(b, e, now, k, b'.history)
  {
    hide Leave, Validate, CarrierFailed, Answered, AnsweredByAnother, Indexed, Touches;
    var speaker := Speaker(b, e.socket, now);
    if speaker.Some? { LeavingEnds(b, speaker.value, e.socket, e.preserveAsks, now, k); }
  }

  lemma ClosingEnds(b: Broker, socket: Socket, now: int, k: Key)
    requires Indexed(b.pending, b.pendingKeys) && k in b.edges
    ensures var b' := Close(b, socket, now); Stays(b, b', k) || CarrierFailed(b.pending, k, b'.history)
  {
    hide Leave, CarrierFailed, Indexed, Touches;
    if socket in b.connections && b.connections[socket].sessionId.Some? {
      LeavingEnds(b, b.connections[socket].sessionId.value, socket, true, now, k);
    }
  }

  lemma DeferringStays(b: Broker, socket: Socket, messageId: MessageId, now: int, k: Key)
    requires k in b.edges
    ensures Stays(b, DeferAsk(b, socket, messageId, now), k)
  {
    hide Speaker;
  }

  lemma CancellingEnds(b: Broker, socket: Socket, messageId: MessageId, now: int, k: Key)
    requires k in b.edges
    ensures Stays(b, CancelAsk(b, socket, messageId, now), k) || (Speaker(b, socket, now) == Some(k.from) && messageId == k.messageId)
  {
    hide Speaker;
  }

  lemma TimeEnds(b: Broker, expired: Key, now: int, k: Key)
    requires b.disk == b.edges && k in b.edges
    ensures Stays(b, AskExpired(b, expired, now), k) || (expired == k && b.edges[k].expiresAt <= now)
    ensures Stays(b, Restart(b, now), k) || b.edges[k].expiresAt <= now
  {}

  lemma AskStepEnds(b: Broker, host: Host, e: Event, now: int, k: Key)
    requires b.disk == b.edges && k in b.edges && (e.DeferAskE? || e.CancelAskE? || e.AskExpiryE? || e.RestartE?)
    ensures var b' := Step(b, host, e, now); Stays(b, b', k) || MayEnd(b, e, now, k, b'.history)
  {
    hide Stays, CarrierFailed, Answered, AnsweredByAnother, Speaker, DeferAsk, CancelAsk, AskExpired, Restart;
    match e
    case DeferAskE(socket, messageId) => DeferringStays(b, socket, messageId, now, k);
    case CancelAskE(socket, messageId) => CancellingEnds(b, socket, messageId, now, k);
    case AskExpiryE(key) => TimeEnds(b, key, now, k);
    case RestartE => TimeEnds(b, k, now, k);
  }

  lemma SameEdgesStay(b: Broker, b': Broker, k: Key)
    requires k in b.edges && b'.edges == b.edges
    ensures Stays(b, b', k)
  {}

  lemma OtherEnds(b: Broker, host: Host, e: Event, now: int, k: Key)
    requires Indexed(b.pending, b.pendingKeys) && k in b.edges
    requires e.ConnectE? || e.RegisterLocalE? || e.UnregisterE? || e.CloseE? || e.RenameE? || IsEnrolment(e)
    ensures var b' := Step(b, host, e, now); Stays(b, b', k) || MayEnd(b, e, now, k, b'.history)
  {
    hide CarrierFailed, Answered, AnsweredByAnother, Touches, Indexed, Stays, RegisterLocal, RegisterRemote, Unregister, Close, Rename,
      IssueDirect, IssueDelegated;
    DeliveryTheorems.IssuingLeavesAlone(b, e, now);
    match e
    case RegisterLocalE(socket, id, name) => ReplacingEnds(b, socket, id, name, now, k);
    case UnregisterE(_, _) => UnregisteringEnds(b, e, now, k);
    case CloseE(socket) => ClosingEnds(b, socket, now, k);
    case RegisterRemoteE(socket, access, id, credential) =>
      RegisterRemoteLeavesAlone(b, socket, access, now, id, credential);
      SameEdgesStay(b, Step(b, host, e, now), k);
    case RenameE(socket, newName) =>
      RenameIsSmall(b, socket, newName, now);
      SameEdgesStay(b, Step(b, host, e, now), k);
    case _ => SameEdgesStay(b, Step(b, host, e, now), k);
  }

  lemma PendingAreDescribed(b: Broker)
    requires Inv(b)
    ensures EdgesShaped(b.edges) && forall d :: d in b.pending ==> WellDescribed(b.pending[d])
  {
    hide TablesHold, Mirrors, EdgesShaped, Carried, BlockingOnSockets, MutualWaitsResolve, CacheSound, WellDescribed;
    forall d | d in b.pending ensures WellDescribed(b.pending[d]) { assert b.pending[d] == b.history.accepted[d]; }
  }

  /** Why an ask ends. Whatever the step, an ask that it takes away was carried by a delivery
      that failed, or was answered by a delivered reply to its asker, or was cancelled by its
      asker, or its time was over, or one of its ends unregistered without keeping its asks or was
      disconnected by a revocation, an adoption or an expiry, or its asker sent it again and it
      now goes to another session. */
  lemma AskEndsForAReason(b: Broker, host: Host, e: Event, now: int, k: Key)
    requires Inv(b) && k in b.edges && !Stays(b, Step(b, host, e, now), k)
    ensures MayEnd(b, e, now, k, Step(b, host, e, now).history) || Redirects(b, host, e, now, k)
  {
    TablesOf(b);
    PendingAreDescribed(b);
    hide Inv, CarrierFailed, Answered, AnsweredByAnother, Indexed, Mirrors, Touches, EdgesShaped, WellDescribed, Stays, Redirects;
    if e.SendE? {
      hide Send;
      SendingEnds(b, host, e, now, k);
    } else {
      hide Step;
      if IsTransition(e) { TransitionEnds(b, host, e, now, k); }
      else if IsAnswer(e) { AnswerEnds(b, host, e, now, k); }
      else if e.DeferAskE? || e.CancelAskE? || e.AskExpiryE? || e.RestartE? { AskStepEnds(b, host, e, now, k); }
      else { OtherEnds(b, host, e, now, k); }
    }
  }

  /** Then the next edge under the key goes to another session, and a reply by the session that
      was asked before is refused. */
  lemma RedirectedElsewhere(b: Broker, host: Host, e: Event, now: int, k: Key)
    requires k in b.edges && Redirects(b, host, e, now, k)
    ensures var b', asked := Step(b, host, e, now), b.edges[k].to;
            && k in b'.edges && b'.edges[k].from == k.from && b'.edges[k].to != asked && b'.edges[k].createdAt == now
            && b'.history.failed == b.history.failed && b'.history.delivered == b.history.delivered
            && forall reply: Message :: reply.replyTo == Some(k.messageId) ==> AskRefusal(b'.edges, asked, k.from, reply) == Some(InvalidReplyTarget)
  {
    var target :| target != b.edges[k].to && DeliveryTheorems.Permits(b, host, e.socket, k.from, e.to, e.message, target, now);
    assert k.from in b.sessions;
    hide Speaker, Deduplicate, Route, FewerPending, FewerEdges, DeliveryTheorems.MayAccept, DeliveryTheorems.Permits, EdgesFrom, Targets;
    DeliveryTheorems.UnansweredIsRouted(b, host, k.from, e.to, e.message, now);
    hide DeliveryTheorems.Unanswered;
    DeliveryTheorems.FailedResendIsRouted(b, host, e.socket, k.from, e.to, e.message, e.deliveryId, now, target);
    var mid := Deduplicate(b, host, k.from, e.to, e.message, now).0;
    DeliveryTheorems.RoutedAsAllowed(mid, host, e.socket, k.from, e.to, e.message, e.deliveryId, now);
    RouteOnlyAccepts(mid, host, e.socket, k.from, e.to, e.message, e.deliveryId, now);
  }

  lemma NothingEndedYet(b: Broker, k: Key, e: Event, now: int, h: History)
    requires Inv(b) && k in b.edges && k !in b.pendingKeys && e.SendE? && h.delivered == b.history.delivered
    ensures !MayEnd(b, e, now, k, h)
  {
    hide OnSockets, Capped, Bound, CacheSound, AsksHold, Mirrors, Transitioned, Touches;
  }

  /** An ask is taken away for none of the other reasons if and only if its asker sends it again,
      no pending delivery and no answer that holds stands for it, and what it is for now stands for
      another session to which the limits and the asks let it pass. */
  lemma RedirectsExactly(b: Broker, host: Host, e: Event, now: int, k: Key)
    requires Inv(b) && k in b.edges
    ensures var b' := Step(b, host, e, now);
            !Stays(b, b', k) && !MayEnd(b, e, now, k, b'.history) <==> Redirects(b, host, e, now, k)
  {
    hide Inv, Step, MayEnd;
    if !Stays(b, Step(b, host, e, now), k) { AskEndsForAReason(b, host, e, now, k); }
    if Redirects(b, host, e, now, k) {
      RedirectedElsewhere(b, host, e, now, k);
      NothingEndedYet(b, k, e, now, Step(b, host, e, now).history);
    }
  }

  // ---------- Edges that are not from disk ----------

  lemma OrphansCompose(b: Broker, mid: Broker, b': Broker)
    requires NoNewOrphans(b, mid) && NoNewOrphans(mid, b')
    ensures NoNewOrphans(b, b')
  {}

  lemma SameEdgesNoOrphans(b: Broker, b': Broker)
    requires b'.edges == b.edges && b'.history.carrier == b.history.carrier
    ensures NoNewOrphans(b, b')
  {}

  lemma {:induction false} NoOrphansWithoutRestart(host: Host, events: seq<Timed>, i: nat)
    requires i <= |events| && forall j :: i <= j < |events| ==> !events[j].event.RestartE?
    ensures NoNewOrphans(Run(host, events[..i]).broker, Run(host, events).broker)
    decreases |events|
  {
    hide Step, Next, NoNewOrphans, HistoryGrows;
    if i == |events| {
      assert events[..i] == events;
      SameEdgesNoOrphans(Run(host, events).broker, Run(host, events).broker);
    } else {
      var before, last := events[..|events| - 1], events[|events| - 1];
      assert before[..i] == events[..i];
      NoOrphansWithoutRestart(host, before, i);
      NextBroker(Run(host, before), host, last.event, last.now);
      StepIsFramed(Run(host, before).broker, host, last.event, last.now);
      OrphansCompose(Run(host, events[..i]).broker, Run(host, before).broker, Run(host, events).broker);
    }
  }

  /** Since the last restart, at step `i` or never: every edge was either carried by a delivery
      that is still pending or was acknowledged by the recipient, or it is the very ask that was
      restored at step `i` and has had no carrier since, blocking or deferred. */
  lemma NewEdgesAreCarried(host: Host, events: seq<Timed>, i: nat, k: Key)
    requires IsRun(host, events) && i <= |events| && forall j :: i <= j < |events| ==> !events[j].event.RestartE?
    requires k in Run(host, events).broker.edges
    ensures var first, b := Run(host, events[..i]).broker, Run(host, events).broker; var h := b.history;
            || (k in first.edges && k !in first.history.carrier && SameAsk(b.edges[k], first.edges[k]) && k !in h.carrier)
            || (&& k in h.carrier && h.carrier[k] in h.accepted && h.accepted[h.carrier[k]].key == k
                && h.accepted[h.carrier[k]].to == b.edges[k].to
                && (h.carrier[k] in b.pending || h.carrier[k] in h.delivered))
  {
    NoOrphansWithoutRestart(host, events, i);
    ReachableStatesHold(host, events);
    hide Run, IsRun;
    CarriedOf(Run(host, events).broker, k);
  }

  lemma CarriedOf(b: Broker, k: Key)
    requires Inv(b)
    ensures k in b.history.carrier ==> k in b.edges && IsCarrier(b.history.carrier[k], k, b.edges[k], b.history.accepted)
    ensures k in b.history.carrier ==> b.history.carrier[k] in b.pending || b.history.carrier[k] in b.history.delivered
  {
    hide TablesHold, RecordsHold, Mirrors, EdgesShaped, BlockingOnSockets, MutualWaitsResolve;
  }
}
