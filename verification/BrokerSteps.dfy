/** Every handler and every timer callback keeps the broker's invariant, and what a broker does
    to its registry is a run of the registry under the discipline assumed there. */
module BrokerSteps {

  import opened Wrappers
  import opened Forest
  import opened RegistryModel
  import RegistryRuns
  import opened Messages
  import opened BrokerModel
  import opened BrokerInvariant

  // ---------- Sessions ----------

  lemma BindKeeps(b: Broker, socket: Socket)
    requires Inv(b) && forall id :: id in b.sessions ==> b.sessions[id].socket != socket
    ensures Inv(Bind(b, socket, None))
    ensures Inv(b.(connections := b.connections - {socket}))
  {
    hide EdgesShaped, Carried, BlockingOnSockets, MutualWaitsResolve, Indexed, OnSockets, Capped, CacheSound, Accounted, Mirrors;
  }

  lemma ConnectKeeps(b: Broker, socket: Socket, remote: bool)
    requires Inv(b) && socket !in b.connections
    ensures Inv(Connect(b, socket, remote))
  {
    hide EdgesShaped, Carried, BlockingOnSockets, MutualWaitsResolve, Indexed, OnSockets, Capped, CacheSound, Accounted, Mirrors;
  }

  /** Whoever is gone has no pending delivery and no blocking edge. */
  lemma AbsentIsIdle(b: Broker, id: Id)
    requires Inv(b) && id !in b.sessions
    ensures forall d :: d in b.pending ==> b.pending[d].from != id && b.pending[d].to != id
    ensures forall k :: k in b.edges && Touches(b.edges[k], {id}) ==> b.edges[k].state.Deferred?
  {
    hide EdgesShaped, Carried, MutualWaitsResolve, Indexed, Capped, CacheSound, Accounted, Mirrors, Bound;
  }

  /** A replaced session passes through a state in which it has left. */
  lemma ReplacedIsIdle(b: Broker, id: Id, now: int)
    requires Inv(b) && id in b.sessions
    ensures var b' := DeferEdgesOf(ClearPending(b, id, b.sessions[id].socket, now), id);
            && Inv(b') && b'.sessions == b.sessions && b'.connections == b.connections && b'.registry == b.registry
            && (forall d :: d in b'.pending ==> b'.pending[d].from != id && b'.pending[d].to != id)
            && (forall k :: k in b'.edges && Touches(b'.edges[k], {id}) ==> b'.edges[k].state.Deferred?)
  {
    hide Inv, ClearPending;
    ClearPendingKeeps(b, id, now);
    DeferEdgesKeeps(ClearPending(b, id, b.sessions[id].socket, now), id);
  }

  lemma RegisterLocalKeeps(b: Broker, socket: Socket, id: Id, name: Option<string>, now: int)
    requires Inv(b) && id !in b.registry.principals
    ensures Inv(RegisterLocal(b, socket, id, name, now))
  {
    hide Inv, ClearPending;
    if Unregistered(b, socket, false) {
      if id in b.sessions {
        ReplacedIsIdle(b, id, now);
        AddSessionKeeps(DeferEdgesOf(ClearPending(b, id, b.sessions[id].socket, now), id), socket, id, name, Local);
      } else {
        AbsentIsIdle(b, id);
        AddSessionKeeps(b, socket, id, name, Local);
      }
    }
  }

  /** Replacing the registry by one that agrees on every live session. */
  lemma RegistryChangeKeeps(b: Broker, registry: Registry)
    requires Inv(b) && Mirrors(b.sessions, registry)
    ensures Inv(b.(registry := registry))
  {
    hide EdgesShaped, Carried, BlockingOnSockets, MutualWaitsResolve, Indexed, OnSockets, Capped, CacheSound, Accounted, Bound;
  }

  lemma AdmitGivesActive(r: Registry, access: Access, now: int, id: Id, credential: Secret)
    requires RegistryRuns.Keyed(r) && (access.EnrollmentToken? ==> id !in r.principals)
    ensures var (r', admitted) := Admit(r, access, now, id, credential);
            && (forall x :: x in r.principals ==> x in r'.principals && r'.principals[x] == r.principals[x])
            && (forall x :: x in r'.principals && x !in r.principals ==> access.EnrollmentToken? && x == id)
            && (admitted.Ok? ==>
              admitted.value.id in r'.principals && r'.principals[admitted.value.id] == admitted.value && admitted.value.status.Active?)
  {}

  lemma RegisterRemoteKeeps(b: Broker, socket: Socket, access: Access, now: int, id: Id, credential: Secret)
    requires Inv(b) && RegistryRuns.Keyed(b.registry)
    requires access.EnrollmentToken? ==> id !in b.registry.principals && id !in b.sessions
    ensures Inv(RegisterRemote(b, socket, access, now, id, credential))
  {
    if Unregistered(b, socket, true) && |b.sessions| < MAX_SESSIONS {
      var (registry, admitted) := Admit(b.registry, access, now, id, credential);
      AdmitGivesActive(b.registry, access, now, id, credential);
      assert Mirrors(b.sessions, registry) by {
        hide TablesHold, RecordsHold, AsksHold, Admit;
        forall x | x in b.sessions ensures MirrorsPrincipal(x, b.sessions[x].origin, registry) {
          assert MirrorsPrincipal(x, b.sessions[x].origin, b.registry);
        }
      }
      hide Inv, Mirrors, Admit;
      RegistryChangeKeeps(b, registry);
      if admitted.Ok? && admitted.value.id !in b.sessions {
        var p, b' := admitted.value, b.(registry := registry);
        AbsentIsIdle(b', p.id);
        AddSessionKeeps(b', socket, p.id, Some(p.name), Remote(p.generation, p.parent, p.root));
      }
    }
  }

  lemma SocketsAreDistinct(b: Broker, socket: Socket, id: Id)
    requires Inv(b) && socket in b.connections && b.connections[socket].sessionId == Some(id)
    ensures forall x :: x in b.sessions && b.sessions[x].socket == socket ==> x == id
  {
    hide EdgesShaped, Carried, BlockingOnSockets, MutualWaitsResolve, Indexed, OnSockets, Capped, CacheSound, Accounted, Mirrors;
  }

  lemma UnregisterKeeps(b: Broker, socket: Socket, preserveAsks: bool, now: int)
    requires Inv(b)
    ensures Inv(Unregister(b, socket, preserveAsks, now))
  {
    hide Inv, Leave;
    match Speaker(b, socket, now)
    case None =>
    case Some(id) =>
      SocketsAreDistinct(b, socket, id);
      if b.sessions[id].socket == socket {
        LeaveKeeps(b, id, preserveAsks, now);
        LeaveRemoves(b, id, socket, preserveAsks, now);
        BindKeeps(Leave(b, id, socket, preserveAsks, now), socket);
      } else {
        BindKeeps(b, socket);
      }
  }

  lemma LeaveRemoves(b: Broker, id: Id, socket: Socket, preserveAsks: bool, now: int)
    ensures var b' := Leave(b, id, socket, preserveAsks, now);
            b'.sessions == b.sessions - {id} && b'.connections == b.connections && b'.registry == b.registry
  {}

  lemma CloseKeeps(b: Broker, socket: Socket, now: int)
    requires Inv(b)
    ensures Inv(Close(b, socket, now))
  {
    hide Inv, Leave;
    if socket in b.connections {
      match b.connections[socket].sessionId
      case None =>
        UnboundIsUnused(b, socket);
        BindKeeps(b, socket);
      case Some(id) =>
        SocketsAreDistinct(b, socket, id);
        if id in b.sessions && b.sessions[id].socket == socket {
          LeaveKeeps(b, id, true, now);
          LeaveRemoves(b, id, socket, true, now);
          BindKeeps(Leave(b, id, socket, true, now), socket);
        } else {
          BindKeeps(b, socket);
        }
    }
  }

  lemma UnboundIsUnused(b: Broker, socket: Socket)
    requires Inv(b) && socket in b.connections && b.connections[socket].sessionId.None?
    ensures forall id :: id in b.sessions ==> b.sessions[id].socket != socket
  {
    hide EdgesShaped, Carried, BlockingOnSockets, MutualWaitsResolve, Indexed, OnSockets, Capped, CacheSound, Accounted, Mirrors;
  }

  lemma RenameKeeps(b: Broker, socket: Socket, name: string, now: int)
    requires Inv(b)
    ensures Inv(Rename(b, socket, name, now))
  {
    hide Inv, Rename, Speaker;
    RenameIsSmall(b, socket, name, now);
    SmallChangeKeeps(b, Rename(b, socket, name, now).sessions);
  }

  lemma RenameIsSmall(b: Broker, socket: Socket, name: string, now: int)
    ensures var b' := Rename(b, socket, name, now);
            && b' == b.(sessions := b'.sessions) && b'.sessions.Keys == b.sessions.Keys
            && forall id :: id in b.sessions ==> b'.sessions[id].socket == b.sessions[id].socket && b'.sessions[id].origin == b.sessions[id].origin
  {}

  lemma SmallChangeKeeps(b: Broker, sessions: map<Id, Session>)
    requires Inv(b) && sessions.Keys == b.sessions.Keys
    requires forall id :: id in b.sessions ==> sessions[id].socket == b.sessions[id].socket && sessions[id].origin == b.sessions[id].origin
    ensures Inv(b.(sessions := sessions))
  {
    hide EdgesShaped, Carried, MutualWaitsResolve, Indexed, Capped, CacheSound, Accounted;
  }

  // ---------- Sending ----------

  lemma AnswerPendingKeeps(b: Broker, host: Host, key: Key, fingerprint: Fingerprint, now: int)
    requires Inv(b) && key !in b.recent
    ensures var (b', decided) := AnswerPending(b, host, key, fingerprint, now);
            && Inv(b') && b'.sessions == b.sessions && b'.registry == b.registry && b'.history.accepted == b.history.accepted
            && (decided.None? ==> key !in b'.pendingKeys && (key in b'.recent ==> b'.recent[key].retryable))
  {
    hide Inv, FailAll, StillAuthorized;
    if key in b.pendingKeys {
      FailOneFreesKey(b, key, now);
      FailAllKeeps(b, {b.pendingKeys[key]}, _ => SessionNotFound, now);
    }
  }

  lemma DeduplicateKeeps(b: Broker, host: Host, from: Id, to: string, m: Message, now: int)
    requires Inv(b)
    ensures var (b', decided) := Deduplicate(b, host, from, to, m, now);
            && Inv(b') && b'.sessions == b.sessions && b'.registry == b.registry && b'.history.accepted == b.history.accepted
            && (decided.None? ==> Key(from, m.id) !in b'.pendingKeys && (Key(from, m.id) in b'.recent ==> b'.recent[Key(from, m.id)].retryable))
  {
    hide Inv, RecentHolds, AnswerPending;
    var key, pruned := Key(from, m.id), Prune(b, now);
    var cleared := pruned.(recent := pruned.recent - {key});
    FewerRecentKeep(b, pruned.recent);
    FewerRecentKeep(b, cleared.recent);
    AnswerPendingKeeps(cleared, host, key, FingerprintOf(to, m), now);
  }

  lemma FailOneFreesKey(b: Broker, key: Key, now: int)
    requires Inv(b) && key in b.pendingKeys
    ensures var b' := FailDelivery(b, b.pendingKeys[key], SessionNotFound, now);
            && key !in b'.pendingKeys && (key in b'.recent ==> b'.recent[key].retryable)
            && b'.sessions == b.sessions && b'.registry == b.registry && b'.history.accepted == b.history.accepted
  {
    hide EdgesShaped, Carried, BlockingOnSockets, MutualWaitsResolve, OnSockets, Capped, Bound, CacheSound, Accounted, Mirrors;
  }

  lemma TargetsAreLive(b: Broker, host: Host, from: Id, to: string, action: Action, now: int)
    ensures forall id :: id in Targets(b, host, from, to, action, now) ==> id in b.sessions
  {}

  lemma RouteKeeps(b: Broker, host: Host, socket: Socket, from: Id, to: string, m: Message, d: DeliveryId, now: int)
    requires Inv(b) && from in b.sessions && d !in b.history.accepted
    requires Key(from, m.id) !in b.pendingKeys && (Key(from, m.id) in b.recent ==> b.recent[Key(from, m.id)].retryable)
    ensures Inv(Route(b, host, socket, from, to, m, d, now).0)
  {
    hide Inv, AskRefusal, PendingFrom, Accept;
    var targets := Targets(b, host, from, to, ActionOf(m), now);
    TargetsAreLive(b, host, from, to, ActionOf(m), now);
    hide Targets;
    if Route(b, host, socket, from, to, m, d, now).1.Accepted? {
      var target := Only(targets);
      assert target in targets;
      AcceptKeeps(b, host, d, DeliveryFor(b, socket, from, target, to, m), now);
    }
  }

  lemma SendKeeps(b: Broker, host: Host, socket: Socket, to: string, m: Message, d: DeliveryId, now: int)
    requires Inv(b) && d !in b.history.accepted
    ensures Inv(Send(b, host, socket, to, m, d, now).0)
  {
    hide Inv, Deduplicate, Route;
    var speaker := Speaker(b, socket, now);
    if speaker.Some? {
      DeduplicateKeeps(b, host, speaker.value, to, m, now);
      var (b', decided) := Deduplicate(b, host, speaker.value, to, m, now);
      if decided.None? { RouteKeeps(b', host, socket, speaker.value, to, m, d, now); }
    }
  }

  // ---------- Principals in transition ----------

  /** Disconnecting what a registry transition changed leaves the registry and the live
      sessions in agreement. */
  lemma TransitionKeeps(b: Broker, registry: Registry, changed: set<Id>, now: int)
    requires Inv(b)
    requires registry.principals.Keys == b.registry.principals.Keys
    requires forall id :: id in registry.principals && id !in changed ==> registry.principals[id] == b.registry.principals[id]
    ensures Inv(Disconnect(b, changed, now).(registry := registry))
  {
    DisconnectKeeps(b, changed, now);
    var b' := Disconnect(b, changed, now);
    hide Disconnect;
    assert Mirrors(b'.sessions, registry) by {
      hide TablesHold, RecordsHold, AsksHold;
      forall id | id in b'.sessions ensures MirrorsPrincipal(id, b'.sessions[id].origin, registry) {
        assert MirrorsPrincipal(id, b'.sessions[id].origin, b.registry);
      }
    }
    hide Inv, Mirrors;
    RegistryChangeKeeps(b', registry);
  }

  lemma IssueKeepsPrincipals(b: Broker, registry: Registry)
    requires Inv(b) && registry.principals == b.registry.principals
    ensures Inv(b.(registry := registry))
  {
    assert Mirrors(b.sessions, registry) by {
      hide TablesHold, RecordsHold, AsksHold;
      forall id | id in b.sessions ensures MirrorsPrincipal(id, b.sessions[id].origin, registry) {
        assert MirrorsPrincipal(id, b.sessions[id].origin, b.registry);
      }
    }
    hide Inv, Mirrors;
    RegistryChangeKeeps(b, registry);
  }

  // ---------- Restart ----------

  lemma RestoredAreFewer(disk: map<Key, AskEdge>, now: int)
    ensures FewerEdges(Restored(disk, now), disk)
    ensures forall k :: k in Restored(disk, now) ==> Restored(disk, now)[k].state.Deferred?
  {}

  lemma LostAreAccounted(h: History, pending: map<DeliveryId, Delivery>)
    requires Accounted(h.accepted, pending, h.delivered, h.failed, h.lost)
    ensures Accounted(h.accepted, map[], h.delivered, h.failed, h.lost + pending.Keys)
  {}

  lemma DeferredEdgesHold(edges: map<Key, AskEdge>, accepted: map<DeliveryId, Delivery>, delivered: set<DeliveryId>)
    requires forall k :: k in edges ==> edges[k].state.Deferred?
    ensures Carried(edges, map[], accepted, delivered, map[])
    ensures BlockingOnSockets(edges, map[], accepted, map[])
    ensures MutualWaitsResolve(edges, map[])
  {}

  lemma EmptyTablesHold(b: Broker)
    requires b.connections == map[] && b.sessions == map[] && b.pending == map[] && b.pendingKeys == map[]
    ensures TablesHold(b)
  {
    assert forall id :: PendingFrom(map[], id) == {};
  }

  lemma RestartKeeps(b: Broker, now: int)
    requires Inv(b)
    ensures Inv(Restart(b, now))
  {
    hide EdgesShaped, FewerEdges, Restored, Carried, BlockingOnSockets, MutualWaitsResolve, Accounted, TablesHold;
    var h, edges := b.history, Restored(b.disk, now);
    RestoredAreFewer(b.disk, now);
    FewerEdgesShaped(edges, b.edges);
    LostAreAccounted(h, b.pending);
    DeferredEdgesHold(edges, h.accepted, h.delivered);
    EmptyTablesHold(Restart(b, now));
  }

  // ---------- Every step ----------

  datatype Event =
    | ConnectE(socket: Socket, remote: bool)
    | RegisterLocalE(socket: Socket, id: Id, name: Option<string>)
    | RegisterRemoteE(socket: Socket, access: Access, id: Id, credential: Secret)
    | UnregisterE(socket: Socket, preserveAsks: bool)
    | CloseE(socket: Socket)
    | RenameE(socket: Socket, newName: string)
    | SendE(socket: Socket, to: string, message: Message, deliveryId: DeliveryId)
    | ReceivedE(socket: Socket, deliveryId: DeliveryId)
    | RejectedE(socket: Socket, deliveryId: DeliveryId)
    | DeferAskE(socket: Socket, messageId: MessageId)
    | CancelAskE(socket: Socket, messageId: MessageId)
    | DeliveryTimeoutE(deliveryId: DeliveryId)
    | AskExpiryE(key: Key)
    | RevokeE(id: Id)
    | AdoptE(id: Id, newParent: Id)
    | ReconcileE(order: seq<Id>)
    | IssueDirectE(parent: Id, root: Id, host: string, child: ChildRequest, ttlMs: int, token: Secret)
    | IssueDelegatedE(parent: Id, generation: int, credential: Secret, allowed: bool, child: ChildRequest, ttlMs: int, token: Secret)
    | RestartE

  /** A broker with the clock and with every name and token used so far. */
  datatype System = System(broker: Broker, now: int, names: set<Id>, tokens: set<Secret>)

  ghost function Step(b: Broker, host: Host, e: Event, now: int): Broker {
    match e
    case ConnectE(socket, remote) => Connect(b, socket, remote)
    case RegisterLocalE(socket, id, name) => RegisterLocal(b, socket, id, name, now)
    case RegisterRemoteE(socket, access, id, credential) => RegisterRemote(b, socket, access, now, id, credential)
    case UnregisterE(socket, preserveAsks) => Unregister(b, socket, preserveAsks, now)
    case CloseE(socket) => Close(b, socket, now)
    case RenameE(socket, newName) => Rename(b, socket, newName, now)
    case SendE(socket, to, message, deliveryId) => Send(b, host, socket, to, message, deliveryId, now).0
    case ReceivedE(socket, deliveryId) => MessageReceived(b, host, socket, deliveryId, now).0
    case RejectedE(socket, deliveryId) => MessageRejected(b, socket, deliveryId, now)
    case DeferAskE(socket, messageId) => DeferAsk(b, socket, messageId, now)
    case CancelAskE(socket, messageId) => CancelAsk(b, socket, messageId, now)
    case DeliveryTimeoutE(deliveryId) => DeliveryTimedOut(b, deliveryId, now)
    case AskExpiryE(key) => AskExpired(b, key, now)
    case RevokeE(id) => RevokeSubtree(b, id, now)
    case AdoptE(id, newParent) => AdoptSubtree(b, id, newParent, now)
    case ReconcileE(order) => ReconcileExpired(b, order, now)
    case IssueDirectE(parent, root, host, child, ttlMs, token) => IssueDirect(b, parent, root, host, child, ttlMs, now, token)
    case IssueDelegatedE(parent, generation, credential, allowed, child, ttlMs, token) =>
      IssueDelegated(b, parent, generation, credential, allowed, child, ttlMs, now, token)
    case RestartE => Restart(b, now)
  }

  /** Each event reaches the handler or the timer callback it is named after. */
  lemma EventsReachTheirHandlers(b: Broker, host: Host, e: Event, now: int)
    ensures e.RegisterLocalE? ==> Step(b, host, e, now) == RegisterLocal(b, e.socket, e.id, e.name, now)
    ensures e.UnregisterE? ==> Step(b, host, e, now) == Unregister(b, e.socket, e.preserveAsks, now)
    ensures e.CloseE? ==> Step(b, host, e, now) == Close(b, e.socket, now)
    ensures e.RenameE? ==> Step(b, host, e, now) == Rename(b, e.socket, e.newName, now)
    ensures e.SendE? ==> Step(b, host, e, now) == Send(b, host, e.socket, e.to, e.message, e.deliveryId, now).0
    ensures e.ReceivedE? ==> Step(b, host, e, now) == MessageReceived(b, host, e.socket, e.deliveryId, now).0
    ensures e.RejectedE? ==> Step(b, host, e, now) == MessageRejected(b, e.socket, e.deliveryId, now)
    ensures e.DeliveryTimeoutE? ==> Step(b, host, e, now) == DeliveryTimedOut(b, e.deliveryId, now)
    ensures e.RevokeE? ==> Step(b, host, e, now) == RevokeSubtree(b, e.id, now)
    ensures e.AdoptE? ==> Step(b, host, e, now) == AdoptSubtree(b, e.id, e.newParent, now)
    ensures e.ReconcileE? ==> Step(b, host, e, now) == ReconcileExpired(b, e.order, now)
    ensures e.IssueDirectE? ==> Step(b, host, e, now) == IssueDirect(b, e.parent, e.root, e.host, e.child, e.ttlMs, now, e.token)
    ensures e.IssueDelegatedE? ==>
      Step(b, host, e, now) == IssueDelegated(b, e.parent, e.generation, e.credential, e.allowed, e.child, e.ttlMs, now, e.token)
    ensures e.ConnectE? ==>
      Step(b, host, e, now) == b.(connections := b.connections[e.socket := Connection(e.remote, None)])
  {
    hide RegisterLocal, RegisterRemote, Unregister, Close, Rename, Send, MessageReceived, MessageRejected, DeliveryTimedOut, DeferAsk, CancelAsk,
      AskExpired, RevokeSubtree, AdoptSubtree, ReconcileExpired, IssueDirect, IssueDelegated, Restart;
  }

  /** Sockets, random ids and tokens are fresh, local session ids are never principal ids, and
      the clock does not go back. */
  ghost predicate Allowed(s: System, e: Event, now: int) {
    && s.now <= now
    && match e
       case ConnectE(socket, _) => socket !in s.broker.connections
       case RegisterLocalE(_, id, _) => id !in s.broker.registry.principals
       case RegisterRemoteE(_, _, id, _) => id !in s.names && id !in s.broker.sessions && id !in s.broker.registry.principals
       case SendE(_, _, _, deliveryId) => deliveryId !in s.broker.history.accepted
       case ReconcileE(order) => IsSweepOrder(s.broker.registry, order, now)
       case IssueDirectE(_, _, _, _, _, token) => token !in s.tokens
       case IssueDelegatedE(_, _, _, _, _, _, token) => token !in s.tokens
       case _ => true
  }

  lemma RevokeSubtreeKeeps(b: Broker, id: Id, now: int)
    requires Inv(b)
    ensures Inv(RevokeSubtree(b, id, now))
  {
    hide Inv, Disconnect;
    TransitionKeeps(b, Revoke(b.registry, id, now), Tree(b.registry, id), now);
  }

  lemma AdoptSubtreeKeeps(b: Broker, id: Id, newParent: Id, now: int)
    requires Inv(b)
    ensures Inv(AdoptSubtree(b, id, newParent, now))
  {
    hide Inv, Disconnect;
    if MayAdopt(b, newParent) {
      var (registry, outcome) := Adopt(b.registry, id, newParent, AdoptedRoot(b, newParent), now);
      if outcome.Ok? { TransitionKeeps(b, registry, outcome.value, now); }
    }
  }

  lemma {:induction false} SweepOutside(s: Registry, order: seq<Id>, now: int)
    ensures var (s', changed) := Sweep(s, order, now);
            && s'.principals.Keys == s.principals.Keys
            && forall id :: id in s.principals && id !in changed ==> s'.principals[id] == s.principals[id]
    decreases |order|
  {
    if order != [] { SweepOutside(s, order[..|order| - 1], now); }
  }

  lemma ReconcileKeeps(b: Broker, order: seq<Id>, now: int)
    requires Inv(b)
    ensures Inv(ReconcileExpired(b, order, now))
  {
    hide Inv, Disconnect;
    SweepOutside(b.registry, order, now);
    TransitionKeeps(b, Sweep(b.registry, order, now).0, Sweep(b.registry, order, now).1, now);
  }

  lemma DeferAskKeeps(b: Broker, socket: Socket, messageId: MessageId, now: int)
    requires Inv(b)
    ensures Inv(DeferAsk(b, socket, messageId, now))
  {
    hide Inv, Speaker, WithEdges;
    var speaker := Speaker(b, socket, now);
    if speaker.Some? && Key(speaker.value, messageId) in b.edges {
      var k := Key(speaker.value, messageId);
      FewerEdgesKeep(b, b.edges[k := b.edges[k].(state := Deferred)]);
    }
  }

  lemma CancelAskKeeps(b: Broker, socket: Socket, messageId: MessageId, now: int)
    requires Inv(b)
    ensures Inv(CancelAsk(b, socket, messageId, now))
  {
    hide Inv, DropEdges;
    if Speaker(b, socket, now).Some? { DropEdgesKeeps(b, {Key(Speaker(b, socket, now).value, messageId)}); }
  }

  lemma ReceivedKeeps(b: Broker, host: Host, socket: Socket, d: DeliveryId, now: int)
    requires Inv(b)
    ensures Inv(MessageReceived(b, host, socket, d, now).0)
  {
    hide Inv, FailAll, Acknowledge, StillAuthorized;
    if d in b.pending { AcknowledgeKeeps(b, d, now); }
    FailAllKeeps(b, {d}, _ => SessionNotFound, now);
  }

  lemma RejectedKeeps(b: Broker, socket: Socket, d: DeliveryId, now: int)
    requires Inv(b)
    ensures Inv(MessageRejected(b, socket, d, now))
  {
    hide Inv, FailAll;
    FailAllKeeps(b, {d}, _ => ConflictingMessageId, now);
  }

  lemma IssueDirectKeeps(b: Broker, parent: Id, root: Id, host: string, c: ChildRequest, ttlMs: int, now: int, token: Secret)
    requires Inv(b)
    ensures Inv(IssueDirect(b, parent, root, host, c, ttlMs, now, token))
  {
    var b' := IssueDirect(b, parent, root, host, c, ttlMs, now, token);
    assert b'.registry.principals == b.registry.principals;
    hide Inv, Issue;
    IssueKeepsPrincipals(b, b'.registry);
  }

  lemma IssueDelegatedKeeps(b: Broker, parent: Id, generation: int, credential: Secret, allowed: bool, c: ChildRequest,
                            ttlMs: int, now: int, token: Secret)
    requires Inv(b)
    ensures Inv(IssueDelegated(b, parent, generation, credential, allowed, c, ttlMs, now, token))
  {
    hide Inv, Issue, Attenuate;
    var b' := IssueDelegated(b, parent, generation, credential, allowed, c, ttlMs, now, token);
    IssuingChildKeepsPrincipals(b.registry, parent, generation, c, ttlMs, now, token);
    hide IssueChild;
    IssueKeepsPrincipals(b, b'.registry);
  }

  lemma IssuingChildKeepsPrincipals(s: Registry, parent: Id, generation: int, c: ChildRequest, ttlMs: int, now: int, token: Secret)
    ensures IssueChild(s, parent, generation, c, ttlMs, now, token).0.principals == s.principals
  {
    hide Attenuate, Issue;
    var p := Validate(s, parent, generation, now);
    if p.Ok? && Attenuate(s, p.value, c, now).Ok? {
      RegistryRuns.IssueShape(s, Attenuate(s, p.value, c, now).value, ttlMs, now, token);
    }
  }

  /** Every step of the broker keeps its invariant. */
  lemma StepKeepsInv(s: System, host: Host, e: Event, now: int)
    requires Inv(s.broker) && RegistryRuns.Keyed(s.broker.registry) && Allowed(s, e, now)
    ensures Inv(Step(s.broker, host, e, now))
  {
    hide Inv, RegistryRuns.Keyed, IsSweepOrder, Connect, RegisterLocal, RegisterRemote, Unregister, Close, Rename, Send, MessageReceived,
      MessageRejected, FailDelivery, DeferAsk, CancelAsk, DropEdges, RevokeSubtree, AdoptSubtree, ReconcileExpired, IssueDirect, IssueDelegated, Restart;
    var b := s.broker;
    match e
    case ConnectE(socket, remote) => ConnectKeeps(b, socket, remote);
    case RegisterLocalE(socket, id, name) => RegisterLocalKeeps(b, socket, id, name, now);
    case RegisterRemoteE(socket, access, id, credential) => RegisterRemoteKeeps(b, socket, access, now, id, credential);
    case UnregisterE(socket, preserveAsks) => UnregisterKeeps(b, socket, preserveAsks, now);
    case CloseE(socket) => CloseKeeps(b, socket, now);
    case RenameE(socket, newName) => RenameKeeps(b, socket, newName, now);
    case SendE(socket, to, message, deliveryId) => SendKeeps(b, host, socket, to, message, deliveryId, now);
    case ReceivedE(socket, d) => ReceivedKeeps(b, host, socket, d, now);
    case RejectedE(socket, d) => RejectedKeeps(b, socket, d, now);
    case DeferAskE(socket, messageId) => DeferAskKeeps(b, socket, messageId, now);
    case CancelAskE(socket, messageId) => CancelAskKeeps(b, socket, messageId, now);
    case DeliveryTimeoutE(d) => TimedOutKeeps(b, d, now);
    case AskExpiryE(key) => DropEdgesKeeps(b, {key});
    case RevokeE(id) => RevokeSubtreeKeeps(b, id, now);
    case AdoptE(id, newParent) => AdoptSubtreeKeeps(b, id, newParent, now);
    case ReconcileE(order) => ReconcileKeeps(b, order, now);
    case IssueDirectE(parent, root, at, child, ttlMs, token) => IssueDirectKeeps(b, parent, root, at, child, ttlMs, now, token);
    case IssueDelegatedE(parent, generation, credential, allowed, child, ttlMs, token) =>
      IssueDelegatedKeeps(b, parent, generation, credential, allowed, child, ttlMs, now, token);
    case RestartE => RestartKeeps(b, now);
  }

  lemma TimedOutKeeps(b: Broker, d: DeliveryId, now: int)
    requires Inv(b)
    ensures Inv(DeliveryTimedOut(b, d, now))
  {
    hide Inv, FailAll;
    FailAllKeeps(b, {d}, _ => DeliveryTimeout, now);
  }
}
