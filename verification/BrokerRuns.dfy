/** Runs of the broker: every reachable state satisfies the invariant, the registry follows a
    disciplined run of its own, and outcomes of deliveries are final. */
module BrokerRuns {

  import opened Wrappers
  import opened Forest
  import opened RegistryModel
  import RegistryRuns
  import opened Messages
  import opened BrokerModel
  import opened BrokerInvariant
  import opened BrokerSteps

  // ---------- What a broker step does to the registry ----------

  /** The registry event behind a broker event, if it reaches the registry. */
  ghost function RegistryEvent(b: Broker, e: Event): Option<RegistryRuns.Event> {
    match e
    case RegisterRemoteE(socket, access, id, credential) =>
      if Unregistered(b, socket, true) && |b.sessions| < MAX_SESSIONS && access.EnrollmentToken?
      then Some(RegistryRuns.Present(access.token, id, credential)) else None
    case RevokeE(id) => Some(RegistryRuns.RevokeTree(id))
    case AdoptE(id, newParent) =>
      if MayAdopt(b, newParent) then Some(RegistryRuns.AdoptTree(id, newParent, AdoptedRoot(b, newParent))) else None
    case ReconcileE(order) => Some(RegistryRuns.ExpireDue(order))
    case IssueDirectE(parent, root, host, c, ttlMs, token) =>
      if parent in b.sessions && b.sessions[parent].origin.Local? && root == parent
      then Some(RegistryRuns.IssueDirect(
        EnrollmentRequest(c.name, parent, parent, host, c.expiresAt, c.canDelegate, None, c.maxDepth, c.maxChildren), ttlMs, token))
      else None
    case IssueDelegatedE(parent, generation, credential, allowed, child, ttlMs, token) =>
      if allowed && parent in b.registry.principals && b.registry.principals[parent].credential == credential
      then Some(RegistryRuns.IssueBelow(parent, generation, child, ttlMs, token)) else None
    case _ => None
  }

  ghost function WorldOf(s: System): RegistryRuns.World {
    RegistryRuns.World(s.broker.registry, s.now, s.names, s.tokens)
  }

  ghost function Next(s: System, host: Host, e: Event, now: int): System {
    var broker := Step(s.broker, host, e, now);
    match RegistryEvent(s.broker, e)
    case None => System(broker, now, s.names, s.tokens)
    case Some(r) =>
      var w := RegistryRuns.Next(WorldOf(s), r, now);
      System(broker, now, w.names, w.tokens)
  }

  lemma NextBroker(s: System, host: Host, e: Event, now: int)
    ensures Next(s, host, e, now).broker == Step(s.broker, host, e, now)
  {
    hide Step, RegistryEvent;
  }

  // ---------- What the building blocks leave alone ----------

  ghost predicate HistoryGrows(h: History, later: History) {
    && (forall d :: d in h.accepted ==> d in later.accepted && later.accepted[d] == h.accepted[d])
    && h.delivered <= later.delivered && h.failed <= later.failed && h.lost <= later.lost
  }

  /** An edge without a known carrier is older than `b`: it was the same ask there, without a carrier. */
  ghost predicate NoNewOrphans(b: Broker, b': Broker) {
    forall k :: k in b'.edges && k !in b'.history.carrier ==> k in b.edges && k !in b.history.carrier && SameAsk(b'.edges[k], b.edges[k])
  }

  /** Some deliveries may have failed, some edges and sessions may be gone, and that is all. */
  ghost predicate Calm(b: Broker, b': Broker) {
    && b'.registry == b.registry && b'.sessions.Keys <= b.sessions.Keys && NoNewOrphans(b, b')
    && b'.history.accepted == b.history.accepted && b'.history.delivered == b.history.delivered
    && b.history.failed <= b'.history.failed && b'.history.lost == b.history.lost
  }

  lemma FailAllIsCalm(b: Broker, victims: set<DeliveryId>, code: Delivery -> FailureCode, now: int)
    ensures Calm(b, FailAll(b, victims, code, now)) && FailAll(b, victims, code, now).sessions == b.sessions
  {
    hide Failing, FailingAsks, FailureAnswers;
  }

  lemma LeaveIsCalm(b: Broker, id: Id, socket: Socket, preserveAsks: bool, now: int)
    ensures Calm(b, Leave(b, id, socket, preserveAsks, now))
    ensures var b' := DeferEdgesOf(ClearPending(b, id, socket, now), id); Calm(b, b') && b'.sessions == b.sessions
  {
    hide FailAll, Involving, Touches;
    FailAllIsCalm(b, Involving(b.pending, id, socket),
      (p: Delivery) => if p.to == id && p.recipientSocket == socket then RecipientDisconnected else SenderDisconnected, now);
  }

  lemma DisconnectIsCalm(b: Broker, changed: set<Id>, now: int)
    ensures Calm(b, Disconnect(b, changed, now))
  {
    hide FailAll, InvolvingAny, Touches;
    FailAllIsCalm(b, InvolvingAny(b, changed * b.sessions.Keys), _ => RecipientDisconnected, now);
  }

  lemma RecentIsCalm(b: Broker, recent: map<Key, Recent>)
    ensures Calm(b, b.(recent := recent))
  {}

  lemma CalmComposes(b: Broker, mid: Broker, b': Broker)
    requires Calm(b, mid) && Calm(mid, b')
    ensures Calm(b, b')
  {}

  lemma DeduplicateIsCalm(b: Broker, host: Host, from: Id, to: string, m: Message, now: int)
    ensures var b' := Deduplicate(b, host, from, to, m, now).0; Calm(b, b') && b'.sessions == b.sessions
  {
    hide StillAuthorized, RecentHolds, FailAll, FingerprintOf, Calm;
    var pruned := Prune(b, now);
    var cleared := pruned.(recent := pruned.recent - {Key(from, m.id)});
    RecentIsCalm(b, pruned.recent);
    RecentIsCalm(b, cleared.recent);
    if Key(from, m.id) in b.pendingKeys {
      var failed := FailDelivery(cleared, b.pendingKeys[Key(from, m.id)], SessionNotFound, now);
      FailAllIsCalm(cleared, {b.pendingKeys[Key(from, m.id)]}, _ => SessionNotFound, now);
      CalmComposes(b, cleared, failed);
    }
  }

  // ---------- What a step may touch ----------

  predicate IsTransition(e: Event) {
    e.RevokeE? || e.AdoptE? || e.ReconcileE?
  }

  predicate IsEnrolment(e: Event) {
    e.IssueDirectE? || e.IssueDelegatedE? || e.RegisterRemoteE?
  }

  predicate IsAnswer(e: Event) {
    e.ReceivedE? || e.RejectedE? || e.DeliveryTimeoutE?
  }

  /** The history only grows, if delivery ids are fresh; only sends accept, only receipts deliver, only restarts lose sight
      of deliveries and bring edges without a carrier, only registrations add sessions, and only
      enrolments and transitions of principals touch the registry. */
  ghost predicate Framed(b: Broker, e: Event, b': Broker) {
    && (HistoryGrows(b.history, b'.history) || (e.SendE? && e.deliveryId in b.history.accepted))
    && (!e.SendE? ==> b'.history.accepted == b.history.accepted)
    && (!e.ReceivedE? ==> b'.history.delivered == b.history.delivered)
    && (!e.RestartE? ==> b'.history.lost == b.history.lost && NoNewOrphans(b, b'))
    && (!e.RegisterLocalE? && !e.RegisterRemoteE? ==> b'.sessions.Keys <= b.sessions.Keys)
    && (!IsTransition(e) && !IsEnrolment(e) ==> b'.registry == b.registry)
  }

  /** The delivery records what was sent, by whom, and the generations of both ends. */
  ghost predicate RecordsSend(b: Broker, socket: Socket, to: string, m: Message, p: Delivery) {
    && p.senderSocket == socket && p.message == m && p.fingerprint == FingerprintOf(to, m)
    && p.from in b.sessions && b.sessions[p.from].origin.Generation() == p.fromGeneration
    && p.to in b.sessions && b.sessions[p.to].origin.Generation() == p.toGeneration
  }

  /** Routing changes nothing, or accepts one delivery. */
  lemma RouteMayAccept(b: Broker, host: Host, socket: Socket, from: Id, to: string, m: Message, d: DeliveryId, now: int) returns (p: Delivery)
    requires from in b.sessions
    ensures RecordsSend(b, socket, to, m, p)
    ensures var (b', outcome) := Route(b, host, socket, from, to, m, d, now);
            (b' == b && !outcome.Accepted? && !outcome.Replayed?) || (b' == Accept(b, host, d, p, now) && outcome.Accepted?)
  {
    hide Targets, AskRefusal, PendingFrom, FingerprintOf, ActionOf, Accept;
    TargetsAreLive(b, host, from, to, ActionOf(m), now);
    var targets := Targets(b, host, from, to, ActionOf(m), now);
    p := DeliveryFor(b, socket, from, from, to, m);
    if |targets| == 1 {
      assert Only(targets) in targets;
      p := DeliveryFor(b, socket, from, Only(targets), to, m);
    }
  }

  /** What accepting a delivery leaves alone. */
  ghost predicate OnlyAccepts(b: Broker, d: DeliveryId, b': Broker) {
    && (HistoryGrows(b.history, b'.history) || d in b.history.accepted)
    && b'.history.delivered == b.history.delivered && b'.history.failed == b.history.failed && b'.history.lost == b.history.lost
    && NoNewOrphans(b, b') && b.edges.Keys <= b'.edges.Keys
    && b'.sessions == b.sessions && b'.registry == b.registry && b'.recent == b.recent
  }

  lemma AcceptOnlyAccepts(b: Broker, host: Host, d: DeliveryId, p: Delivery, now: int)
    ensures OnlyAccepts(b, d, Accept(b, host, d, p, now)) && OnlyAccepts(b, d, b)
  {
    assert p.message.IsAsk() || !p.message.IsAsk();
  }

  lemma RouteOnlyAccepts(b: Broker, host: Host, socket: Socket, from: Id, to: string, m: Message, d: DeliveryId, now: int)
    requires from in b.sessions
    ensures OnlyAccepts(b, d, Route(b, host, socket, from, to, m, d, now).0)
  {
    hide Route, Accept, OnlyAccepts;
    var p := RouteMayAccept(b, host, socket, from, to, m, d, now);
    AcceptOnlyAccepts(b, host, d, p, now);
  }

  lemma SendIsFramed(b: Broker, host: Host, e: Event, now: int)
    requires e.SendE?
    ensures Framed(b, e, Send(b, host, e.socket, e.to, e.message, e.deliveryId, now).0)
  {
    hide Deduplicate, Route;
    var speaker := Speaker(b, e.socket, now);
    if speaker.Some? {
      DeduplicateIsCalm(b, host, speaker.value, e.to, e.message, now);
      var (b', decided) := Deduplicate(b, host, speaker.value, e.to, e.message, now);
      if decided.None? { RouteOnlyAccepts(b', host, e.socket, speaker.value, e.to, e.message, e.deliveryId, now); }
    }
  }

  lemma NothingIsCalm(b: Broker)
    ensures Calm(b, b)
  {}

  lemma FewerEdgesIsCalm(b: Broker, edges: map<Key, AskEdge>)
    requires forall k :: k in edges ==> k in b.edges && SameAsk(edges[k], b.edges[k])
    ensures Calm(b, WithEdges(b, edges))
  {}

  /** A calm change, and after it one of the sessions that the event registers or of the
      registry that the event may touch. */
  lemma CalmIsFramed(b: Broker, e: Event, mid: Broker, b': Broker)
    requires Calm(b, mid) && b'.history == mid.history && b'.edges == mid.edges
    requires e.RegisterLocalE? || e.RegisterRemoteE? || b'.sessions.Keys <= mid.sessions.Keys
    requires IsTransition(e) || IsEnrolment(e) || b'.registry == mid.registry
    ensures Framed(b, e, b')
  {}

  /** The principals a step takes to a new generation. */
  ghost function Transitioned(b: Broker, e: Event, now: int): set<Id> {
    match e
    case RevokeE(id) => Tree(b.registry, id)
    case AdoptE(id, newParent) =>
      if MayAdopt(b, newParent) && Adopt(b.registry, id, newParent, AdoptedRoot(b, newParent), now).1.Ok? then Tree(b.registry, id) else {}
    case ReconcileE(order) => Sweep(b.registry, order, now).1
    case _ => {}
  }

  /** A transition disconnects what it changed, if it was not refused. */
  lemma TransitionDisconnects(b: Broker, host: Host, e: Event, now: int) returns (registry: Registry)
    requires IsTransition(e)
    ensures var b' := Step(b, host, e, now); b' == b || b' == Disconnect(b, Transitioned(b, e, now), now).(registry := registry)
  {
    hide Disconnect, Tree, Sweep, Adopt, Revoke, MayAdopt, AdoptedRoot;
    registry := Step(b, host, e, now).registry;
    if e.AdoptE? && MayAdopt(b, e.newParent) { AdoptMovesTree(b.registry, e.id, e.newParent, AdoptedRoot(b, e.newParent), now); }
  }

  lemma AdoptMovesTree(s: Registry, id: Id, newParent: Id, newRoot: Id, now: int)
    ensures var moved := Adopt(s, id, newParent, newRoot, now).1; moved.Ok? ==> moved.value == Tree(s, id)
  {
    hide Tree, IsText;
  }

  lemma TransitionIsFramed(b: Broker, host: Host, e: Event, now: int)
    requires IsTransition(e)
    ensures Framed(b, e, Step(b, host, e, now))
  {
    hide Step, Disconnect, Transitioned, Calm, Framed;
    var registry := TransitionDisconnects(b, host, e, now);
    NothingIsCalm(b);
    DisconnectIsCalm(b, Transitioned(b, e, now), now);
    CalmIsFramed(b, e, b, b);
    CalmIsFramed(b, e, Disconnect(b, Transitioned(b, e, now), now), Disconnect(b, Transitioned(b, e, now), now).(registry := registry));
  }

  lemma AnswerIsFramed(b: Broker, host: Host, e: Event, now: int)
    requires IsAnswer(e)
    ensures Framed(b, e, Step(b, host, e, now)) && Step(b, host, e, now).sessions == b.sessions
  {
    hide StillAuthorized, FailAll, Speaker, Calm, Framed, Acknowledge;
    var code := if e.ReceivedE? then SessionNotFound else if e.RejectedE? then ConflictingMessageId else DeliveryTimeout;
    var failed := FailDelivery(b, e.deliveryId, code, now);
    NothingIsCalm(b);
    FailAllIsCalm(b, {e.deliveryId}, _ => code, now);
    CalmIsFramed(b, e, b, b);
    CalmIsFramed(b, e, failed, failed);
    if e.ReceivedE? && e.deliveryId in b.pending { AcknowledgeIsFramed(b, e, now); }
  }

  lemma AcknowledgeIsFramed(b: Broker, e: Event, now: int)
    requires e.ReceivedE? && e.deliveryId in b.pending
    ensures Framed(b, e, Acknowledge(b, e.deliveryId, now)) && Acknowledge(b, e.deliveryId, now).sessions == b.sessions
  {
    hide Answer;
  }

  lemma RegisterLocalIsFramed(b: Broker, e: Event, now: int)
    requires e.RegisterLocalE?
    ensures Framed(b, e, RegisterLocal(b, e.socket, e.id, e.name, now))
  {
    hide ClearPending, DeferEdgesOf, AddSession, Calm, Framed;
    NothingIsCalm(b);
    var mid := b;
    if e.id in b.sessions && Unregistered(b, e.socket, false) {
      LeaveIsCalm(b, e.id, b.sessions[e.id].socket, true, now);
      mid := DeferEdgesOf(ClearPending(b, e.id, b.sessions[e.id].socket, now), e.id);
    }
    AddingLeavesAlone(mid, e.socket, e.id, e.name, Local);
    CalmIsFramed(b, e, mid, RegisterLocal(b, e.socket, e.id, e.name, now));
  }

  lemma UnregisterIsFramed(b: Broker, e: Event, now: int)
    requires e.UnregisterE?
    ensures Framed(b, e, Unregister(b, e.socket, e.preserveAsks, now))
  {
    assert Speaker(b, e.socket, now).Some? ==> Speaker(b, e.socket, now).value in b.sessions;
    hide Leave, Speaker, Bind, Calm, Framed;
    NothingIsCalm(b);
    CalmIsFramed(b, e, b, b);
    var speaker := Speaker(b, e.socket, now);
    if speaker.Some? {
      LeaveIsCalm(b, speaker.value, e.socket, e.preserveAsks, now);
      var mid := if b.sessions[speaker.value].socket == e.socket then Leave(b, speaker.value, e.socket, e.preserveAsks, now) else b;
      CalmIsFramed(b, e, mid, Bind(mid, e.socket, None));
    }
  }

  lemma CloseIsFramed(b: Broker, e: Event, now: int)
    requires e.CloseE?
    ensures Framed(b, e, Close(b, e.socket, now))
  {
    hide Leave, Calm, Framed;
    NothingIsCalm(b);
    var leaving, mid := if e.socket in b.connections then b.connections[e.socket].sessionId else None, b;
    if leaving.Some? && leaving.value in b.sessions && b.sessions[leaving.value].socket == e.socket {
      LeaveIsCalm(b, leaving.value, e.socket, true, now);
      mid := Leave(b, leaving.value, e.socket, true, now);
    }
    CalmIsFramed(b, e, mid, Close(b, e.socket, now));
  }

  lemma AddingLeavesAlone(b: Broker, socket: Socket, id: Id, name: Option<string>, origin: Origin)
    ensures var b' := AddSession(b, socket, id, name, origin); b'.registry == b.registry && b'.edges == b.edges && b'.history == b.history && b'.recent == b.recent
  {}

  lemma RegisterRemoteLeavesAlone(b: Broker, socket: Socket, access: Access, now: int, id: Id, credential: Secret)
    ensures var b' := RegisterRemote(b, socket, access, now, id, credential);
            b'.edges == b.edges && b'.history == b.history && b'.recent == b.recent
  {
    hide Admit, AddSession;
    var (registry, admitted) := Admit(b.registry, access, now, id, credential);
    if admitted.Ok? {
      var p := admitted.value;
      AddingLeavesAlone(b.(registry := registry), socket, p.id, Some(p.name), Remote(p.generation, p.parent, p.root));
    }
  }

  lemma SmallStepIsFramed(b: Broker, e: Event, now: int)
    requires e.ConnectE? || e.RenameE? || e.RegisterRemoteE?
    ensures e.ConnectE? ==> Framed(b, e, Connect(b, e.socket, e.remote))
    ensures e.RenameE? ==> Framed(b, e, Rename(b, e.socket, e.newName, now))
    ensures e.RegisterRemoteE? ==> Framed(b, e, RegisterRemote(b, e.socket, e.access, now, e.id, e.credential))
  {
    hide RegisterRemote, Rename, Calm, Framed;
    NothingIsCalm(b);
    if e.ConnectE? {
      CalmIsFramed(b, e, b, Connect(b, e.socket, e.remote));
    } else if e.RenameE? {
      RenameIsSmall(b, e.socket, e.newName, now);
      CalmIsFramed(b, e, b, Rename(b, e.socket, e.newName, now));
    } else {
      RegisterRemoteLeavesAlone(b, e.socket, e.access, now, e.id, e.credential);
      CalmIsFramed(b, e, b, RegisterRemote(b, e.socket, e.access, now, e.id, e.credential));
    }
  }

  lemma IssuingIsFramed(b: Broker, e: Event, now: int)
    requires e.IssueDirectE? || e.IssueDelegatedE?
    ensures e.IssueDirectE? ==> Framed(b, e, IssueDirect(b, e.parent, e.root, e.host, e.child, e.ttlMs, now, e.token))
    ensures e.IssueDelegatedE? ==>
      Framed(b, e, IssueDelegated(b, e.parent, e.generation, e.credential, e.allowed, e.child, e.ttlMs, now, e.token))
  {
    hide Issue, IssueChild, Authenticate, Calm, Framed;
    NothingIsCalm(b);
    if e.IssueDirectE? {
      CalmIsFramed(b, e, b, IssueDirect(b, e.parent, e.root, e.host, e.child, e.ttlMs, now, e.token));
    } else {
      CalmIsFramed(b, e, b, IssueDelegated(b, e.parent, e.generation, e.credential, e.allowed, e.child, e.ttlMs, now, e.token));
    }
  }

  lemma AskStepIsFramed(b: Broker, host: Host, e: Event, now: int)
    requires e.DeferAskE? || e.CancelAskE? || e.AskExpiryE?
    ensures Framed(b, e, Step(b, host, e, now))
  {
    hide Speaker, Calm, Framed, WithEdges;
    NothingIsCalm(b);
    var id := if e.AskExpiryE? then None else Speaker(b, e.socket, now);
    var k := if e.AskExpiryE? then e.key else if id.Some? then Key(id.value, e.messageId) else Key("", "");
    FewerEdgesIsCalm(b, b.edges - {k});
    if k in b.edges { FewerEdgesIsCalm(b, b.edges[k := b.edges[k].(state := Deferred)]); }
    CalmIsFramed(b, e, Step(b, host, e, now), Step(b, host, e, now));
  }

  lemma RestartIsFramed(b: Broker, e: Event, now: int)
    requires e.RestartE?
    ensures Framed(b, e, Restart(b, now))
  {
    hide Restored;
  }

  lemma StepIsFramed(b: Broker, host: Host, e: Event, now: int)
    ensures Framed(b, e, Step(b, host, e, now))
  {
    hide Framed, Send, Connect, RegisterLocal, RegisterRemote, Unregister, Close, Rename, IssueDirect, IssueDelegated, Restart;
    if IsTransition(e) || IsAnswer(e) || e.DeferAskE? || e.CancelAskE? || e.AskExpiryE? {
      hide Step;
      if IsTransition(e) { TransitionIsFramed(b, host, e, now); }
      else if IsAnswer(e) { AnswerIsFramed(b, host, e, now); }
      else { AskStepIsFramed(b, host, e, now); }
    }
    else if e.SendE? { SendIsFramed(b, host, e, now); }
    else if e.RegisterLocalE? { RegisterLocalIsFramed(b, e, now); }
    else if e.UnregisterE? { UnregisterIsFramed(b, e, now); }
    else if e.CloseE? { CloseIsFramed(b, e, now); }
    else if e.RestartE? { RestartIsFramed(b, e, now); }
    else if e.IssueDirectE? || e.IssueDelegatedE? { IssuingIsFramed(b, e, now); }
    else { SmallStepIsFramed(b, e, now); }
  }

  /** A delivery is lost sight of only by a restart while it was pending. */
  lemma OnlyRestartsLose(s: System, host: Host, e: Event, now: int, d: DeliveryId)
    requires Allowed(s, e, now)
    requires d in Step(s.broker, host, e, now).history.lost && d !in s.broker.history.lost
    ensures e.RestartE? && d in s.broker.pending
  {
    if !e.RestartE? {
      assert e.SendE? ==> e.deliveryId !in s.broker.history.accepted;
      hide Step, Allowed;
      StepIsFramed(s.broker, host, e, now);
    }
  }

  /** Only the recipient's own acknowledgement, on the socket of the delivery, delivers. */
  lemma OnlyReceiptsDeliver(s: System, host: Host, e: Event, now: int, d: DeliveryId)
    requires Allowed(s, e, now)
    requires d in Step(s.broker, host, e, now).history.delivered && d !in s.broker.history.delivered
    ensures e.ReceivedE? && e.deliveryId == d
    ensures d in s.broker.pending && s.broker.pending[d].recipientSocket == e.socket
  {
    if e.ReceivedE? {
      hide StillAuthorized, FailAll;
      FailAllIsCalm(s.broker, {e.deliveryId}, _ => SessionNotFound, now);
    } else {
      assert e.SendE? ==> e.deliveryId !in s.broker.history.accepted;
      hide Step, Allowed;
      StepIsFramed(s.broker, host, e, now);
    }
  }

  /** Only a send accepts a delivery. */
  lemma OnlySendAccepts(b: Broker, host: Host, e: Event, now: int)
    requires !e.SendE?
    ensures Step(b, host, e, now).history.accepted == b.history.accepted
  {
    hide Step;
    StepIsFramed(b, host, e, now);
  }

  lemma RefusedAdoptionChangesNothing(s: Registry, id: Id, newParent: Id, newRoot: Id, now: int)
    ensures Adopt(s, id, newParent, newRoot, now).1.Err? ==> Adopt(s, id, newParent, newRoot, now).0 == s
  {}

  /** The broker step does to the registry what its registry event says. */
  ghost predicate FollowsRegistry(s: System, host: Host, e: Event, now: int) {
    match RegistryEvent(s.broker, e)
    case None => Step(s.broker, host, e, now).registry == s.broker.registry
    case Some(r) =>
      && RegistryRuns.Allowed(WorldOf(s), r, now)
      && Step(s.broker, host, e, now).registry == RegistryRuns.Step(s.broker.registry, r, now)
  }

  lemma TransitionFollows(s: System, host: Host, e: Event, now: int)
    requires Mirrors(s.broker.sessions, s.broker.registry) && Allowed(s, e, now) && IsTransition(e)
    ensures FollowsRegistry(s, host, e, now)
  {
    hide Disconnect, Tree, Sweep, IsSweepOrder, Adopt, Revoke;
    if e.AdoptE? {
      if e.newParent in s.broker.sessions {
        assert MirrorsPrincipal(e.newParent, s.broker.sessions[e.newParent].origin, s.broker.registry);
      }
      if MayAdopt(s.broker, e.newParent) {
        RefusedAdoptionChangesNothing(s.broker.registry, e.id, e.newParent, AdoptedRoot(s.broker, e.newParent), now);
      }
    }
  }

  lemma DirectEnrolmentFollows(s: System, host: Host, e: Event, now: int)
    requires Mirrors(s.broker.sessions, s.broker.registry) && Allowed(s, e, now) && e.IssueDirectE?
    ensures FollowsRegistry(s, host, e, now)
  {
    hide Issue;
    if e.parent in s.broker.sessions {
      assert MirrorsPrincipal(e.parent, s.broker.sessions[e.parent].origin, s.broker.registry);
    }
  }

  lemma DelegatedEnrolmentFollows(s: System, host: Host, e: Event, now: int)
    requires Allowed(s, e, now) && e.IssueDelegatedE?
    ensures FollowsRegistry(s, host, e, now)
  {
    hide Issue, Attenuate;
  }

  lemma RegistrationFollows(s: System, host: Host, e: Event, now: int)
    requires Allowed(s, e, now) && e.RegisterRemoteE?
    ensures FollowsRegistry(s, host, e, now)
  {
    hide Validate, AddSession, Consume;
    var b := s.broker;
    var (registry, admitted) := Admit(b.registry, e.access, now, e.id, e.credential);
    if admitted.Ok? {
      var p := admitted.value;
      AddingLeavesAlone(b.(registry := registry), e.socket, p.id, Some(p.name), Remote(p.generation, p.parent, p.root));
    }
  }

  /** A broker step changes the registry exactly as its registry event says, and that event
      obeys the discipline of registry runs. */
  lemma StepIsRegistryStep(s: System, host: Host, e: Event, now: int)
    requires Mirrors(s.broker.sessions, s.broker.registry) && Allowed(s, e, now)
    ensures FollowsRegistry(s, host, e, now)
  {
    if IsTransition(e) || IsEnrolment(e) {
      hide FollowsRegistry, Allowed;
      if IsTransition(e) { TransitionFollows(s, host, e, now); }
      else if e.IssueDirectE? { DirectEnrolmentFollows(s, host, e, now); }
      else if e.IssueDelegatedE? { DelegatedEnrolmentFollows(s, host, e, now); }
      else { RegistrationFollows(s, host, e, now); }
    } else {
      hide Step;
      StepIsFramed(s.broker, host, e, now);
    }
  }

  // ---------- Runs ----------

  datatype Timed = Timed(event: Event, now: int)

  const START := System(Broker(EMPTY, map[], map[], map[], map[], map[], map[], map[], History(map[], {}, {}, {}, map[])), 0, {}, {})

  ghost function Run(host: Host, events: seq<Timed>): System {
    if events == [] then START
    else Next(Run(host, events[..|events| - 1]), host, events[|events| - 1].event, events[|events| - 1].now)
  }

  ghost predicate IsRun(host: Host, events: seq<Timed>) {
    forall i :: 0 <= i < |events| ==> Allowed(Run(host, events[..i]), events[i].event, events[i].now)
  }

  lemma PrefixIsRun(host: Host, events: seq<Timed>, n: nat)
    requires IsRun(host, events) && n <= |events|
    ensures IsRun(host, events[..n])
  {
    forall i | 0 <= i < n ensures events[..n][..i] == events[..i] {}
  }

  lemma LastStep(host: Host, events: seq<Timed>)
    requires IsRun(host, events) && events != []
    ensures var before, last := events[..|events| - 1], events[|events| - 1];
            && IsRun(host, before) && Allowed(Run(host, before), last.event, last.now)
            && Run(host, events) == Next(Run(host, before), host, last.event, last.now)
  {
    PrefixIsRun(host, events, |events| - 1);
  }

  lemma StepAt(host: Host, events: seq<Timed>, i: nat)
    requires IsRun(host, events) && i < |events|
    ensures IsRun(host, events[..i]) && IsRun(host, events[..i + 1])
    ensures Allowed(Run(host, events[..i]), events[i].event, events[i].now)
    ensures Run(host, events[..i + 1]) == Next(Run(host, events[..i]), host, events[i].event, events[i].now)
  {
    PrefixIsRun(host, events, i + 1);
    LastStep(host, events[..i + 1]);
    assert events[..i + 1][..i] == events[..i];
  }

  ghost predicate RegistryHolds(s: System) {
    RegistryRuns.Sound(s.broker.registry) && RegistryRuns.Covered(WorldOf(s))
  }

  lemma StepKeepsRegistry(s: System, host: Host, e: Event, now: int)
    requires Mirrors(s.broker.sessions, s.broker.registry) && RegistryHolds(s) && Allowed(s, e, now)
    ensures RegistryHolds(Next(s, host, e, now))
    ensures RegistryRuns.Fenced(s.broker.registry, Next(s, host, e, now).broker.registry)
  {
    hide Step, RegistryRuns.Step, Allowed, RegistryRuns.Allowed, RegistryEvent, Mirrors, RegistryRuns.Rooted, RegistryRuns.TemplatesRooted;
    StepIsRegistryStep(s, host, e, now);
    match RegistryEvent(s.broker, e)
    case None =>
    case Some(r) =>
      RegistryRuns.StepKeepsSound(WorldOf(s), r, now);
      RegistryRuns.StepKeepsCovered(WorldOf(s), r, now);
      RegistryRuns.StepFences(WorldOf(s), r, now);
  }

  /** Every reachable state of the broker satisfies the invariant. */
  lemma {:induction false} ReachableStatesHold(host: Host, events: seq<Timed>)
    requires IsRun(host, events)
    ensures Inv(Run(host, events).broker) && RegistryHolds(Run(host, events))
    decreases |events|
  {
    hide Inv, RegistryHolds, Step, Allowed, Next;
    if events == [] {
      StartHolds();
    } else {
      LastStep(host, events);
      var s, last := Run(host, events[..|events| - 1]), events[|events| - 1];
      ReachableStatesHold(host, events[..|events| - 1]);
      KeyedAndMirrored(s);
      StepKeepsInv(s, host, last.event, last.now);
      StepKeepsRegistry(s, host, last.event, last.now);
      NextBroker(s, host, last.event, last.now);
    }
  }

  lemma KeyedAndMirrored(s: System)
    requires Inv(s.broker) && RegistryHolds(s)
    ensures Mirrors(s.broker.sessions, s.broker.registry) && RegistryRuns.Keyed(s.broker.registry)
  {
    hide TablesHold, RecordsHold, AsksHold, Mirrors, RegistryRuns.Rooted, RegistryRuns.TemplatesRooted, RegistryRuns.Covered;
  }

  lemma StartHolds()
    ensures Inv(START.broker) && RegistryHolds(START)
  {
    assert forall id :: PendingFrom(map[], id) == {};
    assert forall id :: EdgesFrom(map[], id) == {};
    EmptyTablesHold(START.broker);
    DeferredEdgesHold(map[], map[], {});
    hide TablesHold, Carried, BlockingOnSockets, MutualWaitsResolve;
  }

  /** What a broker does to its registry over a run is a run of the registry: the theorems about
      registry runs hold of every reachable broker. */
  lemma {:induction false} RegistryFollowsItsOwnRun(host: Host, events: seq<Timed>) returns (projected: seq<RegistryRuns.Timed>)
    requires IsRun(host, events)
    ensures RegistryRuns.IsRun(projected)
    ensures var w, s := RegistryRuns.Run(projected), Run(host, events);
            w.registry == s.broker.registry && w.names == s.names && w.tokens == s.tokens && w.now <= s.now
    decreases |events|
  {
    if events == [] { return []; }
    LastStep(host, events);
    var before, last := events[..|events| - 1], events[|events| - 1];
    var s := Run(host, before);
    projected := RegistryFollowsItsOwnRun(host, before);
    ReachableStatesHold(host, before);
    StepIsRegistryStep(s, host, last.event, last.now);
    var r := RegistryEvent(s.broker, last.event);
    hide Step, Inv, RegistryEvent, RegistryRuns.Step;
    if r.Some? {
      var more := projected + [RegistryRuns.Timed(r.value, last.now)];
      RegistryRuns.ExtendedRun(projected, r.value, last.now);
      projected := more;
    }
  }

  // ---------- History only grows ----------

  lemma {:induction false} RunsGrow(host: Host, events: seq<Timed>, i: nat, j: nat)
    requires IsRun(host, events) && i <= j <= |events|
    ensures HistoryGrows(Run(host, events[..i]).broker.history, Run(host, events[..j]).broker.history)
    ensures RegistryRuns.Fenced(Run(host, events[..i]).broker.registry, Run(host, events[..j]).broker.registry)
    decreases j
  {
    hide Step, Allowed, IsRun, Inv, RegistryHolds, Run, Next, HistoryGrows, RegistryRuns.Fenced;
    if i < j {
      RunsGrow(host, events, i, j - 1);
      StepAt(host, events, j - 1);
      ReachableStatesHold(host, events[..j - 1]);
      GrowsOneStep(Run(host, events[..i]), Run(host, events[..j - 1]), host, events[j - 1].event, events[j - 1].now);
    } else {
      GrowsNowhere(Run(host, events[..i]).broker);
    }
  }

  lemma GrowsNowhere(b: Broker)
    ensures HistoryGrows(b.history, b.history) && RegistryRuns.Fenced(b.registry, b.registry)
  {}

  lemma HistoryComposes(h: History, mid: History, later: History)
    requires HistoryGrows(h, mid) && HistoryGrows(mid, later)
    ensures HistoryGrows(h, later)
  {}

  lemma GrowsOneStep(first: System, s: System, host: Host, e: Event, now: int)
    requires HistoryGrows(first.broker.history, s.broker.history) && RegistryRuns.Fenced(first.broker.registry, s.broker.registry)
    requires Inv(s.broker) && RegistryHolds(s) && Allowed(s, e, now)
    ensures HistoryGrows(first.broker.history, Next(s, host, e, now).broker.history)
    ensures RegistryRuns.Fenced(first.broker.registry, Next(s, host, e, now).broker.registry)
  {
    TablesOf(s.broker);
    assert e.SendE? ==> e.deliveryId !in s.broker.history.accepted;
    hide Step, Next, Allowed, Inv, RegistryHolds, Mirrors, Indexed, RegistryEvent, RegistryRuns.Fenced, HistoryGrows;
    NextBroker(s, host, e, now);
    StepIsFramed(s.broker, host, e, now);
    StepKeepsRegistry(s, host, e, now);
    HistoryComposes(first.broker.history, s.broker.history, Next(s, host, e, now).broker.history);
    RegistryRuns.FencingComposes(first.broker.registry, s.broker.registry, Next(s, host, e, now).broker.registry);
  }

  lemma AcceptedPersists(host: Host, events: seq<Timed>, i: nat, j: nat, d: DeliveryId)
    requires IsRun(host, events) && i <= j <= |events|
    requires d in Run(host, events[..i]).broker.history.accepted
    ensures var h, later := Run(host, events[..i]).broker.history, Run(host, events[..j]).broker.history;
            d in later.accepted && later.accepted[d] == h.accepted[d]
  {
    hide Run, IsRun;
    RunsGrow(host, events, i, j);
  }

  /** How the accepted delivery `d` stands: pending, or ended in one of three ways. */
  ghost predicate HasOneOutcome(b: Broker, d: DeliveryId) {
    EndedOnce(d in b.pending, d in b.history.delivered, d in b.history.failed, d in b.history.lost)
  }

  lemma AccountedHasOneOutcome(b: Broker, d: DeliveryId)
    requires Inv(b) && d in b.history.accepted
    ensures HasOneOutcome(b, d)
  {
    hide TablesHold, AsksHold, Mirrors, CacheSound;
  }

  /** An accepted delivery is pending or has ended in one way, and an end is final. */
  lemma OutcomeIsUniqueAndFinal(host: Host, events: seq<Timed>, i: nat, j: nat, d: DeliveryId)
    requires IsRun(host, events) && i <= j <= |events|
    requires d in Run(host, events[..i]).broker.history.accepted
    ensures var h, b := Run(host, events[..i]).broker.history, Run(host, events[..j]).broker;
            && d in b.history.accepted && b.history.accepted[d] == h.accepted[d]
            && HasOneOutcome(b, d)
            && (d in h.delivered ==> d in b.history.delivered)
            && (d in h.failed ==> d in b.history.failed)
            && (d in h.lost ==> d in b.history.lost)
  {
    PrefixIsRun(host, events, j);
    ReachableStatesHold(host, events[..j]);
    RunsGrow(host, events, i, j);
    hide Inv, IsRun, Run, HasOneOutcome;
    AccountedHasOneOutcome(Run(host, events[..j]).broker, d);
  }
}
