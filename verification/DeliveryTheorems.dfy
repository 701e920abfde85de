/** What a run of the broker promises about deliveries. */
module DeliveryTheorems {

  import opened Wrappers
  import opened Forest
  import opened RegistryModel
  import opened Sets
  import opened Messages
  import opened BrokerModel
  import opened BrokerInvariant
  import opened BrokerSteps
  import opened BrokerRuns

  // ---------- The pending table ----------

  /** In every reachable state the two pending tables are inverse to each other, every pending
      delivery runs between the current sockets of two live sessions, those sockets are open
      connections that speak for these sessions, no pending key has a final answer, and the
      limits on pending deliveries are kept. */
  lemma PendingTableIsCoherent(host: Host, events: seq<Timed>, d: DeliveryId, k: Key)
    requires IsRun(host, events)
    ensures var b := Run(host, events).broker;
            && (d in b.pending && b.pending[d].key == k <==> k in b.pendingKeys && b.pendingKeys[k] == d)
            && (k in b.pendingKeys && k in b.recent ==> b.recent[k].retryable)
            && |b.pending| <= MAX_PENDING_DELIVERIES && |PendingFrom(b.pending, k.from)| <= MAX_PENDING_DELIVERIES_PER_SESSION
            && (d in b.pending ==>
              var p := b.pending[d];
              && p.from in b.sessions && b.sessions[p.from].socket == p.senderSocket
              && p.to in b.sessions && b.sessions[p.to].socket == p.recipientSocket
              && p.senderSocket in b.connections && b.connections[p.senderSocket].sessionId == Some(p.from)
              && p.recipientSocket in b.connections && b.connections[p.recipientSocket].sessionId == Some(p.to))
  {
    ReachableStatesHold(host, events);
    hide AsksHold, Accounted, Mirrors, PendingFrom, Run, IsRun;
    assert |Run(host, events).broker.pending.Keys| == |Run(host, events).broker.pending|;
  }

  // ---------- What a send may do ----------

  /** How well a session fits what a sender asks for: by its id, by its name, by how its id
      starts, or not at all. */
  function Fit(b: Broker, host: Host, wanted: string, id: Id): nat
    requires id in b.sessions
  {
    if id == wanted then 0
    else if b.sessions[id].name.Some? && host.lower(b.sessions[id].name.value) == host.lower(wanted) then 1
    else if wanted <= id then 2
    else 3
  }

  /** A sender reaches exactly the live sessions that fit best: an id beats a name, and a name
      beats the start of an id. */
  lemma FoundSessionsFitBest(b: Broker, host: Host, wanted: string, id: Id)
    ensures id in FindSessions(b, host, wanted) <==>
            id in b.sessions && Fit(b, host, wanted, id) < 3 && forall x :: x in b.sessions ==> Fit(b, host, wanted, id) <= Fit(b, host, wanted, x)
  {
    var found := FindSessions(b, host, wanted);
    var byName := set x | x in b.sessions && b.sessions[x].name.Some? && host.lower(b.sessions[x].name.value) == host.lower(wanted);
    if wanted in b.sessions {
      assert Fit(b, host, wanted, wanted) == 0 && found == {wanted};
    } else if byName != {} {
      assert found == byName;
      var x :| x in byName;
      assert Fit(b, host, wanted, x) == 1;
    } else {
      assert forall x :: x in b.sessions ==> x !in byName && Fit(b, host, wanted, x) >= 2;
    }
  }

  /** The delivery is what a send of `m` by `from` may lead to: to the one authorised session the
      name stands for, between the current sockets, and, for a reply, answering an ask that this
      session put to the sender. */
  ghost predicate MayAccept(b: Broker, host: Host, socket: Socket, from: Id, to: string, m: Message, p: Delivery, now: int) {
    && p.key == Key(from, m.id) && p.from == from && p.message == m && p.fingerprint == FingerprintOf(to, m)
    && from in b.sessions && b.sessions[from].socket == socket == p.senderSocket
    && p.to in b.sessions && b.sessions[p.to].socket == p.recipientSocket
    && p.to in FindSessions(b, host, to) && IsAuthorized(b, host, from, ActionOf(m), p.to, now)
    && (forall id :: id in FindSessions(b, host, to) && IsAuthorized(b, host, from, ActionOf(m), id, now) ==> id == p.to)
    && (m.replyTo.Some? ==>
      var ask := Key(p.to, m.replyTo.value); ask in b.edges && b.edges[ask].from == p.to && b.edges[ask].to == from)
  }

  lemma OnlyTargetIsAllowed(b: Broker, host: Host, from: Id, to: string, action: Action, now: int)
    requires var targets := Targets(b, host, from, to, action, now); |targets| == 1
    ensures var target := Only(Targets(b, host, from, to, action, now));
            && target in b.sessions && target in FindSessions(b, host, to) && IsAuthorized(b, host, from, action, target, now)
            && forall id :: id in FindSessions(b, host, to) && IsAuthorized(b, host, from, action, id, now) ==> id == target
  {
    hide IsAuthorized, FindSessions;
    TargetsAreLive(b, host, from, to, action, now);
    var targets := Targets(b, host, from, to, action, now);
    var target := Only(targets);
    assert target in targets;
    forall id | id in FindSessions(b, host, to) && IsAuthorized(b, host, from, action, id, now) ensures id == target {
      assert id in targets;
      if id != target { SubsetIsSmaller({id, target}, targets); }
    }
  }

  lemma RoutedAsAllowed(b: Broker, host: Host, socket: Socket, from: Id, to: string, m: Message, d: DeliveryId, now: int)
    requires from in b.sessions
    ensures var (b', outcome) := Route(b, host, socket, from, to, m, d, now);
            if outcome.Accepted? then
              && outcome.deliveryId == d && d in b'.pending && b'.pending == b.pending[d := b'.pending[d]]
              && outcome.recipient == b'.pending[d].to && MayAccept(b, host, socket, from, to, m, b'.pending[d], now)
              && (m.IsAsk() ==>
                b'.edges == b.edges[Key(from, m.id) := AskEdge(m.id, from, outcome.recipient, now, now + host.askTimeoutMs, Blocking)])
              && (!m.IsAsk() ==> b'.edges == b.edges)
            else b' == b
  {
    hide IsAuthorized, FindSessions, IsReverseWait, EdgesFrom, PendingFrom, Targets;
    if |Targets(b, host, from, to, ActionOf(m), now)| == 1 { OnlyTargetIsAllowed(b, host, from, to, ActionOf(m), now); }
  }

  lemma FailAllShrinks(b: Broker, victims: set<DeliveryId>, code: Delivery -> FailureCode, now: int)
    ensures var b' := FailAll(b, victims, code, now); FewerPending(b'.pending, b.pending) && FewerEdges(b'.edges, b.edges)
  {
    hide FailingAsks, FailureAnswers, Failing;
  }

  lemma DeduplicationShrinks(b: Broker, host: Host, from: Id, to: string, m: Message, now: int)
    ensures var (b', decided) := Deduplicate(b, host, from, to, m, now);
            && FewerPending(b'.pending, b.pending) && FewerEdges(b'.edges, b.edges)
            && (decided.Some? ==> !decided.value.Accepted?)
  {
    hide StillAuthorized, RecentHolds, FailAll, FewerPending, FewerEdges;
    NothingChanges(b);
    var pruned, key := Prune(b, now), Key(from, m.id);
    if key in b.pendingKeys { FailAllShrinks(pruned.(recent := pruned.recent - {key}), {b.pendingKeys[key]}, _ => SessionNotFound, now); }
  }

  /** A send that is accepted adds exactly one delivery, and only as `MayAccept` says of the state
      it was routed in; any other send adds none. */
  lemma AcceptedSendIsSound(b: Broker, host: Host, socket: Socket, to: string, m: Message, d: DeliveryId, now: int)
    requires Inv(b)
    ensures var (b', outcome) := Send(b, host, socket, to, m, d, now);
            if outcome.Accepted? then
              && Speaker(b, socket, now).Some? && outcome.deliveryId == d && d in b'.pending
              && var routed := Deduplicate(b, host, Speaker(b, socket, now).value, to, m, now).0;
                 && FewerPending(routed.pending, b.pending) && FewerEdges(routed.edges, b.edges) && routed.sessions == b.sessions
                 && b'.pending == routed.pending[d := b'.pending[d]]
                 && MayAccept(routed, host, socket, Speaker(b, socket, now).value, to, m, b'.pending[d], now)
            else FewerPending(b'.pending, b.pending) && FewerEdges(b'.edges, b.edges)
  {
    hide Inv, Deduplicate, Route, MayAccept, FewerPending, FewerEdges, CacheSound;
    NothingChanges(b);
    var speaker := Speaker(b, socket, now);
    if speaker.Some? {
      DeduplicationShrinks(b, host, speaker.value, to, m, now);
      DeduplicateIsCalm(b, host, speaker.value, to, m, now);
      RoutedAsAllowed(Deduplicate(b, host, speaker.value, to, m, now).0, host, socket, speaker.value, to, m, d, now);
    }
  }

  lemma NothingChanges(b: Broker)
    ensures FewerPending(b.pending, b.pending) && FewerEdges(b.edges, b.edges)
  {}

  lemma RecentDoesNotMatter(b: Broker, recent: map<Key, Recent>, host: Host, from: Id, to: string, action: Action, now: int)
    ensures Targets(b.(recent := recent), host, from, to, action, now) == Targets(b, host, from, to, action, now)
  {
    assert FindSessions(b.(recent := recent), host, to) == FindSessions(b, host, to);
    hide FindSessions;
  }

  /** The limits, the targets and the asks permit this send to reach `target`. */
  ghost predicate Permits(b: Broker, host: Host, socket: Socket, from: Id, to: string, m: Message, target: Id, now: int) {
    && |b.pending| < MAX_PENDING_DELIVERIES && |PendingFrom(b.pending, from)| < MAX_PENDING_DELIVERIES_PER_SESSION
    && from in b.sessions && b.sessions[from].socket == socket
    && Targets(b, host, from, to, ActionOf(m), now) == {target}
    && AskRefusal(b.edges, from, target, m).None?
  }

  lemma OnlyOfOne<T(!new)>(s: set<T>, x: T)
    ensures |s| == 1 && Only(s) == x <==> s == {x}
  {
    if |s| == 1 && Only(s) == x {
      forall y | y in s ensures y == x { if y != x { SubsetIsSmaller({x, y}, s); } }
    }
    if s == {x} { assert Only(s) in {x}; }
  }

  lemma RouteIsExact(b: Broker, host: Host, socket: Socket, from: Id, to: string, m: Message, d: DeliveryId, now: int, target: Id)
    requires from in b.sessions
    ensures var (b', outcome) := Route(b, host, socket, from, to, m, d, now);
            && (outcome == Accepted(d, target) <==> Permits(b, host, socket, from, to, m, target, now))
            && (outcome == Accepted(d, target) ==>
              d in b'.pending && b'.pending[d].to == target && b'.pending[d].message == m && b'.pendingKeys == b.pendingKeys[Key(from, m.id) := d])
  {
    hide AskRefusal, PendingFrom, Targets;
    TargetsAreLive(b, host, from, to, ActionOf(m), now);
    OnlyOfOne(Targets(b, host, from, to, ActionOf(m), now), target);
  }

  /** Neither a pending delivery nor an answer that still holds stands for this message. */
  ghost predicate Unanswered(b: Broker, host: Host, from: Id, to: string, m: Message, now: int) {
    var k := Key(from, m.id);
    && k !in b.pendingKeys
    && (k in b.recent && b.recent[k].expiresAt > now ==>
      b.recent[k].fingerprint == FingerprintOf(to, m) && (b.recent[k].retryable || !RecentHolds(b, host, from, k, now)))
  }

  lemma RecentHoldsWhenPruned(b: Broker, host: Host, from: Id, k: Key, now: int)
    requires k in b.recent && b.recent[k].expiresAt > now
    ensures RecentHolds(Prune(b, now), host, from, k, now) == RecentHolds(b, host, from, k, now)
  {
    hide Validate;
  }

  lemma UnansweredIsRouted(b: Broker, host: Host, from: Id, to: string, m: Message, now: int)
    requires Key(from, m.id) !in b.pendingKeys
    ensures Deduplicate(b, host, from, to, m, now).1.None? <==> Unanswered(b, host, from, to, m, now)
    ensures Deduplicate(b, host, from, to, m, now).0 == b.(recent := Deduplicate(b, host, from, to, m, now).0.recent)
  {
    var k := Key(from, m.id);
    if k in b.recent && b.recent[k].expiresAt > now { RecentHoldsWhenPruned(b, host, from, k, now); }
    hide RecentHolds, StillAuthorized;
  }

  /** A message that nothing answers, above all one that failed, may be sent again: it is
      accepted anew if and only if the limits, the targets and the asks permit. */
  lemma FailedResendIsRouted(b: Broker, host: Host, socket: Socket, from: Id, to: string, m: Message, d: DeliveryId, now: int, target: Id)
    requires Speaker(b, socket, now) == Some(from) && Unanswered(b, host, from, to, m, now)
    ensures var (b', outcome) := Send(b, host, socket, to, m, d, now);
            && (outcome == Accepted(d, target) <==> Permits(b, host, socket, from, to, m, target, now))
            && (outcome == Accepted(d, target) ==>
              d in b'.pending && b'.pending[d].to == target && b'.pending[d].message == m && b'.pendingKeys == b.pendingKeys[Key(from, m.id) := d])
  {
    assert from in b.sessions;
    UnansweredIsRouted(b, host, from, to, m, now);
    var routed := Deduplicate(b, host, from, to, m, now).0;
    hide Deduplicate, Route, Targets, AskRefusal, PendingFrom, IsCurrentPrincipal, Unanswered;
    RouteIsExact(routed, host, socket, from, to, m, d, now, target);
    RecentDoesNotMatter(b, routed.recent, host, from, to, ActionOf(m), now);
  }

  // ---------- Sessions and their principals ----------

  /** In every reachable state a live remote session has the generation, the parent and the root
      of an active principal, and a live local session is no principal. */
  lemma LiveSessionsMatchRegistry(host: Host, events: seq<Timed>, id: Id)
    requires IsRun(host, events) && id in Run(host, events).broker.sessions
    ensures var b := Run(host, events).broker;
            match b.sessions[id].origin
            case Local => id !in b.registry.principals
            case Remote(generation, parent, root) =>
              && id in b.registry.principals && b.registry.principals[id].status.Active?
              && generation == b.registry.principals[id].generation
              && parent == b.registry.principals[id].parent && root == b.registry.principals[id].root
  {
    ReachableStatesHold(host, events);
    hide TablesHold, RecordsHold, AsksHold, Run, IsRun;
    assert MirrorsPrincipal(id, Run(host, events).broker.sessions[id].origin, Run(host, events).broker.registry);
  }

  lemma OneMoreSession(sessions: map<Id, Session>, id: Id, session: Session)
    ensures |sessions[id := session]| <= if id in sessions then |sessions| else |sessions| + 1
  {
    assert sessions[id := session].Keys == sessions.Keys + {id};
    assert |sessions[id := session].Keys| == |sessions[id := session]| && |sessions.Keys| == |sessions|;
  }

  lemma RegisterRemoteKeepsCap(b: Broker, socket: Socket, access: Access, now: int, id: Id, credential: Secret)
    requires |b.sessions| <= MAX_SESSIONS
    ensures |RegisterRemote(b, socket, access, now, id, credential).sessions| <= MAX_SESSIONS
  {
    hide Admit;
    var (_, admitted) := Admit(b.registry, access, now, id, credential);
    if admitted.Ok? {
      var p := admitted.value;
      OneMoreSession(b.sessions, p.id, Session(socket, Some(p.name), Remote(p.generation, p.parent, p.root)));
    }
  }

  lemma StepKeepsCap(b: Broker, host: Host, e: Event, now: int)
    requires |b.sessions| <= MAX_SESSIONS
    ensures |Step(b, host, e, now).sessions| <= MAX_SESSIONS
  {
    if e.RegisterLocalE? {
      hide RegisterLocal;
    } else if e.RegisterRemoteE? {
      hide RegisterRemote;
      RegisterRemoteKeepsCap(b, e.socket, e.access, now, e.id, e.credential);
    } else {
      hide Step;
      StepIsFramed(b, host, e, now);
      FewerKeys(Step(b, host, e, now).sessions, b.sessions);
    }
  }

  /** In no reachable state are more than 128 sessions registered. */
  lemma {:induction false} SessionsAreCapped(host: Host, events: seq<Timed>)
    ensures |Run(host, events).broker.sessions| <= MAX_SESSIONS
    decreases |events|
  {
    hide Step, Next;
    if events != [] {
      var s, last := Run(host, events[..|events| - 1]), events[|events| - 1];
      SessionsAreCapped(host, events[..|events| - 1]);
      NextBroker(s, host, last.event, last.now);
      StepKeepsCap(s.broker, host, last.event, last.now);
    }
  }

  // ---------- No report straddles a change of generation ----------

  /** The step tells a sender that `d` was delivered, at first hand or from the recent cache. */
  ghost predicate Reports(b: Broker, host: Host, e: Event, now: int, d: DeliveryId) {
    || (e.ReceivedE? && e.deliveryId == d && MessageReceived(b, host, e.socket, d, now).1 == ReportedDelivered)
    || (e.SendE? && Send(b, host, e.socket, e.to, e.message, e.deliveryId, now).1 == Replayed(Delivered(d)))
  }

  /** Both endpoints are live at the generations recorded with the delivery. */
  ghost predicate AtRecordedGenerations(b: Broker, p: Delivery) {
    && p.from in b.sessions && b.sessions[p.from].origin.Generation() == p.fromGeneration
    && p.to in b.sessions && b.sessions[p.to].origin.Generation() == p.toGeneration
  }

  lemma ReplayIsRecorded(b: Broker, host: Host, from: Id, to: string, m: Message, now: int, d: DeliveryId)
    requires CacheSound(b.recent, b.pendingKeys, b.history.accepted, b.history.delivered)
    requires Deduplicate(b, host, from, to, m, now).1 == Some(Replayed(Delivered(d)))
    ensures d in b.history.accepted && d in b.history.delivered
    ensures b.history.accepted[d].key == Key(from, m.id) && b.history.accepted[d].fingerprint == FingerprintOf(to, m)
    ensures b.history.accepted[d].from == from ==> AtRecordedGenerations(b, b.history.accepted[d])
  {
    var key := Key(from, m.id);
    assert IsAnswerTo(b.recent[key], key, b.history.accepted, b.history.delivered);
    hide IsAuthorized;
  }

  /** A delivery is reported only while both endpoints are at the generations it recorded. */
  lemma ReportIsAtRecordedGenerations(b: Broker, host: Host, e: Event, now: int, d: DeliveryId)
    requires Inv(b) && Reports(b, host, e, now, d)
    ensures d in b.history.accepted && AtRecordedGenerations(b, b.history.accepted[d])
  {
    hide TablesHold, AsksHold, Mirrors, IsAuthorized;
    if e.SendE? {
      var from := Speaker(b, e.socket, now).value;
      DeduplicateIsCalm(b, host, from, e.to, e.message, now);
      var (b', decided) := Deduplicate(b, host, from, e.to, e.message, now);
      if decided.None? { var _ := RouteMayAccept(b', host, e.socket, from, e.to, e.message, e.deliveryId, now); }
      hide Deduplicate, Route;
      ReplayIsRecorded(b, host, from, e.to, e.message, now, d);
      assert WellDescribed(b.history.accepted[d]);
    }
  }

  /** What a step newly accepts is the message it sends, at the current generations. */
  lemma AcceptanceRecordsSend(b: Broker, host: Host, e: Event, now: int, d: DeliveryId)
    requires d !in b.history.accepted && d in Step(b, host, e, now).history.accepted
    ensures e.SendE? && RecordsSend(b, e.socket, e.to, e.message, Step(b, host, e, now).history.accepted[d])
  {
    if !e.SendE? {
      OnlySendAccepts(b, host, e, now);
      assert false;
    } else {
      hide Deduplicate, Route, FingerprintOf;
      var speaker := Speaker(b, e.socket, now);
      if speaker.Some? {
        DeduplicateIsCalm(b, host, speaker.value, e.to, e.message, now);
        var (b', decided) := Deduplicate(b, host, speaker.value, e.to, e.message, now);
        if decided.None? {
          var p := RouteMayAccept(b', host, e.socket, speaker.value, e.to, e.message, e.deliveryId, now);
          hide RecordsSend;
          SameSessionsSameRecord(b', b, e.socket, e.to, e.message, p);
        }
      }
    }
  }

  lemma SameSessionsSameRecord(b: Broker, b': Broker, socket: Socket, to: string, m: Message, p: Delivery)
    requires b'.sessions == b.sessions && RecordsSend(b, socket, to, m, p)
    ensures RecordsSend(b', socket, to, m, p) && AtRecordedGenerations(b', p)
  {}

  /** The endpoint as the registry has it: at the recorded generation and active, if it is a
      principal at all. */
  lemma EndpointMatchesRegistry(b: Broker, p: Delivery, x: Id)
    requires Inv(b) && AtRecordedGenerations(b, p) && x in {p.from, p.to} && x in b.registry.principals
    ensures b.registry.principals[x].status.Active?
    ensures b.registry.principals[x].generation == if x == p.from then p.fromGeneration else p.toGeneration
  {
    hide TablesHold, RecordsHold, AsksHold;
    assert MirrorsPrincipal(x, b.sessions[x].origin, b.registry);
  }

  lemma GenerationIsSandwiched(host: Host, events: seq<Timed>, i: nat, m: nat, j: nat, x: Id)
    requires IsRun(host, events) && i <= m <= j <= |events|
    requires var first, last := Run(host, events[..i]).broker.registry, Run(host, events[..j]).broker.registry;
             && x in first.principals && x in last.principals
             && last.principals[x].status.Active? && last.principals[x].generation == first.principals[x].generation
    ensures var first, mid := Run(host, events[..i]).broker.registry, Run(host, events[..m]).broker.registry;
            && x in mid.principals && mid.principals[x].status.Active?
            && mid.principals[x].generation == first.principals[x].generation
  {
    hide Run, IsRun;
    RunsGrow(host, events, i, m);
    RunsGrow(host, events, m, j);
  }

  lemma PrincipalPersists(host: Host, events: seq<Timed>, i: nat, j: nat, x: Id)
    requires IsRun(host, events) && i <= j <= |events| && x in Run(host, events[..i]).broker.registry.principals
    ensures x in Run(host, events[..j]).broker.registry.principals
  {
    hide Run, IsRun;
    RunsGrow(host, events, i, j);
  }

  /** Between the acceptance of a delivery and any report that it was delivered, neither
      endpoint changed its generation or was revoked, not even in passing. */
  lemma ReportDoesNotStraddle(host: Host, events: seq<Timed>, i: nat, m: nat, j: nat, d: DeliveryId, x: Id)
    requires IsRun(host, events) && i <= m <= j < |events|
    requires d !in Run(host, events[..i]).broker.history.accepted
    requires d in Run(host, events[..i + 1]).broker.history.accepted
    requires Reports(Run(host, events[..j]).broker, host, events[j].event, events[j].now, d)
    requires var p := Run(host, events[..i + 1]).broker.history.accepted[d]; x in {p.from, p.to}
    requires x in Run(host, events[..i]).broker.registry.principals
    ensures var first, mid := Run(host, events[..i]).broker.registry, Run(host, events[..m]).broker.registry;
            && x in mid.principals && mid.principals[x].status.Active?
            && mid.principals[x].generation == first.principals[x].generation
  {
    hide Inv, Run, IsRun, Next, Step, Reports, AtRecordedGenerations, RegistryHolds;
    var s, t := Run(host, events[..i]), Run(host, events[..j]);
    var p := Run(host, events[..i + 1]).broker.history.accepted[d];
    StepAt(host, events, i);
    StepAt(host, events, j);
    NextBroker(s, host, events[i].event, events[i].now);
    ReachableStatesHold(host, events[..i]);
    ReachableStatesHold(host, events[..j]);
    assert events[i].event.SendE? ==> events[i].event.deliveryId !in s.broker.history.accepted;
    hide Allowed;
    AcceptanceRecordsSend(s.broker, host, events[i].event, events[i].now, d);
    SameSessionsSameRecord(s.broker, s.broker, events[i].event.socket, events[i].event.to, events[i].event.message, p);
    EndpointMatchesRegistry(s.broker, p, x);
    ReportIsAtRecordedGenerations(t.broker, host, events[j].event, events[j].now, d);
    if i < j {
      AcceptedPersists(host, events, i + 1, j, d);
      PrincipalPersists(host, events, i, j, x);
      EndpointMatchesRegistry(t.broker, p, x);
      GenerationIsSandwiched(host, events, i, m, j, x);
    } else {
      assert false;
    }
  }

  // ---------- No message is forwarded again in silence ----------

  /** The recent cache answers this key: it was delivered as `d`. */
  predicate Settled(b: Broker, k: Key, d: DeliveryId) {
    k in b.recent && !b.recent[k].retryable && b.recent[k].response == Delivered(d)
  }

  /** What may end an answer in the recent cache: it is older than its ten minutes when a
      message is sent; the message is sent again while an endpoint is absent, at another
      generation or no longer authorised; an endpoint is disconnected by a revocation, an
      adoption or an expiry; the broker restarts. */
  ghost predicate Separates(b: Broker, host: Host, e: Event, now: int, k: Key)
    requires k in b.recent
  {
    var r := b.recent[k];
    match e
    case SendE(socket, to, m, _) =>
      || r.expiresAt <= now
      || (Speaker(b, socket, now) == Some(k.from) && m.id == k.messageId &&
          !StillAuthorized(b, host, k.from, r.to, r.action, r.fromGeneration, r.toGeneration, now))
    case RestartE => true
    case _ => r.from in Transitioned(b, e, now) * b.sessions.Keys || r.to in Transitioned(b, e, now) * b.sessions.Keys
  }

  /** The cache entry of a key that is not pending survives the end of deliveries. */
  lemma FailAllKeepsEntry(b: Broker, victims: set<DeliveryId>, code: Delivery -> FailureCode, now: int, k: Key)
    requires k in b.recent && k !in b.pendingKeys
    ensures var b' := FailAll(b, victims, code, now); k in b'.recent && b'.recent[k] == b.recent[k] && k !in b'.pendingKeys
  {}

  ghost predicate SameEntry(b: Broker, b': Broker, k: Key) {
    k in b.recent && k in b'.recent && b'.recent[k] == b.recent[k]
  }

  lemma SettledIsNotPending(b: Broker, k: Key, d: DeliveryId)
    requires Inv(b) && Settled(b, k, d)
    ensures k !in b.pendingKeys
    ensures d in b.history.accepted && d in b.history.delivered && b.history.accepted[d].key == k
    ensures b.history.accepted[d].fingerprint == b.recent[k].fingerprint
  {
    hide TablesHold, AsksHold, Mirrors, Accounted;
    assert IsAnswerTo(b.recent[k], k, b.history.accepted, b.history.delivered);
  }

  lemma LeaveKeepsEntry(b: Broker, id: Id, socket: Socket, preserveAsks: bool, now: int, k: Key)
    requires k in b.recent && k !in b.pendingKeys
    ensures SameEntry(b, Leave(b, id, socket, preserveAsks, now), k)
  {
    hide FailAll;
    FailAllKeepsEntry(b, Involving(b.pending, id, socket),
      (p: Delivery) => if p.to == id && p.recipientSocket == socket then RecipientDisconnected else SenderDisconnected, now, k);
  }

  lemma RegisterKeepsEntry(b: Broker, socket: Socket, id: Id, name: Option<string>, now: int, k: Key)
    requires k in b.recent && k !in b.pendingKeys
    ensures SameEntry(b, RegisterLocal(b, socket, id, name, now), k)
  {
    hide FailAll;
    if id in b.sessions {
      var previous := b.sessions[id].socket;
      FailAllKeepsEntry(b, Involving(b.pending, id, previous),
        (p: Delivery) => if p.to == id && p.recipientSocket == previous then RecipientDisconnected else SenderDisconnected, now, k);
    }
  }

  lemma DisconnectKeepsEntry(b: Broker, changed: set<Id>, now: int, k: Key)
    requires k in b.recent && k !in b.pendingKeys
    requires b.recent[k].from !in changed * b.sessions.Keys && b.recent[k].to !in changed * b.sessions.Keys
    ensures SameEntry(b, Disconnect(b, changed, now), k)
  {
    hide FailAll;
    FailAllKeepsEntry(b, InvolvingAny(b, changed * b.sessions.Keys), _ => RecipientDisconnected, now, k);
  }

  lemma AcknowledgeKeepsEntry(b: Broker, d: DeliveryId, now: int, k: Key)
    requires k in b.recent && k !in b.pendingKeys && Indexed(b.pending, b.pendingKeys) && d in b.pending
    ensures SameEntry(b, Acknowledge(b, d, now), k)
  {
    assert b.pending[d].key in b.pendingKeys;
    hide Indexed, DropEdges;
  }

  lemma AnswerKeepsEntry(b: Broker, host: Host, e: Event, now: int, k: Key)
    requires k in b.recent && k !in b.pendingKeys && Indexed(b.pending, b.pendingKeys)
    requires IsAnswer(e)
    ensures SameEntry(b, Step(b, host, e, now), k)
  {
    hide FailAll, Acknowledge, StillAuthorized, Indexed, Speaker;
    FailAllKeepsEntry(b, {e.deliveryId}, _ => SessionNotFound, now, k);
    FailAllKeepsEntry(b, {e.deliveryId}, _ => ConflictingMessageId, now, k);
    FailAllKeepsEntry(b, {e.deliveryId}, _ => DeliveryTimeout, now, k);
    if e.deliveryId in b.pending { AcknowledgeKeepsEntry(b, e.deliveryId, now, k); }
  }

  /** A message whose key is settled is answered with the first delivery, or refused when it
      is a different message; either way nothing is forwarded. */
  lemma ResendIsAnswered(b: Broker, host: Host, from: Id, to: string, m: Message, now: int, d: DeliveryId)
    requires Inv(b) && Settled(b, Key(from, m.id), d) && b.recent[Key(from, m.id)].expiresAt > now
    requires var r := b.recent[Key(from, m.id)];
             StillAuthorized(b, host, from, r.to, r.action, r.fromGeneration, r.toGeneration, now)
    ensures d in b.history.accepted
    ensures Deduplicate(b, host, from, to, m, now) == (Prune(b, now),
      if FingerprintOf(to, m) == b.history.accepted[d].fingerprint then Some(Replayed(Delivered(d))) else Some(Refused(DuplicateMessageId)))
  {
    SettledIsNotPending(b, Key(from, m.id), d);
    hide Inv, IsAuthorized;
  }

  lemma OtherSendKeepsEntry(b: Broker, host: Host, from: Id, to: string, m: Message, now: int, k: Key)
    requires k in b.recent && k !in b.pendingKeys && b.recent[k].expiresAt > now && k != Key(from, m.id)
    ensures SameEntry(b, Deduplicate(b, host, from, to, m, now).0, k)
    ensures k !in Deduplicate(b, host, from, to, m, now).0.pendingKeys
  {
    hide FailAll, StillAuthorized, RecentHolds;
    var key := Key(from, m.id);
    var cleared := Prune(b, now).(recent := Prune(b, now).recent - {key});
    if key in b.pendingKeys { FailAllKeepsEntry(cleared, {b.pendingKeys[key]}, _ => SessionNotFound, now, k); }
  }

  lemma SendKeepsSettled(b: Broker, host: Host, e: Event, now: int, k: Key, d: DeliveryId)
    requires Inv(b) && Settled(b, k, d) && e.SendE? && !Separates(b, host, e, now, k)
    ensures Settled(Step(b, host, e, now), k, d)
  {
    hide Inv, Deduplicate, Route, StillAuthorized;
    SettledIsNotPending(b, k, d);
    var speaker := Speaker(b, e.socket, now);
    if speaker.Some? {
      var from := speaker.value;
      DeduplicateIsCalm(b, host, from, e.to, e.message, now);
      var (b', decided) := Deduplicate(b, host, from, e.to, e.message, now);
      if k == Key(from, e.message.id) {
        ResendIsAnswered(b, host, from, e.to, e.message, now, d);
      } else {
        OtherSendKeepsEntry(b, host, from, e.to, e.message, now, k);
        if decided.None? { RouteOnlyAccepts(b', host, e.socket, from, e.to, e.message, e.deliveryId, now); }
      }
    }
  }

  lemma TransitionKeepsEntry(b: Broker, host: Host, e: Event, now: int, k: Key)
    requires k in b.recent && k !in b.pendingKeys && IsTransition(e) && !Separates(b, host, e, now, k)
    ensures SameEntry(b, Step(b, host, e, now), k)
  {
    hide Step, Disconnect, Transitioned;
    var registry := TransitionDisconnects(b, host, e, now);
    DisconnectKeepsEntry(b, Transitioned(b, e, now), now, k);
  }

  lemma LeavingKeepsEntry(b: Broker, e: Event, now: int, k: Key)
    requires k in b.recent && k !in b.pendingKeys
    ensures e.UnregisterE? ==> SameEntry(b, Unregister(b, e.socket, e.preserveAsks, now), k)
    ensures e.CloseE? ==> SameEntry(b, Close(b, e.socket, now), k)
  {
    hide Leave, Validate;
    if e.UnregisterE? {
      var speaker := Speaker(b, e.socket, now);
      if speaker.Some? { LeaveKeepsEntry(b, speaker.value, e.socket, e.preserveAsks, now, k); }
    } else if e.CloseE? && e.socket in b.connections && b.connections[e.socket].sessionId.Some? {
      LeaveKeepsEntry(b, b.connections[e.socket].sessionId.value, e.socket, true, now, k);
    }
  }

  lemma OrdinaryStepKeepsEntry(b: Broker, host: Host, e: Event, now: int, k: Key)
    requires k in b.recent && k !in b.pendingKeys
    requires !IsTransition(e) && !e.SendE? && !e.RestartE? && !IsAnswer(e)
    ensures SameEntry(b, Step(b, host, e, now), k)
  {
    hide RegisterLocal, RegisterRemote, Unregister, Close, Rename, Speaker, DropEdges, IssueDirect, IssueDelegated;
    IssuingLeavesAlone(b, e, now);
    match e
    case RegisterLocalE(socket, id, name) => RegisterKeepsEntry(b, socket, id, name, now, k);
    case RegisterRemoteE(socket, access, id, credential) => RegisterRemoteLeavesAlone(b, socket, access, now, id, credential);
    case UnregisterE(_, _) => LeavingKeepsEntry(b, e, now, k);
    case CloseE(_) => LeavingKeepsEntry(b, e, now, k);
    case RenameE(socket, newName) => RenameIsSmall(b, socket, newName, now);
    case CancelAskE(socket, messageId) => DroppingKeepsRecent(b);
    case AskExpiryE(key) => DroppingKeepsRecent(b);
    case _ =>
  }

  lemma IssuingLeavesAlone(b: Broker, e: Event, now: int)
    ensures e.IssueDirectE? ==>
      var b' := IssueDirect(b, e.parent, e.root, e.host, e.child, e.ttlMs, now, e.token); b'.recent == b.recent && b'.edges == b.edges
    ensures e.IssueDelegatedE? ==>
      var b' := IssueDelegated(b, e.parent, e.generation, e.credential, e.allowed, e.child, e.ttlMs, now, e.token);
      b'.recent == b.recent && b'.edges == b.edges
  {
    hide Issue, IssueChild, Authenticate;
  }

  lemma DroppingKeepsRecent(b: Broker)
    ensures forall keys :: DropEdges(b, keys).recent == b.recent
  {}

  lemma RestartSeparates(b: Broker, host: Host, e: Event, now: int, k: Key)
    requires k in b.recent && !Separates(b, host, e, now, k)
    ensures !e.RestartE?
  {
    hide StillAuthorized, Transitioned;
  }

  lemma SettledStaysUntilSeparated(b: Broker, host: Host, e: Event, now: int, k: Key, d: DeliveryId)
    requires Inv(b) && Settled(b, k, d) && !Separates(b, host, e, now, k)
    ensures Settled(Step(b, host, e, now), k, d)
  {
    hide Inv, Step, Separates;
    SettledIsNotPending(b, k, d);
    TablesOf(b);
    RestartSeparates(b, host, e, now, k);
    hide Indexed;
    if e.SendE? { SendKeepsSettled(b, host, e, now, k, d); }
    else if IsTransition(e) { TransitionKeepsEntry(b, host, e, now, k); }
    else if IsAnswer(e) { AnswerKeepsEntry(b, host, e, now, k); }
    else { OrdinaryStepKeepsEntry(b, host, e, now, k); }
  }

  /** The step acknowledges delivery `d` of message `k`. */
  ghost predicate Acks(b: Broker, host: Host, e: Event, now: int, k: Key, d: DeliveryId) {
    && e.ReceivedE? && e.deliveryId == d && d in b.pending && b.pending[d].key == k
    && MessageReceived(b, host, e.socket, d, now).1 == ReportedDelivered
  }

  lemma AckSettles(b: Broker, host: Host, e: Event, now: int, k: Key, d: DeliveryId)
    requires Acks(b, host, e, now, k, d)
    ensures Settled(Step(b, host, e, now), k, d)
  {
    hide StillAuthorized;
  }

  ghost predicate SeparatedBetween(host: Host, events: seq<Timed>, i: nat, j: nat, k: Key)
    requires i <= j <= |events|
  {
    exists m :: i < m < j && k in Run(host, events[..m]).broker.recent &&
      Separates(Run(host, events[..m]).broker, host, events[m].event, events[m].now, k)
  }

  lemma {:induction false} SettledInRun(host: Host, events: seq<Timed>, i: nat, j: nat, k: Key, d: DeliveryId)
    requires IsRun(host, events) && i < j <= |events|
    requires Acks(Run(host, events[..i]).broker, host, events[i].event, events[i].now, k, d)
    requires !SeparatedBetween(host, events, i, j, k)
    ensures Settled(Run(host, events[..j]).broker, k, d)
    decreases j
  {
    hide Step, Separates, Acks, Inv, RegistryHolds, IsRun, Allowed, Run, Next, Settled, SeparatedBetween;
    StepAt(host, events, j - 1);
    NextBroker(Run(host, events[..j - 1]), host, events[j - 1].event, events[j - 1].now);
    if j == i + 1 {
      AckSettles(Run(host, events[..i]).broker, host, events[i].event, events[i].now, k, d);
    } else {
      NotSeparatedAt(host, events, i, j, k);
      SettledInRun(host, events, i, j - 1, k, d);
      SettledIsCached(Run(host, events[..j - 1]).broker, k, d);
      ReachableStatesHold(host, events[..j - 1]);
      SettledStaysUntilSeparated(Run(host, events[..j - 1]).broker, host, events[j - 1].event, events[j - 1].now, k, d);
    }
  }

  lemma SettledIsCached(b: Broker, k: Key, d: DeliveryId)
    requires Settled(b, k, d)
    ensures k in b.recent
  {}

  lemma NotSeparatedAt(host: Host, events: seq<Timed>, i: nat, j: nat, k: Key)
    requires i + 1 < j <= |events| && !SeparatedBetween(host, events, i, j, k)
    ensures !SeparatedBetween(host, events, i, j - 1, k)
    ensures var b := Run(host, events[..j - 1]).broker;
            k in b.recent ==> !Separates(b, host, events[j - 1].event, events[j - 1].now, k)
  {
    hide Separates, Run;
  }

  /** Two acknowledged deliveries of one message of one sender are always separated. */
  lemma NoSilentSecondDelivery(host: Host, events: seq<Timed>, i: nat, j: nat, k: Key, d: DeliveryId, d': DeliveryId)
    requires IsRun(host, events) && i < j < |events|
    requires Acks(Run(host, events[..i]).broker, host, events[i].event, events[i].now, k, d)
    requires Acks(Run(host, events[..j]).broker, host, events[j].event, events[j].now, k, d')
    ensures SeparatedBetween(host, events, i, j, k)
  {
    var b := Run(host, events[..j]).broker;
    PrefixIsRun(host, events, j);
    ReachableStatesHold(host, events[..j]);
    TablesOf(b);
    assert k in b.pendingKeys;
    hide Inv, Separates, Run, IsRun;
    if !SeparatedBetween(host, events, i, j, k) {
      SettledInRun(host, events, i, j, k, d);
      SettledIsNotPending(b, k, d);
    }
  }

  /** Until then, sending the message again neither accepts nor forwards anything: the answer is
      the first delivery, or a refusal when it is a different message under the same id. */
  lemma ResendIsNotForwarded(host: Host, events: seq<Timed>, i: nat, j: nat, k: Key, d: DeliveryId)
    requires IsRun(host, events) && i < j < |events|
    requires Acks(Run(host, events[..i]).broker, host, events[i].event, events[i].now, k, d)
    requires !SeparatedBetween(host, events, i, j + 1, k)
    requires var b, e := Run(host, events[..j]).broker, events[j].event;
             e.SendE? && Speaker(b, e.socket, events[j].now) == Some(k.from) && e.message.id == k.messageId
    ensures var b, e := Run(host, events[..j]).broker, events[j].event;
            var (b', outcome) := Send(b, host, e.socket, e.to, e.message, e.deliveryId, events[j].now);
            && d in b.history.accepted
            && outcome == (if FingerprintOf(e.to, e.message) == b.history.accepted[d].fingerprint then Replayed(Delivered(d))
                           else Refused(DuplicateMessageId))
            && b'.pending == b.pending && b'.history == b.history && b'.edges == b.edges
  {
    var b, e, now := Run(host, events[..j]).broker, events[j].event, events[j].now;
    assert !SeparatedBetween(host, events, i, j, k);
    SettledInRun(host, events, i, j, k, d);
    PrefixIsRun(host, events, j);
    ReachableStatesHold(host, events[..j]);
    assert !Separates(b, host, e, now, k);
    hide Inv, Deduplicate, Route, StillAuthorized;
    ResendIsAnswered(b, host, k.from, e.to, e.message, now, d);
  }
}
