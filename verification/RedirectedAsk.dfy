/** How an ask comes to be redirected: a run in which the session that was asked goes away, another
    takes its name, and the asker, which never heard that its ask was delivered, sends it again. */
module RedirectedAsk {

  import opened Wrappers
  import opened Messages
  import opened Forest
  import RegistryModel
  import opened BrokerModel
  import Sets
  import BrokerInvariant
  import BrokerSteps
  import BrokerRuns
  import DeliveryTheorems
  import AskTheorems
  import InboundModel
  import RuntimeModel
  import ClientModel
  import opened EndToEnd
  import opened PlainDelivery

  /** The tables that matter here. */
  ghost predicate Looks(b: Broker, connections: map<Socket, Connection>, sessions: map<Id, Session>, edges: map<Key, AskEdge>,
                        recent: map<Key, Recent>) {
    && b.registry == RegistryModel.EMPTY && b.connections == connections && b.sessions == sessions
    && b.edges == edges && b.recent == recent && b.pending == map[] && b.pendingKeys == map[]
  }

  // ---------- Single steps ----------

  lemma SendIsPermitted(b: Broker, host: Host, socket: Socket, from: Id, to: string, m: Message, d: DeliveryId, now: int, target: Id)
    requires b.recent == map[] && Speaker(b, socket, now) == Some(from) && Key(from, m.id) !in b.pendingKeys
    requires target in b.sessions && DeliveryTheorems.Permits(b, host, socket, from, to, m, target, now)
    ensures from in b.sessions
    ensures Send(b, host, socket, to, m, d, now) ==
            (Accept(b, host, d, DeliveryFor(b, socket, from, target, to, m), now), Accepted(d, target))
  {
    assert Deduplicate(b, host, from, to, m, now) == (b, None) by {
      assert Prune(b, now) == b && b.recent - {Key(from, m.id)} == b.recent;
    }
    hide Deduplicate, Targets, AskRefusal, PendingFrom, Accept;
    DeliveryTheorems.OnlyOfOne({target}, target);
  }

  lemma NobodyFails(b: Broker, victims: set<DeliveryId>, code: Delivery -> FailureCode, now: int)
    requires b.pendingKeys == map[]
    ensures Failing(b, victims) == {} && FailingAsks(b, victims) == {} && FailureAnswers(b, victims, code, now) == map[]
  {}

  lemma NothingFails(b: Broker, victims: set<DeliveryId>, code: Delivery -> FailureCode, now: int)
    requires b.pending == map[] && b.pendingKeys == map[]
    ensures var b' := FailAll(b, victims, code, now);
            && b'.registry == b.registry && b'.connections == b.connections && b'.sessions == b.sessions && b'.edges == b.edges
            && b'.recent == b.recent && b'.pending == map[] && b'.pendingKeys == map[]
  {
    NobodyFails(b, victims, code, now);
    hide Failing, FailingAsks, FailureAnswers;
    assert b.edges - {} == b.edges && b.recent + map[] == b.recent;
  }

  lemma OnlyEdgeIsDeferred(b: Broker, id: Id, k: Key, e: AskEdge)
    requires b.edges == map[k := e] && id in {e.from, e.to}
    ensures DeferEdgesOf(b, id).edges == map[k := e.(state := Deferred)]
  {}

  /** A session whose deliveries are all over closes its connection. */
  lemma IdleCloses(b: Broker, socket: Socket, id: Id)
    requires b.pending == map[] && b.pendingKeys == map[]
    requires socket in b.connections && b.connections[socket].sessionId == Some(id) && id in b.sessions && b.sessions[id].socket == socket
    ensures var b' := Close(b, socket, 0);
            && b'.registry == b.registry && b'.connections == b.connections - {socket} && b'.sessions == b.sessions - {id}
            && b'.recent == b.recent && b'.pending == map[] && b'.pendingKeys == map[] && b'.edges == DeferEdgesOf(b, id).edges
  {
    hide FailAll, Involving;
    NothingFails(b, Involving(b.pending, id, socket),
      (p: Delivery) => if p.to == id && p.recipientSocket == socket then RecipientDisconnected else SenderDisconnected, 0);
  }

  // ---------- The story ----------

  /** Who asks whom, over which sockets. */
  datatype Cast = Cast(asker: Id, first: Id, second: Id, askerSocket: Socket, firstSocket: Socket, secondSocket: Socket, newSocket: Socket,
                       name: string, ask: Message)

  predicate IsCast(x: Cast) {
    && x.asker != x.first && x.asker != x.second && x.first != x.second
    && x.name != x.asker && x.name != x.first && x.name != x.second
    && x.askerSocket != x.firstSocket && x.askerSocket != x.secondSocket && x.askerSocket != x.newSocket
    && x.firstSocket != x.secondSocket && x.firstSocket != x.newSocket && x.secondSocket != x.newSocket
    && x.ask.IsAsk() && x.ask.replyTo.None?
  }

  function KeyOf(x: Cast): Key {
    Key(x.asker, x.ask.id)
  }

  function EdgeOf(x: Cast, host: Host, state: EdgeState): AskEdge {
    AskEdge(x.ask.id, x.asker, x.first, 0, host.askTimeoutMs, state)
  }

  /** Both are registered, the first under its name. */
  function Introduced(x: Cast): Broker {
    Ready(x.asker, x.first, x.askerSocket, x.firstSocket).(
      sessions := map[x.asker := Session(x.askerSocket, None, Local), x.first := Session(x.firstSocket, Some(x.name), Local)])
  }

  function FirstDelivery(x: Cast): Delivery {
    Delivery(KeyOf(x), FingerprintOf(x.name, x.ask), x.ask, x.asker, x.first, x.askerSocket, x.firstSocket, AskAction, 1, 1)
  }

  function FinalAnswer(x: Cast, d: DeliveryId): Recent {
    Answer(FirstDelivery(x), false, Delivered(d), 0)
  }

  lemma FirstTakesName(x: Cast)
    requires IsCast(x)
    ensures Rename(Ready(x.asker, x.first, x.askerSocket, x.firstSocket), x.firstSocket, x.name, 0) == Introduced(x)
  {}

  lemma NamedIsFound(x: Cast, b: Broker, host: Host, id: Id, socket: Socket)
    requires x.name !in b.sessions && id in b.sessions && x.asker in b.sessions && b.sessions.Keys == {x.asker, id} && id != x.asker
    requires b.sessions[id] == Session(socket, Some(x.name), Local)
    requires b.sessions[x.asker].name.None? && b.sessions[x.asker].origin.Local?
    requires host.authorize(map[x.asker := Local, id := Local], x.asker, AskAction, id)
    ensures Targets(b, host, x.asker, x.name, AskAction, 0) == {id}
  {
    assert (map x | x in b.sessions :: b.sessions[x].origin) == map[x.asker := Local, id := Local];
    var byName := set y | y in b.sessions && b.sessions[y].name.Some? && host.lower(b.sessions[y].name.value) == host.lower(x.name);
    assert id in byName && x.asker !in byName;
    assert byName == {id} && FindSessions(b, host, x.name) == byName;
    hide FindSessions;
  }

  /** The ask is accepted for the first. */
  lemma FirstIsAsked(x: Cast, host: Host, d: DeliveryId)
    requires IsCast(x) && host.authorize(map[x.asker := Local, x.first := Local], x.asker, AskAction, x.first)
    ensures Send(Introduced(x), host, x.askerSocket, x.name, x.ask, d, 0) ==
            (Accept(Introduced(x), host, d, FirstDelivery(x), 0), Accepted(d, x.first))
  {
    var b := Introduced(x);
    NamedIsFound(x, b, host, x.first, x.firstSocket);
    NothingRefused(x.asker, x.first, x.ask);
    assert PendingFrom(b.pending, x.asker) == {};
    hide Targets, AskRefusal, PendingFrom, Accept, Send;
    SendIsPermitted(b, host, x.askerSocket, x.asker, x.name, x.ask, d, 0, x.first);
  }

  lemma FirstMayAcknowledge(x: Cast, host: Host, d: DeliveryId)
    requires IsCast(x) && host.authorize(map[x.asker := Local, x.first := Local], x.asker, AskAction, x.first)
    ensures var b := Accept(Introduced(x), host, d, FirstDelivery(x), 0);
            && b == Introduced(x).(pending := map[d := FirstDelivery(x)], pendingKeys := map[KeyOf(x) := d], edges := b.edges, disk := b.disk, history := b.history)
            && b.edges == map[KeyOf(x) := EdgeOf(x, host, Blocking)]
            && Speaker(b, x.firstSocket, 0) == Some(x.first) && StillAuthorized(b, host, x.asker, x.first, AskAction, 1, 1, 0)
  {
    var b := Accept(Introduced(x), host, d, FirstDelivery(x), 0);
    assert (map id | id in b.sessions :: b.sessions[id].origin) == map[x.asker := Local, x.first := Local];
  }

  /** The first acknowledges it. */
  lemma FirstAcknowledges(x: Cast, host: Host, d: DeliveryId)
    requires IsCast(x) && host.authorize(map[x.asker := Local, x.first := Local], x.asker, AskAction, x.first)
    ensures Looks(MessageReceived(Accept(Introduced(x), host, d, FirstDelivery(x), 0), host, x.firstSocket, d, 0).0,
                  Introduced(x).connections, Introduced(x).sessions, map[KeyOf(x) := EdgeOf(x, host, Blocking)], map[KeyOf(x) := FinalAnswer(x, d)])
  {
    hide Accept, StillAuthorized, Speaker, FailDelivery;
    FirstMayAcknowledge(x, host, d);
    var b := Accept(Introduced(x), host, d, FirstDelivery(x), 0);
    assert b.pending - {d} == map[] && b.pendingKeys - {KeyOf(x)} == map[];
  }

  lemma FirstLeaves(x: Cast, host: Host, d: DeliveryId, b: Broker)
    requires IsCast(x)
    requires Looks(b, Introduced(x).connections, Introduced(x).sessions, map[KeyOf(x) := EdgeOf(x, host, Blocking)], map[KeyOf(x) := FinalAnswer(x, d)])
    ensures Looks(Close(b, x.firstSocket, 0), map[x.askerSocket := Connection(false, Some(x.asker))],
                  map[x.asker := Session(x.askerSocket, None, Local)],
                  map[KeyOf(x) := EdgeOf(x, host, Deferred)], map[KeyOf(x) := FinalAnswer(x, d)])
  {
    hide Close, DeferEdgesOf;
    IdleCloses(b, x.firstSocket, x.first);
    OnlyEdgeIsDeferred(b, x.first, KeyOf(x), EdgeOf(x, host, Blocking));
  }

  /** The second comes under the same name. */
  lemma SecondComes(x: Cast, host: Host, d: DeliveryId, b: Broker)
    requires IsCast(x)
    requires Looks(b, map[x.askerSocket := Connection(false, Some(x.asker))], map[x.asker := Session(x.askerSocket, None, Local)],
                   map[KeyOf(x) := EdgeOf(x, host, Deferred)], map[KeyOf(x) := FinalAnswer(x, d)])
    ensures Looks(RegisterLocal(Connect(b, x.secondSocket, false), x.secondSocket, x.second, Some(x.name), 0),
                  map[x.askerSocket := Connection(false, Some(x.asker)), x.secondSocket := Connection(false, Some(x.second))],
                  map[x.asker := Session(x.askerSocket, None, Local), x.second := Session(x.secondSocket, Some(x.name), Local)],
                  map[KeyOf(x) := EdgeOf(x, host, Deferred)], map[KeyOf(x) := FinalAnswer(x, d)])
  {
    assert |b.sessions| == |map[x.asker := Session(x.askerSocket, None, Local)]| == 1;
    RegisterNew(Connect(b, x.secondSocket, false), x.secondSocket, x.second, Some(x.name));
    hide RegisterLocal;
  }

  lemma AskerLeaves(x: Cast, host: Host, d: DeliveryId, b: Broker)
    requires IsCast(x)
    requires Looks(b, map[x.askerSocket := Connection(false, Some(x.asker)), x.secondSocket := Connection(false, Some(x.second))],
                   map[x.asker := Session(x.askerSocket, None, Local), x.second := Session(x.secondSocket, Some(x.name), Local)],
                   map[KeyOf(x) := EdgeOf(x, host, Deferred)], map[KeyOf(x) := FinalAnswer(x, d)])
    ensures Looks(Close(b, x.askerSocket, 0), map[x.secondSocket := Connection(false, Some(x.second))],
                  map[x.second := Session(x.secondSocket, Some(x.name), Local)],
                  map[KeyOf(x) := EdgeOf(x, host, Deferred)], map[KeyOf(x) := FinalAnswer(x, d)])
  {
    hide Close, DeferEdgesOf;
    IdleCloses(b, x.askerSocket, x.asker);
    OnlyEdgeIsDeferred(b, x.asker, KeyOf(x), EdgeOf(x, host, Deferred));
  }

  /** The asker is back on a new socket, the second has the name. */
  ghost predicate Replaced(x: Cast, host: Host, d: DeliveryId, b: Broker) {
    Looks(b, map[x.secondSocket := Connection(false, Some(x.second)), x.newSocket := Connection(false, Some(x.asker))],
          map[x.second := Session(x.secondSocket, Some(x.name), Local), x.asker := Session(x.newSocket, None, Local)],
          map[KeyOf(x) := EdgeOf(x, host, Deferred)], map[KeyOf(x) := FinalAnswer(x, d)])
  }

  lemma AskerReturns(x: Cast, host: Host, d: DeliveryId, b: Broker)
    requires IsCast(x)
    requires Looks(b, map[x.secondSocket := Connection(false, Some(x.second))], map[x.second := Session(x.secondSocket, Some(x.name), Local)],
                   map[KeyOf(x) := EdgeOf(x, host, Deferred)], map[KeyOf(x) := FinalAnswer(x, d)])
    ensures Replaced(x, host, d, RegisterLocal(Connect(b, x.newSocket, false), x.newSocket, x.asker, None, 0))
  {
    assert |b.sessions| == |map[x.second := Session(x.secondSocket, Some(x.name), Local)]| == 1;
    RegisterNew(Connect(b, x.newSocket, false), x.newSocket, x.asker, None);
    hide RegisterLocal;
  }

  lemma SecondMayBeAsked(x: Cast, host: Host, b: Broker)
    requires IsCast(x) && b.edges == map[KeyOf(x) := EdgeOf(x, host, Deferred)]
    ensures AskRefusal(b.edges, x.asker, x.second, x.ask).None?
  {
    Sets.SubsetIsSmaller(EdgesFrom(b.edges, x.asker), {KeyOf(x)});
  }

  /** What is sent now goes to the second. */
  lemma SendingAgainRedirects(x: Cast, host: Host, d: DeliveryId, again: DeliveryId, b: Broker)
    requires IsCast(x) && Replaced(x, host, d, b) && host.authorize(map[x.asker := Local, x.second := Local], x.asker, AskAction, x.second)
    ensures KeyOf(x) in b.edges && b.edges[KeyOf(x)].to == x.first
    ensures AskTheorems.Redirects(b, host, BrokerSteps.SendE(x.newSocket, x.name, x.ask, again), 0, KeyOf(x))
  {
    NamedIsFound(x, b, host, x.second, x.secondSocket);
    SecondMayBeAsked(x, host, b);
    assert PendingFrom(b.pending, x.asker) == {};
    assert Speaker(b, x.newSocket, 0) == Some(x.asker);
    assert DeliveryTheorems.Unanswered(b, host, x.asker, x.name, x.ask, 0);
    hide Targets, AskRefusal, PendingFrom, Speaker, DeliveryTheorems.Unanswered;
    assert DeliveryTheorems.Permits(b, host, x.newSocket, x.asker, x.name, x.ask, x.second, 0);
  }

  // ---------- The run ----------

  /** The client of the asker still has the ask queued. */
  predicate StillQueued(x: Cast, c: ClientModel.Client) {
    c.outboxOf == Some(x.asker) && ClientModel.Outbox(c) == [ClientModel.Queued(x.name, x.ask, 0)]
  }

  lemma Arrives(at: Setting, events: seq<Timed>, t: Socket, d: DeliveryId, peer: InboundModel.Peer) returns (longer: seq<Timed>)
    requires IsRun(at, events) && Run(at, events).receivers == map[] && Wire(t, d) in Run(at, events).forwarded
    requires var accepted := Run(at, events).system.broker.history.accepted; d in accepted && accepted[d].message.replyTo.None?
    ensures IsRun(at, longer)
    ensures var w, w' := Run(at, events), Run(at, longer);
            w'.system == w.system && w'.senders == w.senders && w'.written == w.written && Wire(t, d) in w'.acknowledged
  {
    hide IsRun, Run, RuntimeModel.Arrive, RuntimeModel.Durable;
    longer := events + [Timed(ArriveE(t, d, peer), 0)];
    Extend(at, events, ArriveE(t, d, peer));
    EmptyReceiverStores(at, Run(at, events), ArriveE(t, d, peer));
  }

  lemma FirstIsForwarded(x: Cast, host: Host, d: DeliveryId)
    ensures var h, later := Introduced(x).history, Accept(Introduced(x), host, d, FirstDelivery(x), 0).history;
            Wire(x.firstSocket, d) in Forwarded(h, later) && later.accepted == map[d := FirstDelivery(x)]
  {
    var later := Accept(Introduced(x), host, d, FirstDelivery(x), 0).history;
    assert later.accepted == map[d := FirstDelivery(x)];
    assert Wire(later.accepted[d].recipientSocket, d) in Forwarded(Introduced(x).history, later);
  }

  /** The ask is queued, sent, accepted, stored and acknowledged; the asker does not hear of it. */
  lemma AskIsDelivered(at: Setting, x: Cast, d: DeliveryId, peer: InboundModel.Peer) returns (events: seq<Timed>)
    requires IsCast(x) && at.host.authorize(map[x.asker := Local, x.first := Local], x.asker, AskAction, x.first)
    ensures IsRun(at, events)
    ensures var w := Run(at, events);
            && Looks(w.system.broker, Introduced(x).connections, Introduced(x).sessions,
                     map[KeyOf(x) := EdgeOf(x, at.host, Blocking)], map[KeyOf(x) := FinalAnswer(x, d)])
            && w.system.broker.history.accepted == map[d := FirstDelivery(x)] && w.system.now == 0
            && StillQueued(x, Sender(w, at.home(x.askerSocket)))
  {
    hide IsRun, Run, Send, Accept, MessageReceived, Rename, ReportsOf, Forwarded, ClientModel.Outbox, Looks;
    events := SetUp(at, x.asker, x.first, x.askerSocket, x.firstSocket);
    FirstTakesName(x);
    events := BrokerStep(at, events, BrokerSteps.RenameE(x.firstSocket, x.name));
    events := ClientSends(at, events, x.asker, x.name, x.askerSocket, x.ask);
    FirstIsAsked(x, at.host, d);
    FirstIsForwarded(x, at.host, d);
    events := BrokerStep(at, events, BrokerSteps.SendE(x.askerSocket, x.name, x.ask, d));
    events := Arrives(at, events, x.firstSocket, d, peer);
    FirstAcknowledges(x, at.host, d);
    events := BrokerStep(at, events, BrokerSteps.ReceivedE(x.firstSocket, d));
  }

  /** The first leaves and the second takes its name. */
  lemma NameChangesHands(at: Setting, events: seq<Timed>, x: Cast, d: DeliveryId) returns (longer: seq<Timed>)
    requires IsCast(x) && IsRun(at, events) && Run(at, events).system.now == 0
    requires Looks(Run(at, events).system.broker, Introduced(x).connections, Introduced(x).sessions,
                   map[KeyOf(x) := EdgeOf(x, at.host, Blocking)], map[KeyOf(x) := FinalAnswer(x, d)])
    ensures IsRun(at, longer)
    ensures var w, w' := Run(at, events), Run(at, longer);
            && Looks(w'.system.broker,
                     map[x.askerSocket := Connection(false, Some(x.asker)), x.secondSocket := Connection(false, Some(x.second))],
                     map[x.asker := Session(x.askerSocket, None, Local), x.second := Session(x.secondSocket, Some(x.name), Local)],
                     map[KeyOf(x) := EdgeOf(x, at.host, Deferred)], map[KeyOf(x) := FinalAnswer(x, d)])
            && w'.system.broker.history.accepted == w.system.broker.history.accepted && w'.system.now == 0 && w'.senders == w.senders
  {
    hide IsRun, Run, Close, RegisterLocal, ReportsOf, Forwarded;
    FirstLeaves(x, at.host, d, Run(at, events).system.broker);
    longer := BrokerStep(at, events, BrokerSteps.CloseE(x.firstSocket));
    SecondComes(x, at.host, d, Run(at, longer).system.broker);
    longer := BrokerStep(at, longer, BrokerSteps.ConnectE(x.secondSocket, false));
    longer := BrokerStep(at, longer, BrokerSteps.RegisterLocalE(x.secondSocket, x.second, Some(x.name)));
  }

  lemma QueueIsReplayed(x: Cast, c: ClientModel.Client)
    requires StillQueued(x, c)
    ensures var idle := ClientModel.Step(ClientModel.Step(c, ClientModel.ClosedE), ClientModel.ConnectE);
            Written(x.newSocket, x.name, x.ask) in WrittenBy(idle, x.newSocket, ClientModel.RegisteredE(x.asker, 1))
  {
    var idle := ClientModel.Step(ClientModel.Step(c, ClientModel.ClosedE), ClientModel.ConnectE);
    var q := ClientModel.Queued(x.name, x.ask, 0);
    assert ClientModel.OnFile(idle, x.asker) == [q];
    ClientModel.ReplayOfIdle(idle.(sessionId := Some(x.asker), outboxOf := Some(x.asker)), [q], 1);
    assert q in ClientModel.Registered(idle, x.asker, 1).1;
  }

  /** The asker's connection breaks; it comes back on a new one and writes its queue again. */
  lemma AskerSendsAgain(at: Setting, events: seq<Timed>, x: Cast, d: DeliveryId) returns (longer: seq<Timed>)
    requires IsCast(x) && at.home(x.newSocket) == at.home(x.askerSocket) && IsRun(at, events) && Run(at, events).system.now == 0
    requires StillQueued(x, Sender(Run(at, events), at.home(x.askerSocket)))
    requires Looks(Run(at, events).system.broker,
                   map[x.askerSocket := Connection(false, Some(x.asker)), x.secondSocket := Connection(false, Some(x.second))],
                   map[x.asker := Session(x.askerSocket, None, Local), x.second := Session(x.secondSocket, Some(x.name), Local)],
                   map[KeyOf(x) := EdgeOf(x, at.host, Deferred)], map[KeyOf(x) := FinalAnswer(x, d)])
    ensures IsRun(at, longer)
    ensures var w, w' := Run(at, events), Run(at, longer);
            && Replaced(x, at.host, d, w'.system.broker) && Written(x.newSocket, x.name, x.ask) in w'.written
            && w'.system.broker.history.accepted == w.system.broker.history.accepted && w'.system.now == 0
  {
    hide IsRun, Run, Close, RegisterLocal, ReportsOf, Forwarded, ClientModel.Step, WrittenBy, StillQueued, Replaced;
    AskerLeaves(x, at.host, d, Run(at, events).system.broker);
    longer := BrokerStep(at, events, BrokerSteps.CloseE(x.askerSocket));
    AskerReturns(x, at.host, d, Run(at, longer).system.broker);
    longer := BrokerStep(at, longer, BrokerSteps.ConnectE(x.newSocket, false));
    longer := BrokerStep(at, longer, BrokerSteps.RegisterLocalE(x.newSocket, x.asker, None));
    QueueIsReplayed(x, Sender(Run(at, longer), at.home(x.newSocket)));
    longer := ClientStep(at, longer, x.newSocket, ClientModel.ClosedE);
    longer := ClientStep(at, longer, x.newSocket, ClientModel.ConnectE);
    longer := ClientStep(at, longer, x.newSocket, ClientModel.RegisteredE(x.asker, 1));
  }

  /** For every such cast there is a run of senders, broker and receivers whose last step takes an
      ask away for none of the other reasons: the session it was put to had acknowledged it, and
      now the ask is put to another. */
  lemma AcknowledgedAskIsRedirected(at: Setting, x: Cast, d: DeliveryId, again: DeliveryId, peer: InboundModel.Peer)
    returns (events: seq<Timed>, sent: nat)
    requires IsCast(x) && d != again && at.home(x.newSocket) == at.home(x.askerSocket)
    requires at.host.authorize(map[x.asker := Local, x.first := Local], x.asker, AskAction, x.first)
    requires at.host.authorize(map[x.asker := Local, x.second := Local], x.asker, AskAction, x.second)
    ensures IsRun(at, events) && sent < |events| && IsRun(at, events[..sent]) && sent + 1 == |events|
    ensures var e := BrokerSteps.SendE(x.newSocket, x.name, x.ask, again);
            var b, b' := Run(at, events[..sent]).system.broker, Run(at, events).system.broker;
            && events[sent] == Timed(BrokerE(e), 0) && b' == BrokerSteps.Step(b, at.host, e, 0)
            && d in b.history.delivered && KeyOf(x) in b.edges && b.edges[KeyOf(x)].to == x.first
            && AskTheorems.Redirects(b, at.host, e, 0, KeyOf(x))
            && !AskTheorems.Stays(b, b', KeyOf(x)) && !AskTheorems.MayEnd(b, e, 0, KeyOf(x), b'.history)
  {
    hide IsRun, Run, Send, ReportsOf, Forwarded, Replaced, Looks, StillQueued, AskTheorems.Redirects, AskTheorems.Stays, AskTheorems.MayEnd,
      BrokerInvariant.Inv, BrokerHolds;
    events := AskIsDelivered(at, x, d, peer);
    events := NameChangesHands(at, events, x, d);
    events := AskerSendsAgain(at, events, x, d);
    sent := |events|;
    var before := events;
    var b, e := Run(at, events).system.broker, BrokerSteps.SendE(x.newSocket, x.name, x.ask, again);
    RunsAreSafe(at, events);
    InvOf(Run(at, events), at);
    AnswerWasDelivered(x, at.host, d, b);
    SendingAgainRedirects(x, at.host, d, again, b);
    AskTheorems.RedirectsExactly(b, at.host, e, 0, KeyOf(x));
    events := BrokerStep(at, events, e);
    assert events[..sent] == before;
  }

  lemma InvOf(w: World, at: Setting)
    requires Safe(w, at)
    ensures BrokerInvariant.Inv(w.system.broker)
  {
    hide BrokerInvariant.Inv;
  }

  /** The broker's final answer says that the first had acknowledged. */
  lemma AnswerWasDelivered(x: Cast, host: Host, d: DeliveryId, b: Broker)
    requires Replaced(x, host, d, b) && BrokerInvariant.Inv(b)
    ensures d in b.history.delivered
  {
    hide BrokerInvariant.TablesHold, BrokerInvariant.AsksHold, BrokerInvariant.Mirrors, BrokerInvariant.Accounted;
    assert BrokerInvariant.IsAnswerTo(b.recent[KeyOf(x)], KeyOf(x), b.history.accepted, b.history.delivered);
  }
}
