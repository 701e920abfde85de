/** The normal course of a message, from two connections to the report of its delivery: runs of
    the kind the theorems speak of exist for every message that is not a reply. */
module PlainDelivery {

  import opened Wrappers
  import opened Messages
  import opened Forest
  import opened BrokerModel
  import BrokerSteps
  import BrokerRuns
  import InboundModel
  import BrokerInvariant
  import AskTheorems
  import RuntimeModel
  import ClientModel
  import opened EndToEnd
  import OwnRuns

  /** Two local sessions are registered and nothing else has happened. */
  function Ready(a: Id, b: Id, s: Socket, t: Socket): Broker {
    BrokerRuns.START.broker.(
      connections := map[s := Connection(false, Some(a)), t := Connection(false, Some(b))],
      sessions := map[a := Session(s, None, Local), b := Session(t, None, Local)])
  }

  /** The policy lets the one session send this message to the other. */
  predicate Authorizes(host: Host, a: Id, b: Id, m: Message) {
    host.authorize(map[a := Local, b := Local], a, ActionOf(m), b)
  }

  lemma ConnectTwo(s: Socket, t: Socket)
    requires s != t
    ensures Connect(Connect(BrokerRuns.START.broker, s, false), t, false) ==
            BrokerRuns.START.broker.(connections := map[s := Connection(false, None), t := Connection(false, None)])
  {}

  lemma RegisterNew(b: Broker, socket: Socket, id: Id, name: Option<string>)
    requires socket in b.connections && b.connections[socket] == Connection(false, None)
    requires id !in b.sessions && |b.sessions| < MAX_SESSIONS
    ensures RegisterLocal(b, socket, id, name, 0) ==
            b.(connections := b.connections[socket := Connection(false, Some(id))], sessions := b.sessions[id := Session(socket, name, Local)])
  {
    hide ClearPending, DeferEdgesOf;
  }

  lemma RegisterTwo(a: Id, b: Id, s: Socket, t: Socket)
    requires s != t && a != b
    ensures var connected := Connect(Connect(BrokerRuns.START.broker, s, false), t, false);
            RegisterLocal(RegisterLocal(connected, s, a, None, 0), t, b, None, 0) == Ready(a, b, s, t)
  {
    hide RegisterLocal;
    ConnectTwo(s, t);
    var connected := Connect(Connect(BrokerRuns.START.broker, s, false), t, false);
    RegisterNew(connected, s, a, None);
    var first := RegisterLocal(connected, s, a, None, 0);
    assert |first.sessions| == |map[a := Session(s, None, Local)]| == 1;
    RegisterNew(first, t, b, None);
  }

  function Sent(a: Id, b: Id, s: Socket, t: Socket, m: Message): Delivery {
    Delivery(Key(a, m.id), FingerprintOf(b, m), m, a, b, s, t, ActionOf(m), 1, 1)
  }

  lemma OriginsOfReady(a: Id, b: Id, s: Socket, t: Socket)
    requires a != b
    ensures var sessions := Ready(a, b, s, t).sessions; (map id | id in sessions :: sessions[id].origin) == map[a := Local, b := Local]
  {}

  lemma OnlyTarget(host: Host, a: Id, b: Id, s: Socket, t: Socket, m: Message)
    requires a != b && Authorizes(host, a, b, m)
    ensures Targets(Ready(a, b, s, t), host, a, b, ActionOf(m), 0) == {b}
  {
    OriginsOfReady(a, b, s, t);
    assert FindSessions(Ready(a, b, s, t), host, b) == {b};
    hide FindSessions;
  }

  lemma NothingKnown(host: Host, a: Id, b: Id, s: Socket, t: Socket, m: Message)
    ensures Deduplicate(Ready(a, b, s, t), host, a, b, m, 0) == (Ready(a, b, s, t), None)
  {
    var ready := Ready(a, b, s, t);
    assert Prune(ready, 0) == ready && ready.recent - {Key(a, m.id)} == ready.recent;
  }

  lemma NothingRefused(a: Id, b: Id, m: Message)
    requires m.replyTo.None?
    ensures AskRefusal(map[], a, b, m).None?
  {
    assert EdgesFrom(map[], a) == {};
  }

  /** The message is accepted for the other session. */
  lemma SendIsAccepted(host: Host, a: Id, b: Id, s: Socket, t: Socket, m: Message, d: DeliveryId)
    requires s != t && a != b && m.replyTo.None? && Authorizes(host, a, b, m)
    ensures var ready := Ready(a, b, s, t);
            Send(ready, host, s, b, m, d, 0) == (Accept(ready, host, d, Sent(a, b, s, t, m), 0), Accepted(d, b))
  {
    var ready := Ready(a, b, s, t);
    OnlyTarget(host, a, b, s, t, m);
    NothingRefused(a, b, m);
    NothingKnown(host, a, b, s, t, m);
    assert PendingFrom(ready.pending, a) == {};
    hide AskRefusal, Targets, Deduplicate, PendingFrom, Accept;
    assert Only({b}) == b;
  }

  /** Its receipt, on the recipient's socket, is reported to the sender. */
  lemma ReceiptIsReported(host: Host, a: Id, b: Id, s: Socket, t: Socket, m: Message, d: DeliveryId)
    requires s != t && a != b && m.replyTo.None? && Authorizes(host, a, b, m)
    ensures Report(s, Key(a, m.id), d) in
            ReportsOf(Accept(Ready(a, b, s, t), host, d, Sent(a, b, s, t, m), 0), host, BrokerSteps.ReceivedE(t, d), 0)
  {
    var sent := Accept(Ready(a, b, s, t), host, d, Sent(a, b, s, t, m), 0);
    OriginsOfReady(a, b, s, t);
    assert sent.sessions == Ready(a, b, s, t).sessions && d in sent.pending && sent.pending[d] == Sent(a, b, s, t, m);
    assert Speaker(sent, t, 0) == Some(b);
    hide Accept;
  }

  lemma Extend(at: Setting, events: seq<Timed>, e: Event)
    requires IsRun(at, events) && Allowed(Run(at, events), at, e, 0)
    ensures IsRun(at, events + [Timed(e, 0)]) && Run(at, events + [Timed(e, 0)]) == Next(Run(at, events), at, e, 0)
  {
    hide Allowed, Next;
    assert (events + [Timed(e, 0)])[..|events|] == events;
  }

  /** One broker step of a run. */
  lemma BrokerStep(at: Setting, events: seq<Timed>, e: BrokerSteps.Event) returns (longer: seq<Timed>)
    requires IsRun(at, events) && Run(at, events).system.now == 0 && BrokerSteps.Allowed(Run(at, events).system, e, 0)
    requires e.ReceivedE? ==> Wire(e.socket, e.deliveryId) in Run(at, events).acknowledged
    requires e.SendE? ==> Written(e.socket, e.to, e.message) in Run(at, events).written
    ensures IsRun(at, longer) && longer == events + [Timed(BrokerE(e), 0)]
    ensures var w, w' := Run(at, events), Run(at, longer);
            && w'.system.broker == BrokerSteps.Step(w.system.broker, at.host, e, 0) && w'.system.now == 0
            && w'.receivers == w.receivers && w'.senders == w.senders && w'.written == w.written && w'.acknowledged == w.acknowledged
            && w'.forwarded == w.forwarded + Forwarded(w.system.broker.history, w'.system.broker.history)
            && w'.reported == w.reported + ReportsOf(w.system.broker, at.host, e, 0)
            && (e.SendE? || w'.system.broker.history.accepted == w.system.broker.history.accepted)
  {
    hide BrokerSteps.Allowed, BrokerSteps.Step, BrokerRuns.RegistryEvent, ReportsOf, Forwarded, IsRun, Run;
    longer := events + [Timed(BrokerE(e), 0)];
    Extend(at, events, BrokerE(e));
    BrokerRuns.NextBroker(Run(at, events).system, at.host, e, 0);
    if !e.SendE? { BrokerRuns.OnlySendAccepts(Run(at, events).system.broker, at.host, e, 0); }
  }

  lemma SetUp(at: Setting, a: Id, b: Id, s: Socket, t: Socket) returns (events: seq<Timed>)
    requires s != t && a != b
    ensures IsRun(at, events) && Run(at, events).system.broker == Ready(a, b, s, t) && Run(at, events).system.now == 0
    ensures Run(at, events).receivers == map[] && Run(at, events).senders == map[]
  {
    hide Run, RegisterLocal, ReportsOf, Forwarded;
    assert IsRun(at, []) && Run(at, []) == START by { EmptyRun(at); }
    hide IsRun;
    events := BrokerStep(at, [], BrokerSteps.ConnectE(s, false));
    events := BrokerStep(at, events, BrokerSteps.ConnectE(t, false));
    ConnectTwo(s, t);
    events := BrokerStep(at, events, BrokerSteps.RegisterLocalE(s, a, None));
    RegisterTwo(a, b, s, t);
    RegisterNew(Connect(Connect(BrokerRuns.START.broker, s, false), t, false), s, a, None);
    events := BrokerStep(at, events, BrokerSteps.RegisterLocalE(t, b, None));
  }

  lemma EmptyRun(at: Setting)
    ensures IsRun(at, []) && Run(at, []) == START
  {}

  /** One step of the sending client. */
  lemma ClientStep(at: Setting, events: seq<Timed>, s: Socket, act: ClientModel.Event) returns (longer: seq<Timed>)
    requires IsRun(at, events) && !act.AnsweredE?
    ensures IsRun(at, longer) && longer == events + [Timed(SenderE(s, act), 0)]
    ensures var w, w' := Run(at, events), Run(at, longer);
            && Sender(w', at.home(s)) == ClientModel.Step(Sender(w, at.home(s)), act)
            && w'.written == w.written + WrittenBy(Sender(w, at.home(s)), s, act)
            && (forall home :: home != at.home(s) ==> Sender(w', home) == Sender(w, home))
            && w'.system == w.system && w'.receivers == w.receivers && w'.reported == w.reported && w'.acknowledged == w.acknowledged
  {
    hide IsRun, Run, ClientModel.Step, WrittenBy;
    longer := events + [Timed(SenderE(s, act), 0)];
    Extend(at, events, SenderE(s, act));
  }

  lemma FirstIsQueued(to: string, m: Message)
    ensures ClientModel.Enqueue([], to, m, 0) == ([ClientModel.Queued(to, m, 0)], ClientModel.Added)
  {
    assert [] + [ClientModel.Queued(to, m, 0)] == [ClientModel.Queued(to, m, 0)];
  }

  /** The client connects, registers and sends; then the message is written, queued and pending. */
  lemma ClientSends(at: Setting, events: seq<Timed>, a: Id, b: Id, s: Socket, m: Message) returns (longer: seq<Timed>)
    requires IsRun(at, events) && Sender(Run(at, events), at.home(s)) == ClientModel.Fresh(map[])
    ensures IsRun(at, longer) && |longer| >= |events| && longer[..|events|] == events
    ensures var w, w' := Run(at, events), Run(at, longer);
            && (forall home :: home != at.home(s) ==> Sender(w', home) == Sender(w, home))
            && Written(s, b, m) in w'.written && ClientModel.Outbox(Sender(w', at.home(s))) == [ClientModel.Queued(b, m, 0)]
            && Sender(w', at.home(s)).sessionId == Sender(w', at.home(s)).outboxOf == Some(a)
            && w'.system == w.system && w'.receivers == w.receivers && w'.reported == w.reported
  {
    hide IsRun, Run, ClientModel.Enqueue, ClientModel.Replayed;
    FirstIsQueued(b, m);
    longer := ClientStep(at, events, s, ClientModel.ConnectE);
    longer := ClientStep(at, longer, s, ClientModel.RegisteredE(a, 0));
    longer := ClientStep(at, longer, s, ClientModel.SendE(b, m, 0, true, true));
  }

  lemma AnswerEmptiesOutbox(c: ClientModel.Client, q: ClientModel.Queued)
    requires c.sessionId.Some? && ClientModel.Outbox(c) == [q]
    ensures ClientModel.Outbox(ClientModel.Answered(c, q.message.id)) == []
  {
    assert ClientModel.Remove([q], q.message.id) == ClientModel.Remove([], q.message.id) == [];
    hide ClientModel.Remove;
  }

  /** The broker accepts what the client has written, and the delivery arrives. */
  lemma Arrives(at: Setting, events: seq<Timed>, a: Id, b: Id, s: Socket, t: Socket, m: Message, d: DeliveryId, peer: InboundModel.Peer)
    returns (longer: seq<Timed>)
    requires s != t && a != b && m.replyTo.None? && Authorizes(at.host, a, b, m) && IsRun(at, events)
    requires var w := Run(at, events);
             w.system.broker == Ready(a, b, s, t) && w.system.now == 0 && w.receivers == map[] && Written(s, b, m) in w.written
    ensures IsRun(at, longer) && |longer| >= |events| && longer[..|events|] == events
    ensures var w, w' := Run(at, events), Run(at, longer);
            && w'.system.broker == Accept(Ready(a, b, s, t), at.host, d, Sent(a, b, s, t, m), 0) && w'.system.now == 0
            && w'.senders == w.senders && Wire(t, d) in w'.acknowledged
            && RuntimeModel.Durable(Receiver(w', at.home(t)).log.store, m.id)
  {
    hide Run, IsRun, Authorizes, Send, Accept, ReportsOf, RuntimeModel.Arrive, RuntimeModel.Durable, RuntimeModel.Agrees;
    longer := BrokerStep(at, events, BrokerSteps.SendE(s, b, m, d));
    SendIsAccepted(at.host, a, b, s, t, m, d);
    AcceptedIsForwarded(at.host, a, b, s, t, m, d);
    var before := Run(at, longer);
    Extend(at, longer, ArriveE(t, d, peer));
    longer := longer + [Timed(ArriveE(t, d, peer), 0)];
    EmptyReceiverStores(at, before, ArriveE(t, d, peer));
  }

  lemma SenderIsTold(at: Setting, events: seq<Timed>, r: Report, q: ClientModel.Queued) returns (longer: seq<Timed>)
    requires IsRun(at, events) && r in Run(at, events).reported && r.key.messageId == q.message.id
    requires var c := Sender(Run(at, events), at.home(r.socket)); c.sessionId.Some? && ClientModel.Outbox(c) == [q]
    ensures IsRun(at, longer) && longer == events + [Timed(SeeDeliveredE(r), 0)]
    ensures Run(at, longer).receivers == Run(at, events).receivers && Run(at, longer).reported == Run(at, events).reported
    ensures ClientModel.Outbox(Sender(Run(at, longer), at.home(r.socket))) == []
  {
    hide Run, IsRun, ClientModel.Answered, ClientModel.Outbox;
    longer := events + [Timed(SeeDeliveredE(r), 0)];
    Extend(at, events, SeeDeliveredE(r));
    AnswerEmptiesOutbox(Sender(Run(at, events), at.home(r.socket)), q);
  }

  /** For every two sessions, every message that is not a reply and every policy that lets the
      one send it to the other there is a run in which the recipient stores the message, and the
      sender, who had queued it, is told so and forgets it. */
  lemma PlainMessageIsDelivered(at: Setting, a: Id, b: Id, s: Socket, t: Socket, m: Message, d: DeliveryId, peer: InboundModel.Peer)
    returns (events: seq<Timed>, sent: nat)
    requires s != t && a != b && m.replyTo.None? && Authorizes(at.host, a, b, m)
    ensures IsRun(at, events) && Report(s, Key(a, m.id), d) in Run(at, events).reported
    ensures RuntimeModel.Durable(Receiver(Run(at, events), at.home(t)).log.store, m.id)
    ensures ClientModel.Outbox(Sender(Run(at, events), at.home(s))) == []
    ensures sent < |events| && IsRun(at, events[..sent])
    ensures ClientModel.Outbox(Sender(Run(at, events[..sent]), at.home(s))) == [ClientModel.Queued(b, m, 0)]
  {
    hide Run, IsRun, Authorizes, Send, Accept, ReportsOf, RuntimeModel.Arrive, RuntimeModel.Durable, RuntimeModel.Agrees, MessageReceived,
      ClientModel.Answered, ClientModel.Outbox;
    events := SetUp(at, a, b, s, t);
    events := ClientSends(at, events, a, b, s, m);
    sent := |events|;
    var queued := events;
    events := Arrives(at, events, a, b, s, t, m, d, peer);
    events := BrokerStep(at, events, BrokerSteps.ReceivedE(t, d));
    ReceiptIsReported(at.host, a, b, s, t, m, d);
    events := SenderIsTold(at, events, Report(s, Key(a, m.id), d), ClientModel.Queued(b, m, 0));
    assert events[..sent] == queued;
  }

  lemma AcceptedIsForwarded(host: Host, a: Id, b: Id, s: Socket, t: Socket, m: Message, d: DeliveryId)
    ensures var ready, sent := Ready(a, b, s, t), Accept(Ready(a, b, s, t), host, d, Sent(a, b, s, t, m), 0);
            && Wire(t, d) in Forwarded(ready.history, sent.history)
            && d in sent.history.accepted && sent.history.accepted[d].message == m
  {
    var h, later := Ready(a, b, s, t).history, Accept(Ready(a, b, s, t), host, d, Sent(a, b, s, t, m), 0).history;
    assert later.accepted == map[d := Sent(a, b, s, t, m)];
    assert d !in h.accepted && later.accepted[d].recipientSocket == t;
    assert Wire(later.accepted[d].recipientSocket, d) in Forwarded(h, later);
  }

  lemma EmptyReceiverStores(at: Setting, w: World, e: Event)
    requires w.receivers == map[] && e.ArriveE? && Allowed(w, at, e, 0)
    requires w.system.broker.history.accepted[e.deliveryId].message.replyTo.None?
    ensures var w' := Next(w, at, e, 0);
            && w'.system == w.system && Wire(e.socket, e.deliveryId) in w'.acknowledged && w'.reported == w.reported && w'.senders == w.senders
            && w'.written == w.written && RuntimeModel.Durable(Receiver(w', at.home(e.socket)).log.store, w.system.broker.history.accepted[e.deliveryId].message.id)
  {
    hide BrokerSteps.Allowed, BrokerRuns.Next, ReportsOf, Forwarded;
    assert RuntimeModel.Agrees(RuntimeModel.START);
    ArrivalIsHeld(RuntimeModel.START, at.host.lower, ArrivedEntry(w, e, 0));
    hide RuntimeModel.Arrive, RuntimeModel.Agrees, RuntimeModel.Durable;
  }

  /** A crash and an orderly shutdown of every session do not always agree: for every two
      sessions and every ask that the policy lets through there is a run of the broker after which
      a crash brings the ask back and the shutdown does not. */
  lemma CrashKeepsWhatClosingDrops(at: Setting, a: Id, b: Id, s: Socket, t: Socket, m: Message, d: DeliveryId)
    returns (events: seq<BrokerRuns.Timed>, sockets: seq<Socket>)
    requires s != t && a != b && m.replyTo.None? && m.IsAsk() && Authorizes(at.host, a, b, m) && at.host.askTimeoutMs > 0
    ensures BrokerRuns.IsRun(at.host, events)
    ensures var broker := BrokerRuns.Run(at.host, events).broker;
            && (forall id :: id in broker.sessions ==> broker.sessions[id].socket in sockets)
            && Key(a, m.id) in Restart(broker, 0).edges
            && Restart(broker, 0).edges != Restored(AskTheorems.CloseEach(broker, sockets, 0).edges, 0)
  {
    hide Run, IsRun, Authorizes, Send, Accept, BrokerRuns.Run, BrokerRuns.IsRun, ReportsOf, Forwarded, Restored, AskTheorems.CloseEach,
      BrokerInvariant.Inv, BrokerRuns.RegistryHolds, AskTheorems.PendingAsks;
    var world := SetUp(at, a, b, s, t);
    world := ClientSends(at, world, a, b, s, m);
    world := BrokerStep(at, world, BrokerSteps.SendE(s, b, m, d));
    SendIsAccepted(at.host, a, b, s, t, m, d);
    events := OwnRuns.BrokerFollowsItsOwnRun(at, world);
    sockets := [s, t];
    BrokerRuns.ReachableStatesHold(at.host, events);
    var broker := BrokerRuns.Run(at.host, events).broker;
    AskIsPending(at.host, a, b, s, t, m, d);
    AskTheorems.RestartRefinesClosingAll(broker, sockets, 0);
    AskTheorems.RestartRestoresUnexpiredEdges(at.host, events, 0, Key(a, m.id));
  }

  lemma AskIsPending(host: Host, a: Id, b: Id, s: Socket, t: Socket, m: Message, d: DeliveryId)
    requires m.IsAsk()
    ensures var sent := Accept(Ready(a, b, s, t), host, d, Sent(a, b, s, t, m), 0);
            && Key(a, m.id) in AskTheorems.PendingAsks(sent.pending) && Key(a, m.id) in sent.edges
            && sent.edges[Key(a, m.id)].expiresAt == host.askTimeoutMs && sent.sessions == Ready(a, b, s, t).sessions
  {
    var sent := Accept(Ready(a, b, s, t), host, d, Sent(a, b, s, t, m), 0);
    assert d in sent.pending && sent.pending[d].message.IsAsk() && sent.pending[d].key == Key(a, m.id);
  }
}
