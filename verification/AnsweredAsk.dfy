/** A late answer: a run in which an asker stops waiting, and the answer to its deferred ask still
    goes through and is reported to the one who gave it. */
module AnsweredAsk {

  import opened Wrappers
  import opened Messages
  import opened Forest
  import opened BrokerModel
  import RegistryModel
  import BrokerInvariant
  import BrokerSteps
  import AskEffects
  import DeliveryEffects
  import Entitlement
  import Reports
  import SendDecision
  import InboundModel
  import RuntimeModel
  import ClientModel
  import opened EndToEnd
  import opened PlainDelivery

  /** Who asks whom what, over which sockets, and the answer. */
  datatype Cast = Cast(asker: Id, asked: Id, askerSocket: Socket, askedSocket: Socket, ask: Message, answer: Message)

  /** The ask replies to nothing, the answer replies to the ask and asks nothing. */
  predicate IsCast(x: Cast) {
    && x.asker != x.asked && x.askerSocket != x.askedSocket
    && x.ask.expectsReply == Some(true) && x.ask.replyTo == None
    && x.answer.replyTo == Some(x.ask.id) && x.answer.expectsReply != Some(true)
  }

  /** The policy lets the one ask and the other reply. */
  predicate Agrees(x: Cast, host: Host) {
    && host.authorize(map[x.asker := Local, x.asked := Local], x.asker, AskAction, x.asked)
    && host.authorize(map[x.asker := Local, x.asked := Local], x.asked, ReplyAction, x.asker)
  }

  function AskKey(x: Cast): Key {
    Key(x.asker, x.ask.id)
  }

  /** Both sessions are connected, and this is all that is asked and on its way. */
  ghost predicate Shows(x: Cast, b: Broker, edges: map<Key, AskEdge>, pending: set<DeliveryId>) {
    && b.registry == RegistryModel.EMPTY
    && b.connections == map[x.askerSocket := Connection(false, Some(x.asker)), x.askedSocket := Connection(false, Some(x.asked))]
    && b.sessions == map[x.asker := Session(x.askerSocket, None, Local), x.asked := Session(x.askedSocket, None, Local)]
    && b.edges == edges && b.pending.Keys == pending
    && forall k :: k in b.recent ==> k.from == x.asker
  }

  lemma ShownTables(x: Cast, b: Broker, edges: map<Key, AskEdge>, pending: set<DeliveryId>)
    requires Shows(x, b, edges, pending)
    ensures b.edges == edges && b.pending.Keys == pending && (pending == {} ==> b.pending == map[])
  {}

  function EdgeOf(x: Cast, host: Host, state: EdgeState): AskEdge {
    AskEdge(x.ask.id, x.asker, x.asked, 0, host.askTimeoutMs, state)
  }

  lemma Reach(x: Cast, host: Host, b: Broker, edges: map<Key, AskEdge>, pending: set<DeliveryId>)
    requires IsCast(x) && Agrees(x, host) && Shows(x, b, edges, pending)
    ensures Entitlement.Speaks(b, x.askerSocket, x.asker, 0) && Entitlement.Speaks(b, x.askedSocket, x.asked, 0)
    ensures Entitlement.MayStillReach(b, host, x.asker, x.asked, AskAction, 1, 1, 0)
    ensures Entitlement.MayStillReach(b, host, x.asked, x.asker, ReplyAction, 1, 1, 0)
  {
    assert Entitlement.Origins(b.sessions) == map[x.asker := Local, x.asked := Local];
  }

  // ---------- Single steps ----------

  lemma AskIsAccepted(x: Cast, host: Host, d: DeliveryId)
    requires IsCast(x) && Agrees(x, host)
    ensures Authorizes(host, x.asker, x.asked, x.ask)
    ensures var sent := Sent(x.asker, x.asked, x.askerSocket, x.askedSocket, x.ask);
            var b := Accept(Ready(x.asker, x.asked, x.askerSocket, x.askedSocket), host, d, sent, 0);
            && Shows(x, b, map[AskKey(x) := EdgeOf(x, host, Blocking)], {d}) && b.pending[d] == sent
            && b.history.accepted.Keys == {d}
  {}

  lemma AskIsAcknowledged(x: Cast, host: Host, d: DeliveryId, b: Broker)
    requires IsCast(x) && Agrees(x, host) && BrokerInvariant.Inv(b)
    requires Shows(x, b, map[AskKey(x) := EdgeOf(x, host, Blocking)], {d}) && b.history.accepted.Keys == {d}
    requires b.pending[d] == Sent(x.asker, x.asked, x.askerSocket, x.askedSocket, x.ask)
    ensures var b' := MessageReceived(b, host, x.askedSocket, d, 0).0;
            Shows(x, b', map[AskKey(x) := EdgeOf(x, host, Blocking)], {}) && b'.history.accepted.Keys == {d}
  {
    hide BrokerInvariant.Inv, MessageReceived, Entitlement.MayStillReach, Entitlement.Entitled, DeliveryEffects.HasFailed, Agrees,
      DeliveryEffects.Remembrance;
    Reach(x, host, b, b.edges, {d});
    DeliveryEffects.ReceiptDecides(b, host, x.askedSocket, d, 0);
  }

  lemma WaitIsOver(x: Cast, host: Host, d: DeliveryId, b: Broker)
    requires IsCast(x) && Agrees(x, host) && BrokerInvariant.Inv(b)
    requires Shows(x, b, map[AskKey(x) := EdgeOf(x, host, Blocking)], {}) && b.history.accepted.Keys == {d}
    ensures var b' := BrokerSteps.Step(b, host, BrokerSteps.DeferAskE(x.askerSocket, x.ask.id), 0);
            Shows(x, b', map[AskKey(x) := EdgeOf(x, host, Deferred)], {}) && b'.history.accepted.Keys == {d}
  {
    hide BrokerInvariant.Inv, BrokerSteps.Step, Entitlement.Speaks, Entitlement.MayStillReach;
    Reach(x, host, b, b.edges, {});
    AskEffects.DeferringDecides(b, host, x.askerSocket, x.asker, x.ask.id, 0);
  }

  lemma AnswerReachesAsker(x: Cast, host: Host, b: Broker, edges: map<Key, AskEdge>)
    requires IsCast(x) && Agrees(x, host) && Shows(x, b, edges, {})
    ensures SendDecision.ReachesOnly(b, host, x.asked, x.asker, x.answer, x.asker, 0)
    ensures SendDecision.HasRoom(b.pending, x.asked)
    ensures SendDecision.Open(b, host, Key(x.asked, x.answer.id), x.asker, x.answer, 0)
    ensures forall d :: !SendDecision.Pending(b, Key(x.asked, x.answer.id), d)
  {
    Reach(x, host, b, edges, {});
    assert Entitlement.Kind(x.answer) == ReplyAction;
    hide Entitlement.MayReach;
    assert SendDecision.Reaches(b, host, x.asked, x.asker, x.answer, x.asker, 0);
    SendDecision.RoomExactly(b.pending, x.asked);
    assert PendingFrom(b.pending, x.asked) == {};
  }

  lemma AnswerGoesOut(x: Cast, host: Host, d: DeliveryId, late: DeliveryId, b: Broker)
    requires IsCast(x) && Agrees(x, host) && BrokerInvariant.Inv(b)
    requires Shows(x, b, map[AskKey(x) := EdgeOf(x, host, Deferred)], {}) && b.history.accepted.Keys == {d}
    ensures var (b', outcome) := Send(b, host, x.askedSocket, x.asker, x.answer, late, 0);
            && outcome == Accepted(late, x.asker)
            && Shows(x, b', map[AskKey(x) := EdgeOf(x, host, Deferred)], {late})
            && SendDecision.IsDeliveryOf(b, x.askedSocket, x.asked, x.asker, x.answer, x.asker, b'.pending[late])
            && b'.history.accepted == b.history.accepted[late := b'.pending[late]]
  {
    hide BrokerInvariant.Inv, Send, Entitlement.Speaks, Entitlement.MayStillReach, SendDecision.ReachesOnly, SendDecision.HasRoom, SendDecision.Open,
      SendDecision.Pending, SendDecision.OtherAsks;
    Reach(x, host, b, b.edges, {});
    AnswerReachesAsker(x, host, b, b.edges);
    SendDecision.ReplyGoesOut(b, host, x.askedSocket, x.asked, x.asker, x.answer, late, 0, x.asker);
    var cleared := SendDecision.SendChanges(b, host, x.askedSocket, x.asked, x.asker, x.answer, late, 0);
    NothingElseAsked(x, b);
  }

  lemma NothingElseAsked(x: Cast, b: Broker)
    requires IsCast(x)
    ensures SendDecision.OtherAsks(b, Key(x.asked, x.answer.id), x.answer) == b.edges
  {}

  /** The asker acknowledges the answer: it is reported, and the ask is over. */
  lemma AnswerIsAcknowledged(x: Cast, host: Host, late: DeliveryId, was: Broker, b: Broker)
    requires IsCast(x) && Agrees(x, host) && BrokerInvariant.Inv(b)
    requires Shows(x, b, map[AskKey(x) := EdgeOf(x, host, Deferred)], {late})
    requires SendDecision.IsDeliveryOf(was, x.askedSocket, x.asked, x.asker, x.answer, x.asker, b.pending[late])
    requires Shows(x, was, map[AskKey(x) := EdgeOf(x, host, Deferred)], {})
    ensures var b' := MessageReceived(b, host, x.askerSocket, late, 0).0; b'.edges == b'.disk == map[] && late in b'.history.delivered
    ensures Report(x.askedSocket, Key(x.asked, x.answer.id), late) in ReportsOf(b, host, BrokerSteps.ReceivedE(x.askerSocket, late), 0)
  {
    hide BrokerInvariant.Inv, MessageReceived, Entitlement.MayStillReach, Entitlement.Entitled, Agrees, ReportsOf;
    Reach(x, host, b, b.edges, {late});
    assert Entitlement.Kind(x.answer) == ReplyAction;
    hide Entitlement.Kind;
    assert DeliveryEffects.IsAnswered(b, x.askerSocket, late, 0);
    hide DeliveryEffects.IsAnswered;
    DeliveryEffects.AcknowledgedReplyEndsAsk(b, host, x.askerSocket, late, 0);
    Reports.ReceiptReports(b, host, x.askerSocket, late, 0, Report(x.askedSocket, Key(x.asked, x.answer.id), late));
  }

  // ---------- The run ----------

  /** What is on the wire arrives. */
  lemma ArrivesNow(at: Setting, events: seq<Timed>, t: Socket, d: DeliveryId, peer: InboundModel.Peer) returns (longer: seq<Timed>)
    requires IsRun(at, events) && Wire(t, d) in Run(at, events).forwarded && d in Run(at, events).system.broker.history.accepted
    ensures IsRun(at, longer) && longer == events + [Timed(ArriveE(t, d, peer), 0)]
    ensures var w, w' := Run(at, events), Run(at, longer);
            && w'.system == w.system && w'.senders == w.senders && w'.written == w.written && w'.reported == w.reported
            && w'.acknowledged == w.acknowledged + {Wire(t, d)}
  {
    hide IsRun, Run, RuntimeModel.Arrive;
    longer := events + [Timed(ArriveE(t, d, peer), 0)];
    Extend(at, events, ArriveE(t, d, peer));
  }

  lemma SafeRunsHold(at: Setting, events: seq<Timed>)
    requires IsRun(at, events)
    ensures BrokerInvariant.Inv(Run(at, events).system.broker)
  {
    hide BrokerInvariant.Inv, Run, IsRun;
    RunsAreSafe(at, events);
  }

  /** The ask is delivered and acknowledged, and then its asker stops waiting. */
  lemma AskIsLeftOpen(at: Setting, x: Cast, d: DeliveryId, peer: InboundModel.Peer) returns (events: seq<Timed>)
    requires IsCast(x) && Agrees(x, at.host) && at.home(x.askerSocket) != at.home(x.askedSocket)
    ensures IsRun(at, events)
    ensures var w := Run(at, events);
            && Shows(x, w.system.broker, map[AskKey(x) := EdgeOf(x, at.host, Deferred)], {}) && w.system.broker.history.accepted.Keys == {d}
            && w.system.now == 0 && Sender(w, at.home(x.askedSocket)) == ClientModel.Fresh(map[])
  {
    hide Run, IsRun, Agrees, Authorizes, Shows, Accept, MessageReceived, BrokerInvariant.Inv, BrokerSteps.Step, ReportsOf, Forwarded,
      RuntimeModel.Durable;
    events := SetUp(at, x.asker, x.asked, x.askerSocket, x.askedSocket);
    events := ClientSends(at, events, x.asker, x.asked, x.askerSocket, x.ask);
    assert Sender(Run(at, events), at.home(x.askedSocket)) == ClientModel.Fresh(map[]);
    AskIsAccepted(x, at.host, d);
    events := Arrives(at, events, x.asker, x.asked, x.askerSocket, x.askedSocket, x.ask, d, peer);
    SafeRunsHold(at, events);
    AskIsAcknowledged(x, at.host, d, Run(at, events).system.broker);
    BrokerSteps.EventsReachTheirHandlers(Run(at, events).system.broker, at.host, BrokerSteps.ReceivedE(x.askedSocket, d), 0);
    events := BrokerStep(at, events, BrokerSteps.ReceivedE(x.askedSocket, d));
    SafeRunsHold(at, events);
    WaitIsOver(x, at.host, d, Run(at, events).system.broker);
    events := BrokerStep(at, events, BrokerSteps.DeferAskE(x.askerSocket, x.ask.id));
  }

  lemma AnswerIsForwarded(h: History, later: History, late: DeliveryId, p: Delivery)
    requires later.accepted == h.accepted[late := p] && late !in h.accepted
    ensures Wire(p.recipientSocket, late) in Forwarded(h, later)
  {
    assert Wire(later.accepted[late].recipientSocket, late) in Forwarded(h, later);
  }

  /** The one who was asked answers after that, and the answer is accepted. */
  lemma AnswerIsSent(at: Setting, events: seq<Timed>, x: Cast, d: DeliveryId, late: DeliveryId) returns (longer: seq<Timed>)
    requires IsCast(x) && Agrees(x, at.host) && d != late && IsRun(at, events) && Run(at, events).system.now == 0
    requires var w := Run(at, events);
             && Shows(x, w.system.broker, map[AskKey(x) := EdgeOf(x, at.host, Deferred)], {}) && w.system.broker.history.accepted.Keys == {d}
             && Sender(w, at.home(x.askedSocket)) == ClientModel.Fresh(map[])
    ensures IsRun(at, longer) && |longer| >= |events| && longer[..|events|] == events
    ensures var w := Run(at, longer);
            && Shows(x, w.system.broker, map[AskKey(x) := EdgeOf(x, at.host, Deferred)], {late}) && w.system.now == 0
            && SendDecision.IsDeliveryOf(Run(at, events).system.broker, x.askedSocket, x.asked, x.asker, x.answer, x.asker,
                                         w.system.broker.pending[late])
            && Wire(x.askerSocket, late) in w.forwarded && late in w.system.broker.history.accepted
  {
    hide Run, IsRun, Agrees, Shows, Send, BrokerInvariant.Inv, BrokerSteps.Step, ReportsOf, Forwarded, SendDecision.IsDeliveryOf, ClientModel.Outbox;
    longer := ClientSends(at, events, x.asked, x.asker, x.askedSocket, x.answer);
    var b := Run(at, longer).system.broker;
    SafeRunsHold(at, longer);
    AnswerGoesOut(x, at.host, d, late, b);
    var before := longer;
    BrokerSteps.EventsReachTheirHandlers(b, at.host, BrokerSteps.SendE(x.askedSocket, x.asker, x.answer, late), 0);
    longer := BrokerStep(at, longer, BrokerSteps.SendE(x.askedSocket, x.asker, x.answer, late));
    assert longer[..|events|] == before[..|events|];
    var after := Run(at, longer).system.broker;
    ShownTables(x, after, map[AskKey(x) := EdgeOf(x, at.host, Deferred)], {late});
    AnswerIsForwarded(b.history, after.history, late, after.pending[late]);
    AnswerIsForAsker(x, b, map[AskKey(x) := EdgeOf(x, at.host, Deferred)], after.pending[late]);
  }

  lemma AnswerIsForAsker(x: Cast, b: Broker, edges: map<Key, AskEdge>, p: Delivery)
    requires IsCast(x) && Shows(x, b, edges, {}) && SendDecision.IsDeliveryOf(b, x.askedSocket, x.asked, x.asker, x.answer, x.asker, p)
    ensures p.recipientSocket == x.askerSocket
  {}

  /** For every such cast there is a run of senders, broker and receivers in which the ask is
      delivered, acknowledged and deferred, the answer to it goes out after that and is
      acknowledged by the asker, the one who answered is told so, and the ask is over, in memory
      and on disk. */
  lemma LateAnswerIsReported(at: Setting, x: Cast, d: DeliveryId, late: DeliveryId, peer: InboundModel.Peer)
    returns (events: seq<Timed>, deferred: nat)
    requires IsCast(x) && Agrees(x, at.host) && at.home(x.askerSocket) != at.home(x.askedSocket) && d != late
    ensures IsRun(at, events) && deferred < |events| && IsRun(at, events[..deferred])
    ensures var b := Run(at, events[..deferred]).system.broker;
            b.edges == map[AskKey(x) := EdgeOf(x, at.host, Deferred)] && b.pending == map[]
    ensures var w := Run(at, events);
            && Report(x.askedSocket, Key(x.asked, x.answer.id), late) in w.reported
            && late in w.system.broker.history.delivered && w.system.broker.edges == w.system.broker.disk == map[]
  {
    hide Run, IsRun, Agrees, Shows, Send, MessageReceived, BrokerInvariant.Inv, BrokerSteps.Step, ReportsOf, Forwarded, SendDecision.IsDeliveryOf,
      ClientModel.Outbox;
    events := AskIsLeftOpen(at, x, d, peer);
    deferred := |events|;
    var open := events;
    ShownTables(x, Run(at, open).system.broker, map[AskKey(x) := EdgeOf(x, at.host, Deferred)], {});
    events := AnswerIsSent(at, events, x, d, late);
    events := ArrivesNow(at, events, x.askerSocket, late, peer);
    SafeRunsHold(at, events);
    AnswerIsAcknowledged(x, at.host, late, Run(at, open).system.broker, Run(at, events).system.broker);
    BrokerSteps.EventsReachTheirHandlers(Run(at, events).system.broker, at.host, BrokerSteps.ReceivedE(x.askerSocket, late), 0);
    events := BrokerStep(at, events, BrokerSteps.ReceivedE(x.askerSocket, late));
    assert events[..deferred] == open;
  }
}
