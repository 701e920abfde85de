/** Sending sessions, the broker and receiving sessions together. The network may delay, repeat
    and reorder, and any process may crash and come back; what was once written to a socket may
    be read from it at any later time. */
module EndToEnd {

  import opened Wrappers
  import opened Messages
  import BrokerModel
  import BrokerInvariant
  import BrokerSteps
  import BrokerRuns
  import DeliveryTheorems
  import InboundModel
  import RuntimeModel
  import ClientModel

  type Home = string
  type Socket = nat

  /** A delivery on the wire to, or acknowledged on, the recipient's socket. */
  datatype Wire = Wire(socket: Socket, deliveryId: DeliveryId)

  /** A message that a client wrote to its socket, with the name or id it is for. */
  datatype Written = Written(socket: Socket, to: string, message: Message)

  /** The broker tells the sender on a socket that its message was delivered. */
  datatype Report = Report(socket: Socket, key: BrokerModel.Key, deliveryId: DeliveryId)

  /** Where sockets live and what the broker and the sessions take from outside. */
  datatype Setting = Setting(host: BrokerModel.Host, home: Socket -> Home)

  datatype World = World(
    system: BrokerSteps.System,
    receivers: map<Home, RuntimeModel.Runtime>,
    senders: map<Home, ClientModel.Client>,
    written: set<Written>,
    forwarded: set<Wire>,
    acknowledged: set<Wire>,
    reported: set<Report>)

  datatype Event =
    | BrokerE(event: BrokerSteps.Event)
    | ArriveE(socket: Socket, deliveryId: DeliveryId, from: InboundModel.Peer)
    | ReceiverE(home: Home, change: RuntimeModel.Event)
    | SenderE(socket: Socket, act: ClientModel.Event)
    | SeeDeliveredE(report: Report)
    | SeeFailedE(home: Home, messageId: MessageId)

  function Receiver(w: World, home: Home): RuntimeModel.Runtime {
    if home in w.receivers then w.receivers[home] else RuntimeModel.START
  }

  function Sender(w: World, home: Home): ClientModel.Client {
    if home in w.senders then w.senders[home] else ClientModel.Fresh(map[])
  }

  /** An accepted delivery is written to its recipient at once. */
  ghost function Forwarded(h: BrokerModel.History, later: BrokerModel.History): set<Wire> {
    set d | d in later.accepted && d !in h.accepted :: Wire(later.accepted[d].recipientSocket, d)
  }

  /** What the broker tells senders in a step: at first hand, if the sender is still on its
      socket, or from the recent answers. */
  ghost function ReportsOf(b: BrokerModel.Broker, host: BrokerModel.Host, e: BrokerSteps.Event, now: int): set<Report> {
    match e
    case ReceivedE(socket, d) =>
      if BrokerModel.MessageReceived(b, host, socket, d, now).1.ReportedDelivered? && d in b.pending &&
         b.pending[d].from in b.sessions && b.sessions[b.pending[d].from].socket == b.pending[d].senderSocket
      then {Report(b.pending[d].senderSocket, b.pending[d].key, d)} else {}
    case SendE(socket, to, m, d) =>
      (match (BrokerModel.Speaker(b, socket, now), BrokerModel.Send(b, host, socket, to, m, d, now).1)
       case (Some(from), Replayed(Delivered(first))) => {Report(socket, BrokerModel.Key(from, m.id), first)}
       case _ => {})
    case _ => {}
  }

  /** What a client writes to its socket: a message it sends, or its outbox once it is registered. */
  function WrittenBy(c: ClientModel.Client, socket: Socket, act: ClientModel.Event): set<Written> {
    match act
    case SendE(to, m, now, writable, writes) =>
      if ClientModel.Send(c, to, m, now, writable, writes).1.Written? then {Written(socket, to, m)} else {}
    case RegisteredE(id, count) => set q | q in ClientModel.Registered(c, id, count).1 :: Written(socket, q.to, q.message)
    case _ => {}
  }

  /** The broker reads from a socket only what was written to it. */
  ghost predicate Allowed(w: World, at: Setting, e: Event, now: int) {
    match e
    case BrokerE(event) =>
      && BrokerSteps.Allowed(w.system, event, now)
      && (event.SendE? ==> Written(event.socket, event.to, event.message) in w.written)
      && (event.ReceivedE? ==> Wire(event.socket, event.deliveryId) in w.acknowledged)
    case ArriveE(socket, d, _) => Wire(socket, d) in w.forwarded && d in w.system.broker.history.accepted
    case ReceiverE(_, change) => !change.ArriveE? && (change.AskE? ==> change.id != "")
    case SenderE(_, act) => !act.AnsweredE?
    case SeeDeliveredE(report) => report in w.reported
    case SeeFailedE(_, _) => true
  }

  function ArrivedEntry(w: World, e: Event, now: int): InboundModel.Entry
    requires e.ArriveE? && e.deliveryId in w.system.broker.history.accepted
  {
    InboundModel.Entry(e.from, w.system.broker.history.accepted[e.deliveryId].message, e.deliveryId, now)
  }

  ghost function Next(w: World, at: Setting, e: Event, now: int): World
    requires Allowed(w, at, e, now)
  {
    match e
    case BrokerE(event) =>
      var system := BrokerRuns.Next(w.system, at.host, event, now);
      w.(system := system,
         forwarded := w.forwarded + Forwarded(w.system.broker.history, system.broker.history),
         reported := w.reported + ReportsOf(w.system.broker, at.host, event, now))
    case ArriveE(socket, d, _) =>
      var home := at.home(socket);
      w.(receivers := w.receivers[home := RuntimeModel.Arrive(Receiver(w, home), at.host.lower, ArrivedEntry(w, e, now)).0],
         acknowledged := w.acknowledged + {Wire(socket, d)})
    case ReceiverE(home, change) => w.(receivers := w.receivers[home := RuntimeModel.Step(Receiver(w, home), at.host.lower, change)])
    case SenderE(socket, act) =>
      var home := at.home(socket);
      w.(senders := w.senders[home := ClientModel.Step(Sender(w, home), act)], written := w.written + WrittenBy(Sender(w, home), socket, act))
    case SeeDeliveredE(report) =>
      var home := at.home(report.socket);
      w.(senders := w.senders[home := ClientModel.Answered(Sender(w, home), report.key.messageId)])
    case SeeFailedE(home, messageId) => w.(senders := w.senders[home := ClientModel.Answered(Sender(w, home), messageId)])
  }

  // ---------- What every reachable world satisfies ----------

  type Accepted = map<DeliveryId, BrokerModel.Delivery>

  ghost predicate WiresHold(forwarded: set<Wire>, acknowledged: set<Wire>, accepted: Accepted) {
    && acknowledged <= forwarded
    && forall x :: x in forwarded ==> x.deliveryId in accepted && accepted[x.deliveryId].recipientSocket == x.socket
  }

  /** The receiver has, or has had, the message of a delivery it acknowledged. */
  ghost predicate HeldBy(receivers: map<Home, RuntimeModel.Runtime>, home: Home, m: Message) {
    m.replyTo.None? ==> home in receivers && InboundModel.StoredOrRemembered(receivers[home].log, 0, m.id)
  }

  ghost predicate AcknowledgedAreHeld(acknowledged: set<Wire>, accepted: Accepted, receivers: map<Home, RuntimeModel.Runtime>, home: Socket -> Home) {
    forall x :: x in acknowledged && x.deliveryId in accepted ==> HeldBy(receivers, home(x.socket), accepted[x.deliveryId].message)
  }

  ghost predicate DeliveredAreAcknowledged(h: BrokerModel.History, acknowledged: set<Wire>) {
    forall d :: d in h.delivered ==> IsAcknowledged(d, h, acknowledged)
  }

  /** Every accepted delivery carries a message that was written to the sender's socket. */
  ghost predicate AcceptedWereWritten(accepted: Accepted, written: set<Written>) {
    forall d :: d in accepted ==> Written(accepted[d].senderSocket, accepted[d].fingerprint.to, accepted[d].message) in written
  }

  /** A report is about a delivered message, and that very message, for the same name or id, was
      written to the socket on which the sender is told. */
  ghost predicate IsBacked(r: Report, h: BrokerModel.History, written: set<Written>) {
    && r.deliveryId in h.delivered && r.deliveryId in h.accepted && h.accepted[r.deliveryId].key == r.key
    && Written(r.socket, h.accepted[r.deliveryId].fingerprint.to, h.accepted[r.deliveryId].message) in written
  }

  ghost predicate ReportedAreDelivered(reported: set<Report>, h: BrokerModel.History, written: set<Written>) {
    forall r :: r in reported ==> IsBacked(r, h, written)
  }

  ghost predicate ReceiversHold(receivers: map<Home, RuntimeModel.Runtime>) {
    forall home :: home in receivers ==> RuntimeModel.Agrees(receivers[home]) && "" !in receivers[home].waiters
  }

  ghost predicate SendersHold(senders: map<Home, ClientModel.Client>) {
    forall home :: home in senders ==> ClientModel.Disciplined(senders[home])
  }

  ghost predicate BrokerHolds(s: BrokerSteps.System) {
    BrokerInvariant.Inv(s.broker) && BrokerRuns.RegistryHolds(s)
  }

  ghost predicate Safe(w: World, at: Setting) {
    var h := w.system.broker.history;
    && BrokerHolds(w.system) && ReceiversHold(w.receivers) && SendersHold(w.senders)
    && WiresHold(w.forwarded, w.acknowledged, h.accepted)
    && AcknowledgedAreHeld(w.acknowledged, h.accepted, w.receivers, at.home)
    && DeliveredAreAcknowledged(h, w.acknowledged)
    && AcceptedWereWritten(h.accepted, w.written) && ReportedAreDelivered(w.reported, h, w.written)
  }

  // ---------- Steps of the broker ----------

  lemma BrokerStepHolds(s: BrokerSteps.System, host: BrokerModel.Host, e: BrokerSteps.Event, now: int)
    requires BrokerHolds(s) && BrokerSteps.Allowed(s, e, now)
    ensures BrokerHolds(BrokerRuns.Next(s, host, e, now))
    ensures BrokerRuns.HistoryGrows(s.broker.history, BrokerRuns.Next(s, host, e, now).broker.history)
  {
    BrokerInvariant.TablesOf(s.broker);
    hide BrokerInvariant.Inv, BrokerSteps.Step, BrokerSteps.Allowed, BrokerRuns.RegistryHolds, BrokerInvariant.Mirrors, BrokerRuns.HistoryGrows;
    BrokerSteps.StepKeepsInv(s, host, e, now);
    BrokerRuns.StepKeepsRegistry(s, host, e, now);
    BrokerRuns.StepIsFramed(s.broker, host, e, now);
  }

  lemma WiresGrow(forwarded: set<Wire>, acknowledged: set<Wire>, h: BrokerModel.History, later: BrokerModel.History)
    requires WiresHold(forwarded, acknowledged, h.accepted) && BrokerRuns.HistoryGrows(h, later)
    ensures WiresHold(forwarded + Forwarded(h, later), acknowledged, later.accepted)
  {}

  lemma StillHeld(acknowledged: set<Wire>, h: BrokerModel.History, later: BrokerModel.History, forwarded: set<Wire>,
                  receivers: map<Home, RuntimeModel.Runtime>, home: Socket -> Home)
    requires WiresHold(forwarded, acknowledged, h.accepted) && BrokerRuns.HistoryGrows(h, later)
    requires AcknowledgedAreHeld(acknowledged, h.accepted, receivers, home)
    ensures AcknowledgedAreHeld(acknowledged, later.accepted, receivers, home)
  {
    hide HeldBy;
  }

  lemma PendingIsAccepted(b: BrokerModel.Broker, d: DeliveryId)
    requires BrokerInvariant.Inv(b) && d in b.pending
    ensures d in b.history.accepted && b.history.accepted[d] == b.pending[d]
  {
    hide BrokerInvariant.TablesHold, BrokerInvariant.AsksHold, BrokerInvariant.Mirrors, BrokerInvariant.CacheSound;
  }

  ghost predicate IsAcknowledged(d: DeliveryId, h: BrokerModel.History, acknowledged: set<Wire>) {
    d in h.accepted && Wire(h.accepted[d].recipientSocket, d) in acknowledged
  }

  lemma AcknowledgedStays(d: DeliveryId, h: BrokerModel.History, later: BrokerModel.History, acknowledged: set<Wire>)
    requires IsAcknowledged(d, h, acknowledged) && BrokerRuns.HistoryGrows(h, later)
    ensures IsAcknowledged(d, later, acknowledged)
  {}

  lemma DeliveredStayAcknowledged(s: BrokerSteps.System, host: BrokerModel.Host, e: BrokerSteps.Event, now: int, acknowledged: set<Wire>)
    requires BrokerHolds(s) && BrokerSteps.Allowed(s, e, now) && (e.ReceivedE? ==> Wire(e.socket, e.deliveryId) in acknowledged)
    requires DeliveredAreAcknowledged(s.broker.history, acknowledged)
    ensures DeliveredAreAcknowledged(BrokerRuns.Next(s, host, e, now).broker.history, acknowledged)
  {
    hide BrokerInvariant.Inv, BrokerSteps.Step, BrokerSteps.Allowed, BrokerRuns.RegistryHolds, BrokerRuns.HistoryGrows, BrokerRuns.RegistryEvent;
    var h, later := s.broker.history, BrokerRuns.Next(s, host, e, now).broker.history;
    BrokerStepHolds(s, host, e, now);
    forall d | d in later.delivered ensures IsAcknowledged(d, later, acknowledged) {
      if d !in h.delivered {
        BrokerRuns.OnlyReceiptsDeliver(s, host, e, now, d);
        PendingIsAccepted(s.broker, d);
      }
      AcknowledgedStays(d, h, later, acknowledged);
    }
  }

  lemma AcceptedStayWritten(s: BrokerSteps.System, host: BrokerModel.Host, e: BrokerSteps.Event, now: int, written: set<Written>)
    requires BrokerHolds(s) && BrokerSteps.Allowed(s, e, now) && AcceptedWereWritten(s.broker.history.accepted, written)
    requires e.SendE? ==> Written(e.socket, e.to, e.message) in written
    ensures AcceptedWereWritten(BrokerRuns.Next(s, host, e, now).broker.history.accepted, written)
  {
    hide BrokerHolds, BrokerSteps.Step, BrokerSteps.Allowed, BrokerRuns.Next, BrokerRuns.RegistryEvent;
    BrokerStepHolds(s, host, e, now);
    BrokerRuns.NextBroker(s, host, e, now);
    var accepted, later := s.broker.history.accepted, BrokerRuns.Next(s, host, e, now).broker.history.accepted;
    forall d | d in later ensures Written(later[d].senderSocket, later[d].fingerprint.to, later[d].message) in written {
      if d !in accepted { DeliveryTheorems.AcceptanceRecordsSend(s.broker, host, e, now, d); }
    }
  }

  lemma ReceiptReports(b: BrokerModel.Broker, host: BrokerModel.Host, e: BrokerSteps.Event, now: int, r: Report, written: set<Written>)
    requires BrokerInvariant.Inv(b) && e.ReceivedE? && r in ReportsOf(b, host, e, now) && AcceptedWereWritten(b.history.accepted, written)
    ensures IsBacked(r, BrokerModel.MessageReceived(b, host, e.socket, e.deliveryId, now).0.history, written)
  {
    hide BrokerInvariant.Inv, BrokerModel.StillAuthorized;
    PendingIsAccepted(b, r.deliveryId);
  }

  lemma ReplayReports(b: BrokerModel.Broker, host: BrokerModel.Host, e: BrokerSteps.Event, now: int, r: Report, written: set<Written>)
    requires BrokerInvariant.Inv(b) && e.SendE? && r in ReportsOf(b, host, e, now) && Written(e.socket, e.to, e.message) in written
    ensures IsBacked(r, b.history, written)
  {
    hide BrokerInvariant.Inv, BrokerModel.Deduplicate, BrokerModel.Route, BrokerSteps.Step;
    var from := BrokerModel.Speaker(b, e.socket, now).value;
    var (b', decided) := BrokerModel.Deduplicate(b, host, from, e.to, e.message, now);
    BrokerRuns.DeduplicateIsCalm(b, host, from, e.to, e.message, now);
    if decided.None? { var _ := BrokerRuns.RouteMayAccept(b', host, e.socket, from, e.to, e.message, e.deliveryId, now); }
    RecordsAreSound(b);
    DeliveryTheorems.ReplayIsRecorded(b, host, from, e.to, e.message, now, r.deliveryId);
    var p := b.history.accepted[r.deliveryId];
  }

  lemma RecordsAreSound(b: BrokerModel.Broker)
    requires BrokerInvariant.Inv(b)
    ensures BrokerInvariant.CacheSound(b.recent, b.pendingKeys, b.history.accepted, b.history.delivered)
    ensures forall d :: d in b.history.accepted ==> BrokerInvariant.WellDescribed(b.history.accepted[d])
  {
    hide BrokerInvariant.TablesHold, BrokerInvariant.AsksHold, BrokerInvariant.Mirrors, BrokerInvariant.CacheSound;
  }

  lemma BackedStaysBacked(r: Report, h: BrokerModel.History, later: BrokerModel.History, written: set<Written>, more: set<Written>)
    requires IsBacked(r, h, written) && BrokerRuns.HistoryGrows(h, later) && written <= more
    ensures IsBacked(r, later, more)
  {}

  lemma ReportIsBacked(s: BrokerSteps.System, host: BrokerModel.Host, e: BrokerSteps.Event, now: int, r: Report, written: set<Written>)
    requires BrokerHolds(s) && BrokerSteps.Allowed(s, e, now) && r in ReportsOf(s.broker, host, e, now)
    requires AcceptedWereWritten(s.broker.history.accepted, written) && (e.SendE? ==> Written(e.socket, e.to, e.message) in written)
    ensures IsBacked(r, BrokerRuns.Next(s, host, e, now).broker.history, written)
  {
    OnlyAnswersReport(s.broker, host, e, now, r);
    hide BrokerInvariant.Inv, BrokerRuns.RegistryHolds, IsBacked, BrokerSteps.Allowed, BrokerRuns.HistoryGrows, BrokerRuns.Next,
      BrokerModel.MessageReceived, ReportsOf, AcceptedWereWritten;
    BrokerRuns.NextBroker(s, host, e, now);
    if e.ReceivedE? {
      ReceiptReports(s.broker, host, e, now, r, written);
    } else {
      hide BrokerSteps.Step;
      ReplayReports(s.broker, host, e, now, r, written);
      BrokerStepHolds(s, host, e, now);
      BackedStaysBacked(r, s.broker.history, BrokerRuns.Next(s, host, e, now).broker.history, written, written);
    }
  }

  lemma OnlyAnswersReport(b: BrokerModel.Broker, host: BrokerModel.Host, e: BrokerSteps.Event, now: int, r: Report)
    requires r in ReportsOf(b, host, e, now)
    ensures e.ReceivedE? || e.SendE?
  {}

  lemma ReportsAreDelivered(s: BrokerSteps.System, host: BrokerModel.Host, e: BrokerSteps.Event, now: int, reported: set<Report>, written: set<Written>)
    requires BrokerHolds(s) && BrokerSteps.Allowed(s, e, now) && ReportedAreDelivered(reported, s.broker.history, written)
    requires AcceptedWereWritten(s.broker.history.accepted, written) && (e.SendE? ==> Written(e.socket, e.to, e.message) in written)
    ensures ReportedAreDelivered(reported + ReportsOf(s.broker, host, e, now), BrokerRuns.Next(s, host, e, now).broker.history, written)
  {
    hide BrokerHolds, ReportsOf, IsBacked, BrokerSteps.Allowed, BrokerRuns.Next, BrokerRuns.HistoryGrows, AcceptedWereWritten;
    BrokerStepHolds(s, host, e, now);
    var later := BrokerRuns.Next(s, host, e, now).broker.history;
    forall r | r in reported + ReportsOf(s.broker, host, e, now) ensures IsBacked(r, later, written) {
      if r in reported { BackedStaysBacked(r, s.broker.history, later, written, written); }
      else { ReportIsBacked(s, host, e, now, r, written); }
    }
  }

  lemma BrokerKeepsSafe(w: World, at: Setting, e: Event, now: int)
    requires Safe(w, at) && Allowed(w, at, e, now) && e.BrokerE?
    ensures Safe(Next(w, at, e, now), at)
  {
    var h, later := w.system.broker.history, BrokerRuns.Next(w.system, at.host, e.event, now).broker.history;
    hide BrokerHolds, WiresHold, AcknowledgedAreHeld, DeliveredAreAcknowledged, ReportedAreDelivered, ReceiversHold, SendersHold, ReportsOf,
      Forwarded, BrokerSteps.Allowed, BrokerRuns.Next, BrokerRuns.HistoryGrows, AcceptedWereWritten;
    BrokerStepHolds(w.system, at.host, e.event, now);
    AcceptedStayWritten(w.system, at.host, e.event, now, w.written);
    WiresGrow(w.forwarded, w.acknowledged, h, later);
    StillHeld(w.acknowledged, h, later, w.forwarded, w.receivers, at.home);
    DeliveredStayAcknowledged(w.system, at.host, e.event, now, w.acknowledged);
    ReportsAreDelivered(w.system, at.host, e.event, now, w.reported, w.written);
  }

  // ---------- Steps of the sessions ----------

  lemma MoreAcknowledged(w: World, at: Setting, home: Home, r: RuntimeModel.Runtime, acknowledged: set<Wire>)
    requires AcknowledgedAreHeld(w.acknowledged, w.system.broker.history.accepted, w.receivers, at.home)
    requires forall id :: InboundModel.StoredOrRemembered(Receiver(w, home).log, 0, id) ==> InboundModel.StoredOrRemembered(r.log, 0, id)
    requires forall x :: x in acknowledged && x !in w.acknowledged && x.deliveryId in w.system.broker.history.accepted ==>
      HeldBy(w.receivers[home := r], at.home(x.socket), w.system.broker.history.accepted[x.deliveryId].message)
    ensures AcknowledgedAreHeld(acknowledged, w.system.broker.history.accepted, w.receivers[home := r], at.home)
  {
    hide InboundModel.StoredOrRemembered;
    var receivers' := w.receivers[home := r];
    forall x | x in acknowledged && x.deliveryId in w.system.broker.history.accepted
      ensures HeldBy(receivers', at.home(x.socket), w.system.broker.history.accepted[x.deliveryId].message)
    {
      if x in w.acknowledged {
        assert HeldBy(w.receivers, at.home(x.socket), w.system.broker.history.accepted[x.deliveryId].message);
      }
    }
  }

  lemma ReceiverAgrees(w: World, home: Home)
    requires ReceiversHold(w.receivers)
    ensures RuntimeModel.Agrees(Receiver(w, home)) && "" !in Receiver(w, home).waiters
  {}

  /** A message that replies to nothing is stored by the time it is acknowledged. */
  lemma ArrivalIsHeld(r: RuntimeModel.Runtime, lower: string -> string, e: InboundModel.Entry)
    requires RuntimeModel.Agrees(r) && "" !in r.waiters
    ensures var r' := RuntimeModel.Arrive(r, lower, e).0;
            && RuntimeModel.Agrees(r') && "" !in r'.waiters
            && (e.message.replyTo.None? ==> RuntimeModel.Durable(r'.log.store, e.message.id))
            && (e.message.replyTo.None? ==> InboundModel.StoredOrRemembered(r'.log, 0, e.message.id))
  {
    RuntimeModel.ArriveAgrees(r, lower, e);
    RuntimeModel.StoredBeforeAcknowledged(r, lower, e);
    DurableIsRemembered(RuntimeModel.Arrive(r, lower, e).0, e.message.id);
    hide RuntimeModel.Agrees, RuntimeModel.Awaited, InboundModel.StoredOrRemembered, RuntimeModel.Durable;
  }

  lemma DurableIsRemembered(r: RuntimeModel.Runtime, id: MessageId)
    requires RuntimeModel.Agrees(r)
    ensures RuntimeModel.Durable(r.log.store, id) ==> InboundModel.StoredOrRemembered(r.log, 0, id)
  {
    InboundModel.ByLastUseListsOnce(r.log.remembered);
    hide InboundModel.ByLastUse;
    assert r.log.remembered[0..] == r.log.remembered;
  }

  lemma StillStored(r: RuntimeModel.Runtime, lower: string -> string, change: RuntimeModel.Event)
    ensures forall id :: InboundModel.StoredOrRemembered(r.log, 0, id) ==>
      InboundModel.StoredOrRemembered(RuntimeModel.Step(r, lower, change).log, 0, id)
  {
    forall id | InboundModel.StoredOrRemembered(r.log, 0, id)
      ensures InboundModel.StoredOrRemembered(RuntimeModel.Step(r, lower, change).log, 0, id)
    {
      RuntimeModel.StepKeepsStored(r, lower, change, id, 0);
    }
  }

  lemma ArrivedIsAccepted(w: World, at: Setting, e: Event, now: int)
    requires WiresHold(w.forwarded, w.acknowledged, w.system.broker.history.accepted) && Allowed(w, at, e, now) && e.ArriveE?
    ensures w.system.broker.history.accepted[e.deliveryId].recipientSocket == e.socket
    ensures WiresHold(w.forwarded, w.acknowledged + {Wire(e.socket, e.deliveryId)}, w.system.broker.history.accepted)
  {}

  lemma OneMoreReceiver(receivers: map<Home, RuntimeModel.Runtime>, home: Home, r: RuntimeModel.Runtime)
    requires ReceiversHold(receivers) && RuntimeModel.Agrees(r) && "" !in r.waiters
    ensures ReceiversHold(receivers[home := r])
  {}

  lemma ArriveKeepsSafe(w: World, at: Setting, e: Event, now: int)
    requires Safe(w, at) && Allowed(w, at, e, now) && e.ArriveE?
    ensures Safe(Next(w, at, e, now), at)
  {
    hide BrokerHolds, AcknowledgedAreHeld, DeliveredAreAcknowledged, ReportedAreDelivered, AcceptedWereWritten, SendersHold, ReceiversHold, WiresHold,
      RuntimeModel.Agrees, InboundModel.StoredOrRemembered, RuntimeModel.Arrive, RuntimeModel.Durable, Receiver,
      BrokerSteps.Allowed, BrokerRuns.Next, ReportsOf, Forwarded;
    var home := at.home(e.socket);
    var r, entry := Receiver(w, home), ArrivedEntry(w, e, now);
    var r' := RuntimeModel.Arrive(r, at.host.lower, entry).0;
    ArrivedIsAccepted(w, at, e, now);
    ReceiverAgrees(w, home);
    ArrivalIsHeld(r, at.host.lower, entry);
    StillStored(r, at.host.lower, RuntimeModel.ArriveE(entry));
    OneMoreReceiver(w.receivers, home, r');
    MoreAcknowledged(w, at, home, r', w.acknowledged + {Wire(e.socket, e.deliveryId)});
    MoreIsDelivered(w.system.broker.history, w.acknowledged, w.acknowledged + {Wire(e.socket, e.deliveryId)});
  }

  lemma MoreIsDelivered(h: BrokerModel.History, acknowledged: set<Wire>, more: set<Wire>)
    requires DeliveredAreAcknowledged(h, acknowledged) && acknowledged <= more
    ensures DeliveredAreAcknowledged(h, more)
  {}

  lemma ChangeKeepsWaiters(r: RuntimeModel.Runtime, lower: string -> string, change: RuntimeModel.Event)
    requires "" !in r.waiters && !change.ArriveE? && (change.AskE? ==> change.id != "")
    ensures "" !in RuntimeModel.Step(r, lower, change).waiters
  {}

  lemma ReceiverKeepsSafe(w: World, at: Setting, e: Event, now: int)
    requires Safe(w, at) && Allowed(w, at, e, now) && e.ReceiverE?
    ensures Safe(Next(w, at, e, now), at)
  {
    hide BrokerHolds, WiresHold, AcknowledgedAreHeld, DeliveredAreAcknowledged, ReportedAreDelivered, AcceptedWereWritten, SendersHold, ReceiversHold,
      RuntimeModel.Agrees, InboundModel.StoredOrRemembered, RuntimeModel.Step, Receiver, BrokerSteps.Allowed, BrokerRuns.Next, ReportsOf, Forwarded;
    var r := Receiver(w, e.home);
    ReceiverAgrees(w, e.home);
    RuntimeModel.StepAgrees(r, at.host.lower, e.change);
    ChangeKeepsWaiters(r, at.host.lower, e.change);
    StillStored(r, at.host.lower, e.change);
    OneMoreReceiver(w.receivers, e.home, RuntimeModel.Step(r, at.host.lower, e.change));
    MoreAcknowledged(w, at, e.home, RuntimeModel.Step(r, at.host.lower, e.change), w.acknowledged);
  }

  lemma MoreIsWritten(h: BrokerModel.History, reported: set<Report>, written: set<Written>, more: set<Written>)
    requires AcceptedWereWritten(h.accepted, written) && ReportedAreDelivered(reported, h, written) && written <= more
    ensures AcceptedWereWritten(h.accepted, more) && ReportedAreDelivered(reported, h, more)
  {}

  lemma SenderKeepsSafe(w: World, at: Setting, e: Event, now: int)
    requires Safe(w, at) && Allowed(w, at, e, now) && (e.SenderE? || e.SeeDeliveredE? || e.SeeFailedE?)
    ensures Safe(Next(w, at, e, now), at)
  {
    hide BrokerHolds, WiresHold, AcknowledgedAreHeld, DeliveredAreAcknowledged, ReportedAreDelivered, AcceptedWereWritten, ReceiversHold,
      ClientModel.Disciplined, ClientModel.Step, ClientModel.Answered, WrittenBy;
    FreshIsDisciplined();
    match e
    case SenderE(socket, act) =>
      ClientModel.StepKeeps(Sender(w, at.home(socket)), act);
      MoreIsWritten(w.system.broker.history, w.reported, w.written, Next(w, at, e, now).written);
    case SeeDeliveredE(report) => ClientModel.AnsweredKeeps(Sender(w, at.home(report.socket)), report.key.messageId);
    case SeeFailedE(home, messageId) => ClientModel.AnsweredKeeps(Sender(w, home), messageId);
    case _ =>
  }

  lemma FreshIsDisciplined()
    ensures ClientModel.Disciplined(ClientModel.Fresh(map[]))
  {}

  lemma StepKeepsSafe(w: World, at: Setting, e: Event, now: int)
    requires Safe(w, at) && Allowed(w, at, e, now)
    ensures Safe(Next(w, at, e, now), at)
  {
    hide Safe, Allowed, Next;
    match e
    case BrokerE(_) => BrokerKeepsSafe(w, at, e, now);
    case ArriveE(_, _, _) => ArriveKeepsSafe(w, at, e, now);
    case ReceiverE(_, _) => ReceiverKeepsSafe(w, at, e, now);
    case _ => SenderKeepsSafe(w, at, e, now);
  }

  // ---------- Runs ----------

  datatype Timed = Timed(event: Event, now: int)

  const START := World(BrokerRuns.START, map[], map[], {}, {}, {}, {})

  ghost predicate IsRun(at: Setting, events: seq<Timed>)
    decreases |events|, 0
  {
    events != [] ==>
      var before, last := events[..|events| - 1], events[|events| - 1];
      IsRun(at, before) && Allowed(Run(at, before), at, last.event, last.now)
  }

  ghost function Run(at: Setting, events: seq<Timed>): World
    requires IsRun(at, events)
    decreases |events|, 1
  {
    if events == [] then START
    else
      var before, last := events[..|events| - 1], events[|events| - 1];
      Next(Run(at, before), at, last.event, last.now)
  }

  lemma StartIsSafe(at: Setting)
    ensures Safe(START, at)
  {
    assert BrokerHolds(BrokerRuns.START) by {
      hide BrokerInvariant.Inv, BrokerRuns.RegistryHolds;
      BrokerRuns.StartHolds();
    }
    hide BrokerHolds;
  }

  lemma {:induction false} RunsAreSafe(at: Setting, events: seq<Timed>)
    requires IsRun(at, events)
    ensures Safe(Run(at, events), at)
    decreases |events|
  {
    hide Safe, Next, Allowed;
    if events == [] {
      StartIsSafe(at);
    } else {
      var before, last := events[..|events| - 1], events[|events| - 1];
      RunsAreSafe(at, before);
      StepKeepsSafe(Run(at, before), at, last.event, last.now);
    }
  }

  lemma {:induction false} PrefixIsRun(at: Setting, events: seq<Timed>, n: nat)
    requires IsRun(at, events) && n <= |events|
    ensures IsRun(at, events[..n])
    decreases |events|
  {
    if n < |events| {
      PrefixIsRun(at, events[..|events| - 1], n);
      assert events[..|events| - 1][..n] == events[..n];
    } else {
      assert events[..n] == events;
    }
  }

  /** Step `i` of the run is the arrival of delivery `d` on `socket`. */
  predicate IsArrival(events: seq<Timed>, i: nat, socket: Socket, d: DeliveryId) {
    i < |events| && events[i].event.ArriveE? && events[i].event.socket == socket && events[i].event.deliveryId == d
  }

  lemma OnlyArrivalsAcknowledge(w: World, at: Setting, e: Event, now: int, x: Wire)
    requires Allowed(w, at, e, now) && x !in w.acknowledged && x in Next(w, at, e, now).acknowledged
    ensures e.ArriveE? && e.socket == x.socket && e.deliveryId == x.deliveryId
  {
    hide Allowed, BrokerRuns.Next, RuntimeModel.Arrive, RuntimeModel.Step, ClientModel.Step, ReportsOf, Forwarded;
  }

  /** The first acknowledgement of a delivery follows its first arrival. */
  lemma {:induction false} FirstArrival(at: Setting, events: seq<Timed>, x: Wire) returns (i: nat)
    requires IsRun(at, events) && x in Run(at, events).acknowledged
    ensures IsArrival(events, i, x.socket, x.deliveryId)
    ensures IsRun(at, events[..i]) && x !in Run(at, events[..i]).acknowledged
    decreases |events|
  {
    hide Allowed, Next;
    var n := |events| - 1;
    var before, last := events[..n], events[n];
    if x in Run(at, before).acknowledged {
      i := FirstArrival(at, before, x);
      assert events[..i] == before[..i];
    } else {
      OnlyArrivalsAcknowledge(Run(at, before), at, last.event, last.now, x);
      i := n;
    }
  }

  /** At its arrival a message that replies to nothing is on the receiver's disk. */
  lemma ArrivalStores(at: Setting, events: seq<Timed>, i: nat)
    requires IsRun(at, events) && i < |events| && events[i].event.ArriveE?
    ensures IsRun(at, events[..i]) && IsRun(at, events[..i + 1])
    ensures var e, before, after := events[i].event, Run(at, events[..i]), Run(at, events[..i + 1]);
            && e.deliveryId in before.system.broker.history.accepted && after.system == before.system
            && var m := before.system.broker.history.accepted[e.deliveryId].message;
               m.replyTo.None? ==> RuntimeModel.Durable(Receiver(after, at.home(e.socket)).log.store, m.id)
  {
    PrefixIsRun(at, events, i);
    PrefixIsRun(at, events, i + 1);
    assert events[..i + 1][..i] == events[..i];
    RunsAreSafe(at, events[..i]);
    var before, e, now := Run(at, events[..i]), events[i].event, events[i].now;
    hide IsRun, Run, BrokerSteps.Allowed, BrokerRuns.Next, BrokerHolds, RuntimeModel.Arrive, RuntimeModel.Agrees, RuntimeModel.Durable,
      ReportsOf, Forwarded;
    ReceiverAgrees(before, at.home(e.socket));
    ArrivalIsHeld(Receiver(before, at.home(e.socket)), at.host.lower, ArrivedEntry(before, e, now));
  }

  lemma AcceptedStays(at: Setting, events: seq<Timed>, i: nat, d: DeliveryId)
    requires IsRun(at, events) && i <= |events| && IsRun(at, events[..i])
    requires d in Run(at, events[..i]).system.broker.history.accepted
    ensures var h, later := Run(at, events[..i]).system.broker.history, Run(at, events).system.broker.history;
            d in later.accepted && later.accepted[d] == h.accepted[d]
    decreases |events|
  {
    hide Safe, Next, Allowed;
    if i == |events| {
      assert events[..i] == events;
    } else {
      var before, last := events[..|events| - 1], events[|events| - 1];
      assert before[..i] == events[..i];
      AcceptedStays(at, before, i, d);
      RunsAreSafe(at, before);
      AcceptedStaysOneStep(Run(at, before), at, last.event, last.now, d);
    }
  }

  lemma AcceptedStaysOneStep(w: World, at: Setting, e: Event, now: int, d: DeliveryId)
    requires Safe(w, at) && Allowed(w, at, e, now) && d in w.system.broker.history.accepted
    ensures var later := Next(w, at, e, now).system.broker.history;
            d in later.accepted && later.accepted[d] == w.system.broker.history.accepted[d]
  {
    hide BrokerHolds, BrokerSteps.Allowed, BrokerRuns.Next, RuntimeModel.Arrive, RuntimeModel.Step, ClientModel.Step, ReportsOf, Forwarded;
    if e.BrokerE? { BrokerStepHolds(w.system, at.host, e.event, now); }
  }

  /** Whenever a sender is told that its message was delivered, the message is its own; it
      arrived at the recipient at some step before; nobody had been told of that delivery until
      then; and unless the message was a reply, the recipient had it on disk in that very step,
      before it acknowledged anything. */
  lemma DeliveredMeansStoredFirst(at: Setting, events: seq<Timed>, r: Report) returns (i: nat)
    requires IsRun(at, events) && r in Run(at, events).reported
    ensures r.deliveryId in Run(at, events).system.broker.history.accepted
    ensures var p := Run(at, events).system.broker.history.accepted[r.deliveryId];
            && p.key == r.key && p.message.id == r.key.messageId
            && IsArrival(events, i, p.recipientSocket, r.deliveryId)
            && IsRun(at, events[..i]) && IsRun(at, events[..i + 1])
            && (forall told :: told in Run(at, events[..i]).reported ==> told.deliveryId != r.deliveryId)
            && (p.message.replyTo.None? ==>
              RuntimeModel.Durable(Receiver(Run(at, events[..i + 1]), at.home(p.recipientSocket)).log.store, p.message.id))
  {
    RunsAreSafe(at, events);
    var h := Run(at, events).system.broker.history;
    var d := r.deliveryId;
    hide Run, IsRun, BrokerHolds, ReceiversHold, SendersHold, Allowed, Next, RuntimeModel.Durable;
    assert IsBacked(r, h, Run(at, events).written);
    var p := h.accepted[d];
    AcceptedMatchesKey(Run(at, events).system, d);
    i := FirstArrival(at, events, Wire(p.recipientSocket, d));
    ArrivalStores(at, events, i);
    AcceptedStays(at, events, i, d);
    RunsAreSafe(at, events[..i]);
    forall told | told in Run(at, events[..i]).reported ensures told.deliveryId != d {
      assert IsBacked(told, Run(at, events[..i]).system.broker.history, Run(at, events[..i]).written);
    }
  }

  lemma AcceptedMatchesKey(s: BrokerSteps.System, d: DeliveryId)
    requires BrokerHolds(s) && d in s.broker.history.accepted
    ensures s.broker.history.accepted[d].key.messageId == s.broker.history.accepted[d].message.id
  {
    hide BrokerInvariant.TablesHold, BrokerInvariant.AsksHold, BrokerInvariant.Mirrors, BrokerInvariant.CacheSound, BrokerRuns.RegistryHolds;
    assert BrokerInvariant.WellDescribed(s.broker.history.accepted[d]);
  }

  /** Step `i` is the arrival of delivery `p`, whose message, unless it was a reply, was on the
      recipient's disk at once. */
  ghost predicate ArrivedAndStored(at: Setting, events: seq<Timed>, i: nat, p: BrokerModel.Delivery, d: DeliveryId) {
    && IsArrival(events, i, p.recipientSocket, d) && IsRun(at, events[..i + 1])
    && (p.message.replyTo.None? ==>
      RuntimeModel.Durable(Receiver(Run(at, events[..i + 1]), at.home(p.recipientSocket)).log.store, p.message.id))
  }

  ghost predicate HasArrived(at: Setting, events: seq<Timed>, r: Report)
    requires IsRun(at, events)
  {
    && r.deliveryId in Run(at, events).system.broker.history.accepted
    && var p := Run(at, events).system.broker.history.accepted[r.deliveryId];
       p.message.id == r.key.messageId && exists i :: ArrivedAndStored(at, events, i, p, r.deliveryId)
  }

  lemma ReportedHasArrived(at: Setting, events: seq<Timed>, r: Report)
    requires IsRun(at, events) && r in Run(at, events).reported
    ensures HasArrived(at, events, r)
  {
    hide Run, IsRun, IsArrival, RuntimeModel.Durable;
    var i := DeliveredMeansStoredFirst(at, events, r);
    assert ArrivedAndStored(at, events, i, Run(at, events).system.broker.history.accepted[r.deliveryId], r.deliveryId);
  }

  /** The session has written another message, or to another name, under the id of a queued one. */
  ghost predicate IdWasReused(w: World, at: Setting, home: Home, q: ClientModel.Queued) {
    exists x :: x in w.written && at.home(x.socket) == home && x.message.id == q.message.id && (x.to != q.to || x.message != q.message)
  }

  /** What was delivered under the reported id is the queued message, for the queued name or id. */
  ghost predicate IsOfQueued(w: World, r: Report, q: ClientModel.Queued) {
    && r.deliveryId in w.system.broker.history.accepted
    && var p := w.system.broker.history.accepted[r.deliveryId]; p.message == q.message && p.fingerprint.to == q.to
  }

  /** A queued message leaves its outbox in three ways only: the sender is told that it was
      delivered, that message and no other unless the session has used the id twice, and then the
      recipient stored it before; the sender is told that it failed; or the session disconnects
      without keeping its messages. */
  lemma QueuedMessageIsNotLost(at: Setting, events: seq<Timed>, home: Home, session: ClientModel.SessionId, q: ClientModel.Queued)
    requires IsRun(at, events) && events != []
    requires var before := events[..|events| - 1];
             IsRun(at, before) && q in ClientModel.OnFile(Sender(Run(at, before), home), session)
    requires q !in ClientModel.OnFile(Sender(Run(at, events), home), session)
    ensures var e := events[|events| - 1].event;
            || (e.SeeDeliveredE? && at.home(e.report.socket) == home && HasArrived(at, events, e.report)
                && (IsOfQueued(Run(at, events), e.report, q) || IdWasReused(Run(at, events), at, home, q)))
            || e == SeeFailedE(home, q.message.id)
            || (e.SenderE? && at.home(e.socket) == home && e.act == ClientModel.DisconnectE(false))
  {
    hide Safe, Next, Allowed, HasArrived, Sender, ClientModel.OnFile;
    var before, last := Run(at, events[..|events| - 1]), events[|events| - 1];
    RunsAreSafe(at, events[..|events| - 1]);
    SenderIsDisciplined(before, at, home);
    SenderStep(before, at, last.event, last.now, home, session, q);
    if last.event.SeeDeliveredE? {
      ReportsStay(before, at, last.event, last.now);
      ReportedHasArrived(at, events, last.event.report);
      RunsAreSafe(at, events);
      hide Run, IsRun;
      ReportIsOfQueued(Run(at, events), at, last.event.report, home, q);
    }
  }

  lemma ReportIsOfQueued(w: World, at: Setting, r: Report, home: Home, q: ClientModel.Queued)
    requires Safe(w, at) && r in w.reported && at.home(r.socket) == home && r.key.messageId == q.message.id
    ensures IsOfQueued(w, r, q) || IdWasReused(w, at, home, q)
  {
    hide BrokerHolds, WiresHold, AcknowledgedAreHeld, DeliveredAreAcknowledged, ReceiversHold, SendersHold, AcceptedWereWritten;
    assert IsBacked(r, w.system.broker.history, w.written);
    AcceptedMatchesKey(w.system, r.deliveryId);
    var p := w.system.broker.history.accepted[r.deliveryId];
    var x := Written(r.socket, p.fingerprint.to, p.message);
    assert x in w.written && x.message.id == q.message.id;
  }

  lemma ReportsStay(w: World, at: Setting, e: Event, now: int)
    requires Allowed(w, at, e, now)
    ensures w.reported <= Next(w, at, e, now).reported
  {
    hide Allowed, BrokerRuns.Next, RuntimeModel.Arrive, RuntimeModel.Step, ClientModel.Step, ReportsOf, Forwarded;
  }

  lemma SenderIsDisciplined(w: World, at: Setting, home: Home)
    requires Safe(w, at)
    ensures ClientModel.Disciplined(Sender(w, home))
  {
    hide BrokerHolds, ReceiversHold;
  }

  lemma SenderStep(w: World, at: Setting, e: Event, now: int, home: Home, session: ClientModel.SessionId, q: ClientModel.Queued)
    requires Allowed(w, at, e, now) && ClientModel.Disciplined(Sender(w, home))
    requires q in ClientModel.OnFile(Sender(w, home), session) && q !in ClientModel.OnFile(Sender(Next(w, at, e, now), home), session)
    ensures || (e.SeeDeliveredE? && e.report in w.reported && at.home(e.report.socket) == home && e.report.key.messageId == q.message.id)
            || e == SeeFailedE(home, q.message.id)
            || (e.SenderE? && at.home(e.socket) == home && e.act == ClientModel.DisconnectE(false))
  {
    hide BrokerSteps.Allowed, BrokerRuns.Next, RuntimeModel.Arrive, RuntimeModel.Step, ReportsOf, Forwarded, ClientModel.Disciplined,
      ClientModel.Answered, ClientModel.Disconnect, WrittenBy;
    var c := Sender(w, home);
    match e
    case SenderE(socket, act) =>
      if at.home(socket) == home { ClientModel.QueuedUntilAnswered(c, act, session, q); }
    case SeeDeliveredE(report) => ClientModel.QueuedUntilAnswered(c, ClientModel.AnsweredE(report.key.messageId), session, q);
    case SeeFailedE(h, messageId) => ClientModel.QueuedUntilAnswered(c, ClientModel.AnsweredE(messageId), session, q);
    case _ =>
  }

  // ---------- What is stored is what was sent ----------

  /** The message is that of an accepted delivery. */
  ghost predicate WasAccepted(m: Message, accepted: Accepted) {
    exists d :: d in accepted && accepted[d].message == m
  }

  ghost predicate StoredWereAccepted(store: InboundModel.Inbound, accepted: Accepted) {
    forall id :: id in store.records ==> WasAccepted(store.records[id].entry.message, accepted)
  }

  ghost predicate AllStoredWereAccepted(w: World) {
    forall home :: home in w.receivers ==> StoredWereAccepted(w.receivers[home].log.store, w.system.broker.history.accepted)
  }

  lemma AcceptedStaysAccepted(w: World, system: BrokerSteps.System)
    requires AllStoredWereAccepted(w) && BrokerRuns.HistoryGrows(w.system.broker.history, system.broker.history)
    ensures AllStoredWereAccepted(w.(system := system))
  {
    forall home, id | home in w.receivers && id in w.receivers[home].log.store.records
      ensures WasAccepted(w.receivers[home].log.store.records[id].entry.message, system.broker.history.accepted)
    {
      var h := w.system.broker.history;
      assert WasAccepted(w.receivers[home].log.store.records[id].entry.message, h.accepted);
      var d :| d in h.accepted && h.accepted[d].message == w.receivers[home].log.store.records[id].entry.message;
    }
  }

  lemma ChangeStoresNothing(r: RuntimeModel.Runtime, lower: string -> string, change: RuntimeModel.Event, accepted: Accepted)
    requires StoredWereAccepted(r.log.store, accepted)
    requires change.ArriveE? ==> WasAccepted(change.entry.message, accepted)
    ensures StoredWereAccepted(RuntimeModel.Step(r, lower, change).log.store, accepted)
  {
    hide WasAccepted, InboundModel.Remember, RuntimeModel.Awaited;
  }

  lemma StepKeepsStored(w: World, at: Setting, e: Event, now: int)
    requires Safe(w, at) && Allowed(w, at, e, now) && AllStoredWereAccepted(w)
    ensures AllStoredWereAccepted(Next(w, at, e, now))
  {
    hide BrokerHolds, WiresHold, AcknowledgedAreHeld, DeliveredAreAcknowledged, ReportedAreDelivered, ReceiversHold, SendersHold,
      BrokerSteps.Allowed, BrokerRuns.Next, ReportsOf, Forwarded, WasAccepted, StoredWereAccepted, RuntimeModel.Step, RuntimeModel.Arrive,
      ClientModel.Step, ClientModel.Answered, BrokerRuns.HistoryGrows;
    NothingStored(w.system.broker.history.accepted);
    match e
    case BrokerE(event) =>
      BrokerStepHolds(w.system, at.host, event, now);
      AcceptedStaysAccepted(w, BrokerRuns.Next(w.system, at.host, event, now));
    case ArriveE(socket, d, _) =>
      var entry := ArrivedEntry(w, e, now);
      ItsMessageWasAccepted(d, w.system.broker.history.accepted);
      ChangeStoresNothing(Receiver(w, at.home(socket)), at.host.lower, RuntimeModel.ArriveE(entry), w.system.broker.history.accepted);
      ArrivalIsAStep(Receiver(w, at.home(socket)), at.host.lower, entry);
    case ReceiverE(home, change) =>
      ChangeStoresNothing(Receiver(w, home), at.host.lower, change, w.system.broker.history.accepted);
    case _ =>
  }

  lemma NothingStored(accepted: Accepted)
    ensures StoredWereAccepted(RuntimeModel.START.log.store, accepted)
  {}

  lemma ItsMessageWasAccepted(d: DeliveryId, accepted: Accepted)
    requires d in accepted
    ensures WasAccepted(accepted[d].message, accepted)
  {}

  lemma ArrivalIsAStep(r: RuntimeModel.Runtime, lower: string -> string, e: InboundModel.Entry)
    ensures RuntimeModel.Step(r, lower, RuntimeModel.ArriveE(e)) == RuntimeModel.Arrive(r, lower, e).0
  {
    hide RuntimeModel.Arrive;
  }

  lemma {:induction false} RunsStoreWhatWasAccepted(at: Setting, events: seq<Timed>)
    requires IsRun(at, events)
    ensures AllStoredWereAccepted(Run(at, events))
    decreases |events|
  {
    hide Safe, Next, Allowed, StoredWereAccepted;
    if events != [] {
      var before, last := events[..|events| - 1], events[|events| - 1];
      RunsStoreWhatWasAccepted(at, before);
      RunsAreSafe(at, before);
      StepKeepsStored(Run(at, before), at, last.event, last.now);
    }
  }

  /** Messages that were accepted under one id are one message. */
  ghost predicate UniqueMessages(accepted: Accepted) {
    forall d, x :: d in accepted && x in accepted && accepted[d].message.id == accepted[x].message.id ==> accepted[d].message == accepted[x].message
  }

  /** If message ids are unique across senders, the record that a receiver keeps under the id of
      a delivered message holds that message and no other. */
  lemma StoredIsWhatWasSent(at: Setting, events: seq<Timed>, d: DeliveryId, home: Home)
    requires IsRun(at, events) && UniqueMessages(Run(at, events).system.broker.history.accepted)
    requires d in Run(at, events).system.broker.history.accepted
    ensures var m := Run(at, events).system.broker.history.accepted[d].message;
            var records := Receiver(Run(at, events), home).log.store.records;
            m.id in records ==> records[m.id].entry.message == m
  {
    RunsStoreWhatWasAccepted(at, events);
    RunsAreSafe(at, events);
    var w := Run(at, events);
    hide Run, IsRun, BrokerHolds, WiresHold, AcknowledgedAreHeld, DeliveredAreAcknowledged, ReportedAreDelivered, SendersHold;
    var accepted := w.system.broker.history.accepted;
    var m, records := accepted[d].message, Receiver(w, home).log.store.records;
    if m.id in records {
      assert RuntimeModel.Agrees(w.receivers[home]) && records[m.id].entry.message.id == m.id;
      assert WasAccepted(records[m.id].entry.message, accepted);
      var x :| x in accepted && accepted[x].message == records[m.id].entry.message;
    }
  }
}
