/** Exactly when a sender is told that its message was delivered. */
module Reports {

  import opened Messages
  import opened Forest
  import opened BrokerModel
  import BrokerInvariant
  import BrokerSteps
  import opened Entitlement
  import DeliveryEffects
  import SendDecision
  import EndToEnd

  /** A pending delivery was sent from the socket its sender is on. */
  lemma SenderIsThere(b: Broker, d: DeliveryId)
    requires BrokerInvariant.Inv(b) && d in b.pending
    ensures b.pending[d].from in b.sessions && b.sessions[b.pending[d].from].socket == b.pending[d].senderSocket
  {
    hide BrokerInvariant.RecordsHold, BrokerInvariant.AsksHold, BrokerInvariant.Mirrors, BrokerInvariant.Indexed, BrokerInvariant.Capped,
      BrokerInvariant.Bound;
  }

  /** A receipt reports to the sender, on the socket it sent from, if the recipient gave it and
      the sender may still reach it. */
  lemma ReceiptReports(b: Broker, host: Host, socket: Socket, d: DeliveryId, now: int, r: EndToEnd.Report)
    requires BrokerInvariant.Inv(b)
    ensures r in EndToEnd.ReportsOf(b, host, BrokerSteps.ReceivedE(socket, d), now) <==>
            && DeliveryEffects.IsAnswered(b, socket, d, now)
            && (var p := b.pending[d];
                && MayStillReach(b, host, p.from, p.to, p.action, p.fromGeneration, p.toGeneration, now)
                && r == EndToEnd.Report(p.senderSocket, p.key, d))
  {
    hide BrokerInvariant.Inv, MayStillReach, MessageReceived, Entitled, DeliveryEffects.HasSucceeded, DeliveryEffects.HasFailed;
    DeliveryEffects.ReceiptDecides(b, host, socket, d, now);
    if d in b.pending { SenderIsThere(b, d); }
  }

  /** A send reports to its own socket if the very message has been delivered before. */
  lemma ResendReports(b: Broker, host: Host, socket: Socket, from: Id, to: string, m: Message, d: DeliveryId, now: int, first: DeliveryId)
    requires BrokerInvariant.Inv(b) && Speaks(b, socket, from, now)
    ensures EndToEnd.Report(socket, Key(from, m.id), first) in EndToEnd.ReportsOf(b, host, BrokerSteps.SendE(socket, to, m, d), now) <==>
            SendDecision.WasDelivered(b, host, Key(from, m.id), to, m, first, now)
    ensures forall r :: r in EndToEnd.ReportsOf(b, host, BrokerSteps.SendE(socket, to, m, d), now) ==> r.socket == socket && r.key == Key(from, m.id)
  {
    hide BrokerInvariant.Inv, Speaks, Speaker, Send, SendDecision.WasDelivered, SendDecision.OnItsWay, SendDecision.Open, SendDecision.Clashes,
      SendDecision.MayGoOut, SendDecision.Refuses;
    SpeakerExactly(b, socket, from, now);
    SendDecision.SendDecides(b, host, socket, from, to, m, d, now, Replayed(Delivered(first)));
  }

  /** Nothing but a receipt and a send reports anything. */
  lemma OtherStepsReportNothing(b: Broker, host: Host, e: BrokerSteps.Event, now: int)
    ensures !e.ReceivedE? && !e.SendE? ==> EndToEnd.ReportsOf(b, host, e, now) == {}
  {
    hide MessageReceived, Send, Speaker;
  }
}
