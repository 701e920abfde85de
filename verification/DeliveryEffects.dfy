/** What the end of a delivery does to every table, and which receipts, rejections and time-outs
    end one. */
module DeliveryEffects {

  import opened Wrappers
  import opened Messages
  import opened BrokerModel
  import opened BrokerInvariant
  import opened Entitlement

  ghost predicate SamePeople(b: Broker, b': Broker) {
    b'.registry == b.registry && b'.connections == b.connections && b'.sessions == b.sessions
  }

  /** What is remembered of a delivery for ten minutes. */
  function Remembrance(p: Delivery, retryable: bool, response: Response, now: int): Recent {
    Recent(p.fingerprint, p.from, p.to, p.action, p.fromGeneration, p.toGeneration, retryable, response, now + 600_000)
  }

  /** Delivery `d` is over as failed: an ask it carried is gone, and its sender may try again. */
  ghost predicate HasFailed(b: Broker, d: DeliveryId, code: FailureCode, now: int, b': Broker)
    requires d in b.pending
  {
    var p := b.pending[d];
    && SamePeople(b, b')
    && b'.pending == b.pending - {d} && b'.pendingKeys == b.pendingKeys - {p.key}
    && b'.edges == (if p.message.expectsReply == Some(true) then b.edges - {p.key} else b.edges) && b'.disk == b'.edges
    && b'.recent == b.recent[p.key := Remembrance(p, true, DeliveryFailed(code), now)]
    && b'.history.accepted == b.history.accepted
    && b'.history.delivered == b.history.delivered && b'.history.failed == b.history.failed + {d}
  }

  /** Delivery `d` is over as delivered: an ask that it replies to is gone. */
  ghost predicate HasSucceeded(b: Broker, d: DeliveryId, now: int, b': Broker)
    requires d in b.pending
  {
    var p := b.pending[d];
    && SamePeople(b, b')
    && b'.pending == b.pending - {d} && b'.pendingKeys == b.pendingKeys - {p.key}
    && b'.edges == (if p.message.replyTo.Some? then b.edges - {Key(p.to, p.message.replyTo.value)} else b.edges) && b'.disk == b'.edges
    && b'.recent == b.recent[p.key := Remembrance(p, false, Delivered(d), now)]
    && b'.history.accepted == b.history.accepted
    && b'.history.delivered == b.history.delivered + {d} && b'.history.failed == b.history.failed
  }

  lemma FailingKeys(b: Broker, d: DeliveryId)
    requires Indexed(b.pending, b.pendingKeys) && d in b.pending
    ensures Failing(b, {d}) == {b.pending[d].key}
    ensures FailingAsks(b, {d}) == if b.pending[d].message.expectsReply == Some(true) then {b.pending[d].key} else {}
  {}

  lemma FailingAnswer(b: Broker, d: DeliveryId, code: FailureCode, now: int)
    requires Indexed(b.pending, b.pendingKeys) && d in b.pending
    ensures b.recent + FailureAnswers(b, {d}, _ => code, now) ==
            b.recent[b.pending[d].key := Remembrance(b.pending[d], true, DeliveryFailed(code), now)]
  {
    FailingKeys(b, d);
    assert b.pendingKeys[b.pending[d].key] == d;
    hide Failing, Indexed;
  }

  lemma NothingRemoved<K, V>(m: map<K, V>)
    ensures m - {} == m
  {}

  lemma FailingOne(b: Broker, d: DeliveryId, code: FailureCode, now: int)
    requires Inv(b) && d in b.pending
    ensures HasFailed(b, d, code, now, FailDelivery(b, d, code, now))
  {
    hide Inv, Indexed, Mirrors, Failing, FailingAsks, FailureAnswers, Remembrance;
    TablesOf(b);
    FailingKeys(b, d);
    FailingAnswer(b, d, code, now);
    NothingRemoved(b.edges);
    assert {d} * b.pending.Keys == {d};
  }

  lemma DeliveringOne(b: Broker, d: DeliveryId, now: int)
    requires Inv(b) && d in b.pending
    ensures HasSucceeded(b, d, now, Acknowledge(b, d, now))
  {
    hide Inv, Indexed, Mirrors;
    TablesOf(b);
  }

  // ---------- Receipts ----------

  /** The recipient of pending delivery `d` answers for it on the socket it was written to. */
  predicate IsAnswered(b: Broker, socket: Socket, d: DeliveryId, now: int) {
    d in b.pending && b.pending[d].recipientSocket == socket && Entitled(b, b.pending[d].to, now)
  }

  /** A pending delivery was written to the socket that speaks for its recipient. */
  lemma RecipientSpeaks(b: Broker, socket: Socket, d: DeliveryId, now: int)
    requires Inv(b) && d in b.pending
    ensures b.pending[d].recipientSocket == socket ==> (Speaker(b, socket, now) == Some(b.pending[d].to) <==> Entitled(b, b.pending[d].to, now))
  {
    hide RecordsHold, AsksHold, Mirrors, Indexed, Capped, Entitled;
    SpeakerExactly(b, socket, b.pending[d].to, now);
  }

  /** A receipt counts if and only if the recipient gives it on the socket its copy was written
      to. Then the sender is told of the delivery if it may still reach the recipient, and of a
      failure if not; every other receipt changes nothing. */
  lemma ReceiptDecides(b: Broker, host: Host, socket: Socket, d: DeliveryId, now: int)
    requires Inv(b)
    ensures var (b', receipt) := MessageReceived(b, host, socket, d, now);
            && (receipt == Ignored <==> !IsAnswered(b, socket, d, now))
            && (receipt == Ignored ==> b' == b)
            && (receipt != Ignored ==>
              var p := b.pending[d];
              && (receipt == ReportedDelivered <==> MayStillReach(b, host, p.from, p.to, p.action, p.fromGeneration, p.toGeneration, now))
              && (receipt == ReportedDelivered ==> HasSucceeded(b, d, now, b'))
              && (receipt == ReportedFailed ==> HasFailed(b, d, SessionNotFound, now, b')))
  {
    hide Inv, Speaker, StillAuthorized, MayStillReach, Entitled, HasFailed, HasSucceeded, FailAll, Acknowledge;
    if d in b.pending {
      var p := b.pending[d];
      RecipientSpeaks(b, socket, d, now);
      FailingOne(b, d, SessionNotFound, now);
      DeliveringOne(b, d, now);
      StillReachExactly(b, host, p.from, p.to, p.action, p.fromGeneration, p.toGeneration, now);
    }
  }

  /** A rejection counts like a receipt, and the sender is told of a conflict. */
  lemma RejectionDecides(b: Broker, socket: Socket, d: DeliveryId, now: int)
    requires Inv(b)
    ensures var b' := MessageRejected(b, socket, d, now);
            if IsAnswered(b, socket, d, now) then HasFailed(b, d, ConflictingMessageId, now, b') else b' == b
  {
    hide Inv, Speaker, Entitled, HasFailed, FailAll;
    if d in b.pending {
      RecipientSpeaks(b, socket, d, now);
      FailingOne(b, d, ConflictingMessageId, now);
    }
  }

  lemma TimeoutDecides(b: Broker, d: DeliveryId, now: int)
    requires Inv(b)
    ensures var b' := DeliveryTimedOut(b, d, now);
            if d in b.pending then HasFailed(b, d, DeliveryTimeout, now, b') else b' == b
  {
    hide Inv, HasFailed, FailAll;
    if d in b.pending { FailingOne(b, d, DeliveryTimeout, now); }
  }

  /** When the asker acknowledges a reply on its socket, and the one who replied may still reach
      it, the reply is reported delivered and the ask is over, in memory and on disk, whether it
      was blocking or deferred. */
  lemma AcknowledgedReplyEndsAsk(b: Broker, host: Host, socket: Socket, d: DeliveryId, now: int)
    requires Inv(b) && IsAnswered(b, socket, d, now) && b.pending[d].message.replyTo.Some?
    requires var p := b.pending[d]; MayStillReach(b, host, p.from, p.to, p.action, p.fromGeneration, p.toGeneration, now)
    ensures var (b', receipt) := MessageReceived(b, host, socket, d, now);
            var ask := Key(b.pending[d].to, b.pending[d].message.replyTo.value);
            && receipt == ReportedDelivered && d in b'.history.delivered
            && b'.edges == b'.disk == b.edges - {ask}
  {
    ReceiptDecides(b, host, socket, d, now);
    hide Inv, IsAnswered, MessageReceived, MayStillReach;
  }
}
