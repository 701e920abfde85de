/** What deferring, cancelling, expiry and a restart do to the asks, and to nothing else. */
module AskEffects {

  import opened Forest
  import opened Messages
  import opened BrokerModel
  import opened BrokerInvariant
  import opened BrokerSteps
  import opened Entitlement
  import opened DeliveryEffects

  /** Only the asks have changed, and the disk has them as they are now. */
  ghost predicate OnlyAsksChange(b: Broker, edges: map<Key, AskEdge>, b': Broker) {
    && SamePeople(b, b') && b'.pending == b.pending && b'.pendingKeys == b.pendingKeys && b'.recent == b.recent
    && b'.edges == edges && b'.disk == edges && b'.history.accepted == b.history.accepted
  }

  /** Nobody who may speak is at the other end of the socket. */
  ghost predicate IsMute(b: Broker, socket: Socket, now: int) {
    forall id :: !Speaks(b, socket, id, now)
  }

  lemma MuteExactly(b: Broker, socket: Socket, now: int)
    ensures IsMute(b, socket, now) <==> Speaker(b, socket, now).None?
  {
    hide Speaks, Speaker;
    forall id { SpeakerExactly(b, socket, id, now); }
    if Speaker(b, socket, now).Some? { SpeakerExactly(b, socket, Speaker(b, socket, now).value, now); }
  }

  lemma KeysAreFrom(b: Broker, k: Key)
    requires Inv(b) && k in b.edges
    ensures b.edges[k].from == k.from
  {
    hide TablesHold, RecordsHold, Mirrors, Carried, BlockingOnSockets, MutualWaitsResolve;
  }

  /** An asker takes back its ask, blocking or deferred, if it does so on its current socket:
      then the ask is gone, in memory and on disk. Nothing else is ever changed by cancelling. */
  lemma CancellingDecides(b: Broker, host: Host, socket: Socket, asker: Id, messageId: MessageId, now: int)
    requires Inv(b)
    ensures var b' := Step(b, host, CancelAskE(socket, messageId), now); var k := Key(asker, messageId);
            && (Speaks(b, socket, asker, now) ==>
              if k in b.edges && b.sessions[asker].socket == socket then OnlyAsksChange(b, b.edges - {k}, b') else b' == b)
            && (IsMute(b, socket, now) ==> b' == b)
  {
    hide Inv, Speaks, Speaker, IsMute;
    SpeakerExactly(b, socket, asker, now);
    MuteExactly(b, socket, now);
    if Key(asker, messageId) in b.edges { KeysAreFrom(b, Key(asker, messageId)); }
  }

  /** An asker whose wait is over leaves its ask open, on whichever socket it says so: a blocking
      ask becomes a deferred one, and nothing else changes. */
  lemma DeferringDecides(b: Broker, host: Host, socket: Socket, asker: Id, messageId: MessageId, now: int)
    requires Inv(b)
    ensures var b' := Step(b, host, DeferAskE(socket, messageId), now); var k := Key(asker, messageId);
            && (Speaks(b, socket, asker, now) ==>
              if k in b.edges && b.edges[k].state == Blocking then OnlyAsksChange(b, b.edges[k := b.edges[k].(state := Deferred)], b') else b' == b)
            && (IsMute(b, socket, now) ==> b' == b)
  {
    hide Inv, Speaks, Speaker, IsMute;
    SpeakerExactly(b, socket, asker, now);
    MuteExactly(b, socket, now);
    if Key(asker, messageId) in b.edges { KeysAreFrom(b, Key(asker, messageId)); }
  }

  /** An ask whose time is over is gone; before that its timer does nothing. */
  lemma ExpiryDecides(b: Broker, host: Host, k: Key, now: int)
    ensures var b' := Step(b, host, AskExpiryE(k), now);
            if k in b.edges && b.edges[k].expiresAt <= now then OnlyAsksChange(b, b.edges - {k}, b') else b' == b
  {
    hide RegisterLocal;
  }

  /** A new broker knows the principals and the unexpired asks of the old one, all of them
      deferred, and no connection, session, delivery or recent answer. */
  lemma RestartKeepsAsksOnly(b: Broker, host: Host, now: int)
    requires Inv(b)
    ensures var b' := Step(b, host, RestartE, now);
            && b'.registry == b.registry && b'.connections == map[] && b'.sessions == map[]
            && b'.pending == map[] && b'.pendingKeys == map[] && b'.recent == map[]
            && (forall k :: k in b'.edges <==> k in b.edges && now < b.edges[k].expiresAt)
            && (forall k :: k in b'.edges ==> b'.edges[k] == b.edges[k].(state := Deferred))
            && b'.disk == b'.edges
  {
    TablesOf(b);
    hide Inv;
  }
}
