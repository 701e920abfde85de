/** When a client's send goes out and what every event does to the queue and to the sends that
    wait, read off the client's fields. */
module ClientEffects {

  import opened Wrappers
  import opened Messages
  import opened ClientModel

  /** The queue of the open outbox, as it is on disk. */
  function Queue(c: Client): seq<Queued> {
    if c.outboxOf.Some? && c.outboxOf.value in c.files then c.files[c.outboxOf.value] else []
  }

  /** The client is registered, on a connection that it is not giving up and that takes data. */
  predicate IsActive(c: Client, writable: bool) {
    c.connected && !c.disconnecting && c.sessionId.Some? && writable
  }

  predicate IsKnown(c: Client, id: MessageId) {
    exists q :: q in Queue(c) && q.message.id == id
  }

  /** Something else is queued under the id of the message. */
  predicate Conflicts(c: Client, to: string, m: Message) {
    exists q :: q in Queue(c) && q.message.id == m.id &&
      (q.to != to || q.message.replyTo != m.replyTo || q.message.expectsReply != m.expectsReply || q.message.content != m.content)
  }

  /** Why a client refuses to send, if it does. */
  ghost predicate IsRefused(c: Client, to: string, m: Message, writable: bool, outcome: SendOutcome) {
    match outcome
    case NotActive => !IsActive(c, writable)
    case AlreadyPending => IsActive(c, writable) && m.id in c.pendingSends
    case PayloadConflict => IsActive(c, writable) && m.id !in c.pendingSends && Conflicts(c, to, m)
    case OutboxFull => IsActive(c, writable) && m.id !in c.pendingSends && !IsKnown(c, m.id) && |Queue(c)| == 256
    case _ => false
  }

  ghost predicate MayBeSent(c: Client, to: string, m: Message, writable: bool) {
    IsActive(c, writable) && m.id !in c.pendingSends && if IsKnown(c, m.id) then !Conflicts(c, to, m) else |Queue(c)| < 256
  }

  /** The client is the same but for its queue and the sends that wait. */
  ghost predicate HasQueue(c: Client, queue: seq<Queued>, waiting: map<MessageId, PendingSend>, c': Client) {
    && Queue(c') == queue && c'.pendingSends == waiting && c'.outboxOf == c.outboxOf && c'.sessionId == c.sessionId
    && c'.connected == c.connected && c'.disconnecting == c.disconnecting
    && (forall id :: id in c'.files && Some(id) != c.outboxOf <==> id in c.files && Some(id) != c.outboxOf)
    && (forall id :: id in c'.files && Some(id) != c.outboxOf ==> c'.files[id] == c.files[id])
  }

  lemma QueueExactly(c: Client)
    ensures Outbox(c) == Queue(c)
  {}

  /** A queue holds at most one message under an id. */
  lemma FindDecides(q: seq<Queued>, to: string, m: Message)
    requires IsOutbox(q)
    ensures Find(q, m.id).Some? <==> exists e :: e in q && e.message.id == m.id
    ensures (Find(q, m.id).Some? && FingerprintOf(Find(q, m.id).value.to, Find(q, m.id).value.message) != FingerprintOf(to, m)) <==>
            exists e :: e in q && e.message.id == m.id &&
              (e.to != to || e.message.replyTo != m.replyTo || e.message.expectsReply != m.expectsReply || e.message.content != m.content)
  {
    FindIsExact(q, m.id);
    hide Find;
    forall e, x | e in q && x in q && e.message.id == x.message.id ensures e == x {}
  }

  lemma SizeOf(q: seq<Queued>)
    requires IsOutbox(q)
    ensures |q| <= 256
  {}

  lemma QueueingExactly(c: Client, queue: seq<Queued>, waiting: map<MessageId, PendingSend>)
    requires c.outboxOf.Some?
    ensures HasQueue(c, queue, waiting, WithOutbox(c, queue).(pendingSends := waiting))
    ensures HasQueue(c, queue, c.pendingSends, WithOutbox(c, queue))
  {}

  /** A send is refused for exactly one reason, the first of four that holds; otherwise the message
      is queued unless it is already, and written if the socket takes it, and only then its
      answer is waited for. Other sends that wait make no difference. */
  lemma SendDecides(c: Client, to: string, m: Message, now: int, writable: bool, writes: bool, outcome: SendOutcome)
    requires Disciplined(c)
    ensures var (c', answer) := Send(c, to, m, now, writable, writes);
            var queue := if IsKnown(c, m.id) then Queue(c) else Queue(c) + [Queued(to, m, now)];
            && (answer == outcome && outcome != Written && outcome != WriteFailed <==> IsRefused(c, to, m, writable, outcome))
            && (answer == Written || answer == WriteFailed <==> MayBeSent(c, to, m, writable))
            && (!MayBeSent(c, to, m, writable) ==> c' == c)
            && (MayBeSent(c, to, m, writable) && writes ==>
              answer == Written && HasQueue(c, queue, c.pendingSends[m.id := PendingSend(false, None)], c'))
            && (MayBeSent(c, to, m, writable) && !writes ==> answer == WriteFailed && HasQueue(c, queue, c.pendingSends, c'))
  {
    hide IsOutbox, IdsOf, Queue, WithOutbox, HasQueue, Find, FingerprintOf;
    OutboxIsOutbox(c);
    QueueExactly(c);
    SizeOf(Queue(c));
    FindDecides(Queue(c), to, m);
    if c.outboxOf.Some? {
      var q := Enqueue(Queue(c), to, m, now).0;
      QueueingExactly(c, q, c.pendingSends[m.id := PendingSend(false, None)]);
    }
  }

  lemma RemovingExactly(q: seq<Queued>, id: MessageId, i: nat)
    requires IsOutbox(q)
    ensures i < |q| && q[i].message.id == id ==> Remove(q, id) == q[..i] + q[i + 1..]
    ensures (forall e :: e in q ==> e.message.id != id) ==> Remove(q, id) == q
  {
    if i < |q| && q[i].message.id == id { RemoveKeepsOrder(q, id, i); }
    if forall e :: e in q ==> e.message.id != id { RemoveAbsent(q, id); }
  }

  /** A final answer, whether or not its caller still waits, takes exactly its message out of the
      queue and leaves all others in their order; without a session it changes nothing. */
  lemma AnswerDecides(c: Client, id: MessageId, i: nat)
    requires Disciplined(c)
    ensures var c' := Step(c, AnsweredE(id));
            && (c.sessionId.None? ==> c' == c)
            && (c.sessionId.Some? && i < |Queue(c)| && Queue(c)[i].message.id == id ==>
              HasQueue(c, Queue(c)[..i] + Queue(c)[i + 1..], c.pendingSends - {id}, c'))
            && (c.sessionId.Some? && !IsKnown(c, id) ==> HasQueue(c, Queue(c), c.pendingSends - {id}, c'))
  {
    hide IsOutbox, IdsOf, Queue, WithOutbox, HasQueue, Remove;
    OutboxIsOutbox(c);
    QueueExactly(c);
    RemovingExactly(Queue(c), id, i);
    if c.sessionId.Some? { QueueingExactly(c, Remove(Queue(c), id), c.pendingSends - {id}); }
  }

  /** Registering opens the outbox of the session it gives; being told that a message was accepted
      marks its send, if that is still waited for; a time-out ends the wait for one message, the
      end of a connection ends every wait, and none of these touches a queue. */
  lemma OtherEventsDecide(c: Client, id: SessionId, count: nat, messageId: MessageId, d: DeliveryId)
    requires Disciplined(c)
    ensures Step(c, ConnectE) == c.(connected := true)
    ensures Step(c, RegisteredE(id, count)) ==
            if c.connected && c.sessionId == None then c.(sessionId := Some(id), outboxOf := Some(id)) else c
    ensures Step(c, AcceptedE(messageId, d)) ==
            if messageId in c.pendingSends then c.(pendingSends := c.pendingSends[messageId := PendingSend(true, Some(d))]) else c
    ensures Step(c, SendTimeoutE(messageId)) == c.(pendingSends := c.pendingSends - {messageId})
    ensures Step(c, ClosedE) == c.(connected := false, disconnecting := false, sessionId := None, pendingSends := map[])
    ensures Step(c, ConnectFailedE) == if c.sessionId == None then c.(connected := false) else c
    ensures Step(c, ExitE) == Client(false, false, None, map[], None, c.files)
  {
    hide IsOutbox, IdsOf;
  }

  /** Giving the connection up ends every wait too, and empties the queue unless it is to be kept. */
  lemma DisconnectingDecides(c: Client, preserveAsks: bool)
    ensures var c' := Step(c, DisconnectE(preserveAsks));
            && (!c.connected ==> c' == c)
            && (c.connected ==> c'.disconnecting)
            && (c.connected && preserveAsks ==> c' == c.(disconnecting := true, pendingSends := map[]))
            && (c.connected && !preserveAsks ==> HasQueue(c, [], map[], c'.(disconnecting := c.disconnecting)))
  {
    hide IsOutbox, IdsOf;
  }

  /** The queued messages whose answer nobody waits for, in their order. */
  function Unsent(q: seq<Queued>, waiting: set<MessageId>): seq<Queued> {
    if q == [] then [] else (if q[0].message.id in waiting then [] else [q[0]]) + Unsent(q[1..], waiting)
  }

  lemma {:induction false} UnsentMembers(q: seq<Queued>, waiting: set<MessageId>)
    ensures forall e :: e in Unsent(q, waiting) <==> e in q && e.message.id !in waiting
  {
    if q != [] {
      UnsentMembers(q[1..], waiting);
      assert q == [q[0]] + q[1..];
    }
  }

  lemma {:induction false} ReplayTakes(c: Client, q: seq<Queued>, writes: nat)
    ensures var unsent := Unsent(q, c.pendingSends.Keys); Replayed(c, q, writes) == unsent[..if writes < |unsent| then writes else |unsent|]
  {
    if q != [] {
      if q[0].message.id in c.pendingSends { ReplayTakes(c, q[1..], writes); }
      else if writes > 0 { ReplayTakes(c, q[1..], writes - 1); }
    }
  }

  /** A replay writes the messages that nobody waits for, in the order they were queued, as many as
      the socket takes. */
  lemma ReplayDecides(c: Client, q: seq<Queued>, writes: nat)
    ensures var unsent := Unsent(q, c.pendingSends.Keys);
            && Replayed(c, q, writes) == unsent[..if writes < |unsent| then writes else |unsent|]
            && forall e :: e in unsent <==> e in q && e.message.id !in c.pendingSends
  {
    UnsentMembers(q, c.pendingSends.Keys);
    ReplayTakes(c, q, writes);
    hide Replayed, Unsent;
  }
}
