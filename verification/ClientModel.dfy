/** A sending session (outbound-outbox.ts, broker/client.ts) as a value: the durable outbox of
    its session id and the sends that wait for an answer. */
module ClientModel {

  import opened Wrappers
  import opened Messages

  type SessionId = string

  const MAX_OUTBOX_MESSAGES: nat := 256

  // ---------- The outbox ----------

  datatype Queued = Queued(to: string, message: Message, queuedAt: int)

  datatype EnqueueResult = Added | Existing | Conflict | Full

  function Find(q: seq<Queued>, id: MessageId): Option<Queued> {
    if q == [] then None else if q[0].message.id == id then Some(q[0]) else Find(q[1..], id)
  }

  function Enqueue(q: seq<Queued>, to: string, m: Message, now: int): (seq<Queued>, EnqueueResult) {
    match Find(q, m.id)
    case Some(known) => (q, if FingerprintOf(known.to, known.message) == FingerprintOf(to, m) then Existing else Conflict)
    case None => if |q| >= MAX_OUTBOX_MESSAGES then (q, Full) else (q + [Queued(to, m, now)], Added)
  }

  function Remove(q: seq<Queued>, id: MessageId): seq<Queued> {
    if q == [] then [] else if q[0].message.id == id then Remove(q[1..], id) else [q[0]] + Remove(q[1..], id)
  }

  function IdsOf(q: seq<Queued>): set<MessageId> {
    set e | e in q :: e.message.id
  }

  ghost predicate IsOutbox(q: seq<Queued>) {
    && |q| <= MAX_OUTBOX_MESSAGES
    && forall i, j :: 0 <= i < j < |q| ==> q[i].message.id != q[j].message.id
  }

  lemma {:induction false} FindIsExact(q: seq<Queued>, id: MessageId)
    ensures Find(q, id).Some? <==> id in IdsOf(q)
    ensures Find(q, id).Some? ==> Find(q, id).value in q && Find(q, id).value.message.id == id
  {
    if q != [] {
      assert q == [q[0]] + q[1..];
      FindIsExact(q[1..], id);
      assert IdsOf(q) == {q[0].message.id} + IdsOf(q[1..]);
    }
  }

  lemma {:induction false} RemoveIsExact(q: seq<Queued>, id: MessageId)
    ensures forall e :: e in Remove(q, id) <==> e in q && e.message.id != id
    ensures IsOutbox(q) ==> IsOutbox(Remove(q, id))
    ensures |Remove(q, id)| <= |q| && (|Remove(q, id)| == |q| ==> Remove(q, id) == q)
    ensures IdsOf(Remove(q, id)) == IdsOf(q) - {id}
  {
    if q != [] {
      assert q == [q[0]] + q[1..];
      RemoveIsExact(q[1..], id);
      assert IsOutbox(q) ==> IsOutbox(q[1..]);
    }
    SameIdsWithout(q, Remove(q, id), id);
  }

  lemma {:induction false} RemoveAbsent(q: seq<Queued>, id: MessageId)
    requires forall i :: 0 <= i < |q| ==> q[i].message.id != id
    ensures Remove(q, id) == q
  {
    if q != [] { RemoveAbsent(q[1..], id); }
  }

  /** Nothing but the message itself leaves its place. */
  lemma {:induction false} RemoveKeepsOrder(q: seq<Queued>, id: MessageId, i: nat)
    requires IsOutbox(q) && i < |q| && q[i].message.id == id
    ensures Remove(q, id) == q[..i] + q[i + 1..]
    decreases i
  {
    if i == 0 {
      RemoveAbsent(q[1..], id);
    } else {
      RemoveKeepsOrder(q[1..], id, i - 1);
      assert [q[0]] + (q[1..][..i - 1] + q[1..][i..]) == q[..i] + q[i + 1..];
    }
  }

  lemma SameIdsWithout(q: seq<Queued>, r: seq<Queued>, id: MessageId)
    requires forall e :: e in r <==> e in q && e.message.id != id
    ensures IdsOf(r) == IdsOf(q) - {id}
  {}

  /** The queue grows at its end by a message it did not know, keeps what it has otherwise, and
      stays an outbox. */
  lemma EnqueueIsExact(q: seq<Queued>, to: string, m: Message, now: int)
    requires IsOutbox(q)
    ensures var (q', r) := Enqueue(q, to, m, now);
            && IsOutbox(q')
            && (r.Added? <==> m.id !in IdsOf(q) && |q| < MAX_OUTBOX_MESSAGES)
            && (r.Full? <==> m.id !in IdsOf(q) && |q| == MAX_OUTBOX_MESSAGES)
            && (r.Existing? <==> exists e :: e in q && e.message.id == m.id && FingerprintOf(e.to, e.message) == FingerprintOf(to, m))
            && q' == (if r.Added? then q + [Queued(to, m, now)] else q)
            && IdsOf(q') == (if r.Added? then IdsOf(q) + {m.id} else IdsOf(q))
  {
    FindIsExact(q, m.id);
    var q' := q + [Queued(to, m, now)];
    assert IdsOf(q') == IdsOf(q) + {m.id} by {
      assert forall e :: e in q' <==> e in q || e == Queued(to, m, now);
    }
    forall e | e in q && m.id !in IdsOf(q) ensures e.message.id != m.id {}
  }

  // ---------- The client ----------

  datatype PendingSend = PendingSend(accepted: bool, deliveryId: Option<DeliveryId>)

  /** `outboxOf` is the session id whose outbox is open, which outlives the connection; `files`
      are the outboxes on disk, which an open outbox agrees with. */
  datatype Client = Client(
    connected: bool,
    disconnecting: bool,
    sessionId: Option<SessionId>,
    pendingSends: map<MessageId, PendingSend>,
    outboxOf: Option<SessionId>,
    files: map<SessionId, seq<Queued>>)

  function OnFile(c: Client, id: SessionId): seq<Queued> {
    if id in c.files then c.files[id] else []
  }

  function Outbox(c: Client): seq<Queued> {
    if c.outboxOf.Some? then OnFile(c, c.outboxOf.value) else []
  }

  function WithOutbox(c: Client, q: seq<Queued>): Client {
    if c.outboxOf.Some? && q != Outbox(c) then c.(files := c.files[c.outboxOf.value := q]) else c
  }

  datatype SendOutcome = Written | NotActive | AlreadyPending | PayloadConflict | OutboxFull | WriteFailed

  /** `writable` says whether the socket still takes data, `writes` whether writing succeeds. */
  function Send(c: Client, to: string, m: Message, now: int, writable: bool, writes: bool): (Client, SendOutcome) {
    if c.disconnecting || !c.connected || c.sessionId.None? || !writable then (c, NotActive)
    else if m.id in c.pendingSends then (c, AlreadyPending)
    else
      var (q, queued) := if c.outboxOf.Some? then Enqueue(Outbox(c), to, m, now) else ([], Added);
      if queued.Conflict? then (c, PayloadConflict)
      else if queued.Full? then (c, OutboxFull)
      else
        var c' := WithOutbox(c, q);
        if writes then (c'.(pendingSends := c.pendingSends[m.id := PendingSend(false, None)]), Written) else (c', WriteFailed)
  }

  /** What a replay writes when the socket takes `writes` messages before it fails. */
  function Replayed(c: Client, q: seq<Queued>, writes: nat): seq<Queued> {
    if q == [] then []
    else if q[0].message.id in c.pendingSends then Replayed(c, q[1..], writes)
    else if writes == 0 then []
    else [q[0]] + Replayed(c, q[1..], writes - 1)
  }

  /** Opens the outbox of the session and writes it out again. */
  function Registered(c: Client, id: SessionId, writes: nat): (Client, seq<Queued>) {
    if !c.connected || c.sessionId.Some? then (c, [])
    else
      var c' := c.(sessionId := Some(id), outboxOf := Some(id));
      (c', Replayed(c', Outbox(c'), writes))
  }

  /** A `delivered` or a `delivery_failed` for a message, whatever became of its caller. */
  function Answered(c: Client, id: MessageId): Client {
    if c.sessionId.None? then c
    else WithOutbox(c, Remove(Outbox(c), id)).(pendingSends := c.pendingSends - {id})
  }

  function MarkAccepted(c: Client, id: MessageId, d: DeliveryId): Client {
    if c.sessionId.None? || id !in c.pendingSends then c
    else c.(pendingSends := c.pendingSends[id := PendingSend(true, Some(d))])
  }

  function Closed(c: Client): Client {
    c.(connected := false, disconnecting := false, sessionId := None, pendingSends := map[])
  }

  /** The connection fails or times out before it is registered. */
  function ConnectFailed(c: Client): Client {
    if c.sessionId.None? then c.(connected := false) else c
  }

  function Disconnect(c: Client, preserveAsks: bool): Client {
    if !c.connected then c
    else
      var c' := c.(disconnecting := true, pendingSends := map[]);
      if preserveAsks then c' else WithOutbox(c', [])
  }

  // ---------- Runs ----------

  datatype Event =
    | ConnectE
    | ConnectFailedE
    | RegisteredE(id: SessionId, count: nat)
    | SendE(to: string, message: Message, now: int, writable: bool, writes: bool)
    | AcceptedE(messageId: MessageId, deliveryId: DeliveryId)
    | AnsweredE(messageId: MessageId)
    | SendTimeoutE(messageId: MessageId)
    | ClosedE
    | DisconnectE(preserveAsks: bool)
    | ExitE

  /** A new process knows only the files. */
  function Fresh(files: map<SessionId, seq<Queued>>): Client {
    Client(false, false, None, map[], None, files)
  }

  function Step(c: Client, e: Event): Client {
    match e
    case ConnectE => if c.connected then c else c.(connected := true)
    case ConnectFailedE => ConnectFailed(c)
    case RegisteredE(id, count) => Registered(c, id, count).0
    case SendE(to, message, now, writable, writes) => Send(c, to, message, now, writable, writes).0
    case AcceptedE(messageId, deliveryId) => MarkAccepted(c, messageId, deliveryId)
    case AnsweredE(messageId) => Answered(c, messageId)
    case SendTimeoutE(messageId) => c.(pendingSends := c.pendingSends - {messageId})
    case ClosedE => Closed(c)
    case DisconnectE(preserveAsks) => Disconnect(c, preserveAsks)
    case ExitE => Fresh(c.files)
  }

  function Run(events: seq<Event>): Client {
    if events == [] then Fresh(map[]) else Step(Run(events[..|events| - 1]), events[|events| - 1])
  }

  /** Every file holds an outbox; whoever waits for an answer waits for a queued message; and
      nobody waits without a session. */
  ghost predicate Disciplined(c: Client) {
    && (forall id :: id in c.files ==> IsOutbox(c.files[id]))
    && c.pendingSends.Keys <= IdsOf(Outbox(c))
    && (c.sessionId.None? ==> c.pendingSends == map[])
    && (c.sessionId.Some? ==> c.outboxOf.Some?)
  }

  lemma OutboxIsOutbox(c: Client)
    requires Disciplined(c)
    ensures IsOutbox(Outbox(c))
  {}

  lemma WithOutboxHas(c: Client, q: seq<Queued>)
    requires Disciplined(c) && c.outboxOf.Some? && IsOutbox(q)
    ensures var c' := WithOutbox(c, q); Outbox(c') == q && forall id :: id in c'.files ==> IsOutbox(c'.files[id])
  {}

  lemma SendKeeps(c: Client, to: string, m: Message, now: int, writable: bool, writes: bool)
    requires Disciplined(c)
    ensures Disciplined(Send(c, to, m, now, writable, writes).0)
  {
    OutboxIsOutbox(c);
    if c.outboxOf.Some? {
      EnqueueIsExact(Outbox(c), to, m, now);
      FindIsExact(Outbox(c), m.id);
      var q := Enqueue(Outbox(c), to, m, now).0;
      hide Enqueue, IsOutbox, IdsOf, Find;
      WithOutboxHas(c, q);
      hide WithOutbox, Outbox;
    }
  }

  lemma AnsweredKeeps(c: Client, id: MessageId)
    requires Disciplined(c)
    ensures Disciplined(Answered(c, id))
  {
    OutboxIsOutbox(c);
    RemoveIsExact(Outbox(c), id);
    hide Remove, IsOutbox, IdsOf;
    if c.sessionId.Some? {
      WithOutboxHas(c, Remove(Outbox(c), id));
      hide Outbox;
    }
  }

  lemma StepKeeps(c: Client, e: Event)
    requires Disciplined(c)
    ensures Disciplined(Step(c, e))
  {
    match e
    case SendE(to, message, now, writable, writes) => SendKeeps(c, to, message, now, writable, writes);
    case AnsweredE(messageId) => AnsweredKeeps(c, messageId);
    case _ =>
  }

  /** In every run: distinct ids, at most 256 of them, and every waiting caller waits for a
      message that is in the outbox. */
  lemma {:induction false} RunsAreDisciplined(events: seq<Event>)
    ensures var c := Run(events);
            && IsOutbox(Outbox(c)) && c.pendingSends.Keys <= IdsOf(Outbox(c)) && Disciplined(c)
    decreases |events|
  {
    if events != [] {
      RunsAreDisciplined(events[..|events| - 1]);
      StepKeeps(Run(events[..|events| - 1]), events[|events| - 1]);
    }
    OutboxIsOutbox(Run(events));
  }

  /** What may take a queued message out of the outbox of a session: a final answer for its id,
      or a disconnection that does not preserve it. */
  predicate MayRemove(c: Client, e: Event, id: SessionId, m: MessageId) {
    c.outboxOf == Some(id) &&
    match e
    case AnsweredE(messageId) => c.sessionId.Some? && messageId == m
    case DisconnectE(preserveAsks) => c.connected && !preserveAsks
    case _ => false
  }

  /** Whatever happens otherwise, a crash included, the message stays on file as it was queued. */
  lemma QueuedUntilAnswered(c: Client, e: Event, id: SessionId, q: Queued)
    requires Disciplined(c) && q in OnFile(c, id)
    ensures q !in OnFile(Step(c, e), id) <==> MayRemove(c, e, id, q.message.id)
  {
    if e.AnsweredE? { RemoveIsExact(Outbox(c), e.messageId); }
    if e.SendE? && c.outboxOf.Some? { OutboxIsOutbox(c); EnqueueIsExact(Outbox(c), e.to, e.message, e.now); }
    hide Remove, Enqueue, IsOutbox, IdsOf;
  }

  /** Registering writes the outbox again, first queued first, as far as writing succeeds. */
  lemma ReplayIsFifoPrefix(events: seq<Event>, id: SessionId, count: nat)
    requires var c := Run(events); c.connected && c.sessionId.None?
    ensures var c := Run(events); var (c', written) := Registered(c, id, count);
            && Outbox(c') == OnFile(c, id)
            && written == OnFile(c, id)[..if count < |OnFile(c, id)| then count else |OnFile(c, id)|]
  {
    RunsAreDisciplined(events);
    var c' := Registered(Run(events), id, count).0;
    ReplayOfIdle(c', Outbox(c'), count);
  }

  lemma {:induction false} ReplayOfIdle(c: Client, q: seq<Queued>, count: nat)
    requires c.pendingSends == map[]
    ensures Replayed(c, q, count) == q[..if count < |q| then count else |q|]
  {
    if q != [] && count > 0 { ReplayOfIdle(c, q[1..], count - 1); }
  }

  /** What a send writes is in the outbox by then. */
  lemma WrittenIsQueued(c: Client, to: string, m: Message, now: int, writable: bool, writes: bool)
    requires Disciplined(c)
    ensures var (c', outcome) := Send(c, to, m, now, writable, writes);
            outcome.Written? ==>
              && m.id in c'.pendingSends
              && exists q :: q in Outbox(c') && q.message.id == m.id && FingerprintOf(q.to, q.message) == FingerprintOf(to, m)
  {
    var (c', outcome) := Send(c, to, m, now, writable, writes);
    if outcome.Written? {
      OutboxIsOutbox(c);
      EnqueueIsExact(Outbox(c), to, m, now);
      var (q, r) := Enqueue(Outbox(c), to, m, now);
      hide Enqueue, IsOutbox, IdsOf;
      WithOutboxHas(c, q);
      if r.Added? { assert Queued(to, m, now) in q; }
    }
  }
}
