/** The broker (broker/broker.ts) as a value. Every handler and every timer callback is one
    step; a socket is an argument of its own, because a replaced socket can still send. */
module BrokerModel {

  import opened Wrappers
  import opened Forest
  import opened RegistryModel
  import opened Messages

  type Socket = nat

  const MAX_SESSIONS: nat := 128
  const MAX_PENDING_DELIVERIES: nat := 1024
  const MAX_PENDING_DELIVERIES_PER_SESSION: nat := 64
  const MAX_PENDING_ASKS_PER_SESSION: nat := 64
  const RECENT_DELIVERY_TTL_MS: int := 10 * 60 * 1000

  // ---------- Data ----------

  datatype Action = SendAction | AskAction | ReplyAction

  function ActionOf(m: Message): Action {
    if m.replyTo.Some? then ReplyAction else if m.IsAsk() then AskAction else SendAction
  }

  /** What the policy knows of a session; the registry's view of it when it is remote. */
  datatype Origin = Local | Remote(generation: int, parent: Id, root: Id)
  {
    function Generation(): int {
      if Remote? then generation else 1
    }
  }

  datatype Session = Session(socket: Socket, name: Option<string>, origin: Origin)

  datatype Connection = Connection(remote: bool, sessionId: Option<Id>)

  /** A sender and one of its message ids: the key of asks, deliveries and recent answers. */
  datatype Key = Key(from: Id, messageId: MessageId)

  datatype EdgeState = Blocking | Deferred

  datatype AskEdge = AskEdge(messageId: MessageId, from: Id, to: Id, createdAt: int, expiresAt: int, state: EdgeState)

  datatype Delivery = Delivery(
    key: Key,
    fingerprint: Fingerprint,
    message: Message,
    from: Id,
    to: Id,
    senderSocket: Socket,
    recipientSocket: Socket,
    action: Action,
    fromGeneration: int,
    toGeneration: int)

  datatype FailureCode =
    | SessionNotFound
    | AmbiguousTarget
    | SenderNotFound
    | InvalidReplyTarget
    | MutualAsk
    | AskAlreadyPending
    | DuplicateMessageId
    | ConflictingMessageId
    | TooManyPendingDeliveries
    | TooManyPendingAsks
    | RecipientDisconnected
    | SenderDisconnected
    | DeliveryTimeout

  datatype Response = Delivered(deliveryId: DeliveryId) | DeliveryFailed(code: FailureCode)

  datatype Recent = Recent(
    fingerprint: Fingerprint,
    from: Id,
    to: Id,
    action: Action,
    fromGeneration: int,
    toGeneration: int,
    retryable: bool,
    response: Response,
    expiresAt: int)

  /** Bookkeeping the program does not have: every delivery ever accepted, how it ended, and
      which delivery carried the ask behind each edge made since the broker started. */
  datatype History = History(
    accepted: map<DeliveryId, Delivery>,
    delivered: set<DeliveryId>,
    failed: set<DeliveryId>,
    lost: set<DeliveryId>,
    carrier: map<Key, DeliveryId>)

  datatype Broker = Broker(
    registry: Registry,
    connections: map<Socket, Connection>,
    sessions: map<Id, Session>,
    edges: map<Key, AskEdge>,
    pending: map<DeliveryId, Delivery>,
    pendingKeys: map<Key, DeliveryId>,
    recent: map<Key, Recent>,
    disk: map<Key, AskEdge>,
    history: History)

  /** What the broker takes from outside: the policy decision, the lower-casing of names and
      the configured ask time-out. */
  datatype Host = Host(
    authorize: (map<Id, Origin>, Id, Action, Id) -> bool,
    lower: string -> string,
    askTimeoutMs: int)

  // ---------- Questions about a state ----------

  predicate IsCurrentPrincipal(b: Broker, id: Id, now: int) {
    id in b.sessions &&
    (b.sessions[id].origin.Local? || Validate(b.registry, id, b.sessions[id].origin.generation, now).Ok?)
  }

  predicate IsAuthorized(b: Broker, host: Host, actor: Id, action: Action, target: Id, now: int) {
    && IsCurrentPrincipal(b, actor, now)
    && IsCurrentPrincipal(b, target, now)
    && host.authorize(map id | id in b.sessions :: b.sessions[id].origin, actor, action, target)
  }

  /** Both endpoints are connected at the generations they had, and the policy still agrees. */
  predicate StillAuthorized(b: Broker, host: Host, from: Id, to: Id, action: Action, fromGeneration: int, toGeneration: int, now: int) {
    && from in b.sessions && to in b.sessions
    && b.sessions[from].origin.Generation() == fromGeneration
    && b.sessions[to].origin.Generation() == toGeneration
    && IsAuthorized(b, host, from, action, to, now)
  }

  predicate StartsWith(s: string, prefix: string) {
    prefix <= s
  }

  function FindSessions(b: Broker, host: Host, nameOrId: string): set<Id> {
    if nameOrId in b.sessions then {nameOrId}
    else
      var lowerName := host.lower(nameOrId);
      var byName := set id | id in b.sessions && b.sessions[id].name.Some? && host.lower(b.sessions[id].name.value) == lowerName;
      if byName != {} then byName
      else set id | id in b.sessions && StartsWith(id, nameOrId)
  }

  function Targets(b: Broker, host: Host, from: Id, to: string, action: Action, now: int): set<Id> {
    set id | id in FindSessions(b, host, to) && IsAuthorized(b, host, from, action, id, now)
  }

  function PendingFrom(pending: map<DeliveryId, Delivery>, from: Id): set<DeliveryId> {
    set d | d in pending && pending[d].from == from
  }

  function EdgesFrom(edges: map<Key, AskEdge>, from: Id): set<Key> {
    set k | k in edges && edges[k].from == from
  }

  /** The pending deliveries that involve this session on this socket. */
  function Involving(pending: map<DeliveryId, Delivery>, id: Id, socket: Socket): set<DeliveryId> {
    set d | d in pending &&
      ((pending[d].to == id && pending[d].recipientSocket == socket) || (pending[d].from == id && pending[d].senderSocket == socket))
  }

  // ---------- Building blocks ----------

  function WithEdges(b: Broker, edges: map<Key, AskEdge>): Broker {
    b.(edges := edges, disk := edges,
       history := b.history.(carrier := map k | k in b.history.carrier && k in edges :: b.history.carrier[k]))
  }

  function DropEdges(b: Broker, keys: set<Key>): Broker {
    WithEdges(b, b.edges - keys)
  }

  predicate Touches(e: AskEdge, ids: set<Id>) {
    e.from in ids || e.to in ids
  }

  function ClearEdgesOf(b: Broker, ids: set<Id>): Broker {
    DropEdges(b, set k | k in b.edges && Touches(b.edges[k], ids))
  }

  function DeferEdgesOf(b: Broker, id: Id): Broker {
    WithEdges(b, map k | k in b.edges :: if Touches(b.edges[k], {id}) then b.edges[k].(state := Deferred) else b.edges[k])
  }

  function Answer(p: Delivery, retryable: bool, response: Response, now: int): Recent {
    Recent(p.fingerprint, p.from, p.to, p.action, p.fromGeneration, p.toGeneration, retryable, response, now + RECENT_DELIVERY_TTL_MS)
  }

  /** The keys of the given deliveries that are pending. */
  function Failing(b: Broker, victims: set<DeliveryId>): set<Key> {
    set k | k in b.pendingKeys && b.pendingKeys[k] in victims && b.pendingKeys[k] in b.pending
  }

  function FailingAsks(b: Broker, victims: set<DeliveryId>): set<Key> {
    set k | k in Failing(b, victims) && b.pending[b.pendingKeys[k]].message.IsAsk()
  }

  function FailureAnswers(b: Broker, victims: set<DeliveryId>, code: Delivery -> FailureCode, now: int): map<Key, Recent> {
    map k | k in Failing(b, victims) ::
      Answer(b.pending[b.pendingKeys[k]], true, DeliveryFailed(code(b.pending[b.pendingKeys[k]])), now)
  }

  /** Ends the given pending deliveries as failed; an ask that was not delivered is no edge. */
  function FailAll(b: Broker, victims: set<DeliveryId>, code: Delivery -> FailureCode, now: int): Broker {
    var b' := DropEdges(b, FailingAsks(b, victims));
    b'.(pending := b.pending - victims,
        pendingKeys := b.pendingKeys - Failing(b, victims),
        recent := b.recent + FailureAnswers(b, victims, code, now),
        history := b'.history.(failed := b.history.failed + victims * b.pending.Keys))
  }

  function FailDelivery(b: Broker, d: DeliveryId, code: FailureCode, now: int): Broker {
    FailAll(b, {d}, _ => code, now)
  }

  /** Fails every pending delivery of a session that is leaving its socket. */
  function ClearPending(b: Broker, id: Id, socket: Socket, now: int): Broker {
    FailAll(b, Involving(b.pending, id, socket),
      (p: Delivery) => if p.to == id && p.recipientSocket == socket then RecipientDisconnected else SenderDisconnected, now)
  }

  function Acknowledge(b: Broker, d: DeliveryId, now: int): Broker
    requires d in b.pending
  {
    var p := b.pending[d];
    var b' := if p.message.replyTo.Some? then DropEdges(b, {Key(p.to, p.message.replyTo.value)}) else b;
    b'.(pending := b.pending - {d},
        pendingKeys := b.pendingKeys - {p.key},
        recent := b.recent[p.key := Answer(p, false, Delivered(d), now)],
        history := b'.history.(delivered := b.history.delivered + {d}))
  }

  function Bind(b: Broker, socket: Socket, id: Option<Id>): Broker {
    if socket in b.connections then b.(connections := b.connections[socket := b.connections[socket].(sessionId := id)]) else b
  }

  function RemoveSessions(b: Broker, ids: set<Id>): Broker {
    b.(sessions := b.sessions - ids)
  }

  function Prune(b: Broker, now: int): Broker {
    b.(recent := map k | k in b.recent && b.recent[k].expiresAt > now :: b.recent[k])
  }

  function Purged(recent: map<Key, Recent>, ids: set<Id>): map<Key, Recent> {
    map k | k in recent && recent[k].from !in ids && recent[k].to !in ids :: recent[k]
  }

  function PurgeRecentOf(b: Broker, ids: set<Id>): Broker {
    b.(recent := Purged(b.recent, ids))
  }

  // ---------- Connections and sessions ----------

  function Connect(b: Broker, socket: Socket, remote: bool): Broker {
    b.(connections := b.connections[socket := Connection(remote, None)])
  }

  function AddSession(b: Broker, socket: Socket, id: Id, name: Option<string>, origin: Origin): Broker {
    Bind(b, socket, Some(id)).(sessions := b.sessions[id := Session(socket, name, origin)])
  }

  predicate Unregistered(b: Broker, socket: Socket, remote: bool) {
    socket in b.connections && b.connections[socket] == Connection(remote, None)
  }

  function RegisterLocal(b: Broker, socket: Socket, id: Id, name: Option<string>, now: int): Broker {
    if !Unregistered(b, socket, false) then b
    else if id !in b.sessions then
      if |b.sessions| >= MAX_SESSIONS then b else AddSession(b, socket, id, name, Local)
    else
      AddSession(DeferEdgesOf(ClearPending(b, id, b.sessions[id].socket, now), id), socket, id, name, Local)
  }

  datatype Access =
    | EnrollmentToken(token: Secret)
    | SessionCredential(id: Id, generation: int, credential: Secret)
    | MalformedAccess

  /** What a remote access credential gives: the registry it leaves and the principal. `id` and
      `credential` are the fresh ones a consumed enrolment would get. */
  function Admit(r: Registry, access: Access, now: int, id: Id, credential: Secret): (Registry, Result<Principal, AccessError>) {
    match access
    case EnrollmentToken(token) => Consume(r, token, now, id, credential)
    case SessionCredential(sid, generation, secret) => (r, Authenticate(r, sid, generation, secret, now))
    case MalformedAccess => (r, Err(InvalidCredential))
  }

  function RegisterRemote(b: Broker, socket: Socket, access: Access, now: int, id: Id, credential: Secret): Broker {
    if !Unregistered(b, socket, true) || |b.sessions| >= MAX_SESSIONS then b
    else
      var (registry, admitted) := Admit(b.registry, access, now, id, credential);
      var b' := b.(registry := registry);
      match admitted
      case Err(_) => b'
      case Ok(p) =>
        if p.id in b.sessions then b'
        else AddSession(b', socket, p.id, Some(p.name), Remote(p.generation, p.parent, p.root))
  }

  /** The session a message on this socket speaks for, if it may speak at all. */
  function Speaker(b: Broker, socket: Socket, now: int): Option<Id> {
    if socket in b.connections && b.connections[socket].sessionId.Some? && IsCurrentPrincipal(b, b.connections[socket].sessionId.value, now)
    then b.connections[socket].sessionId else None
  }

  /** The session leaves: its deliveries fail, its asks are deferred or cleared. */
  function Leave(b: Broker, id: Id, socket: Socket, preserveAsks: bool, now: int): Broker {
    var failed := ClearPending(b, id, socket, now);
    RemoveSessions(if preserveAsks then DeferEdgesOf(failed, id) else ClearEdgesOf(failed, {id}), {id})
  }

  function Unregister(b: Broker, socket: Socket, preserveAsks: bool, now: int): Broker {
    match Speaker(b, socket, now)
    case None => b
    case Some(id) =>
      Bind(if b.sessions[id].socket == socket then Leave(b, id, socket, preserveAsks, now) else b, socket, None)
  }

  function Close(b: Broker, socket: Socket, now: int): Broker {
    if socket !in b.connections then b
    else
      var b' := match b.connections[socket].sessionId
        case Some(id) => if id in b.sessions && b.sessions[id].socket == socket then Leave(b, id, socket, true, now) else b
        case None => b;
      b'.(connections := b.connections - {socket})
  }

  function Rename(b: Broker, socket: Socket, name: string, now: int): Broker {
    match Speaker(b, socket, now)
    case None => b
    case Some(id) =>
      var session := b.sessions[id];
      if session.socket == socket && session.origin.Local? then b.(sessions := b.sessions[id := session.(name := Some(name))]) else b
  }

  // ---------- Sending ----------

  datatype SendOutcome =
    | Denied
    | Refused(code: FailureCode)
    | Replayed(response: Response)
    | StillPending(deliveryId: DeliveryId)
    | Accepted(deliveryId: DeliveryId, recipient: Id)

  /** The answer that the pending table gives, once the recent cache has none. */
  function AnswerPending(b: Broker, host: Host, key: Key, fingerprint: Fingerprint, now: int): (Broker, Option<SendOutcome>) {
    if key !in b.pendingKeys then (b, None)
    else
      var d := b.pendingKeys[key];
      if d !in b.pending || b.pending[d].fingerprint != fingerprint then (b, Some(Refused(DuplicateMessageId)))
      else
        var p := b.pending[d];
        if StillAuthorized(b, host, p.from, p.to, p.action, p.fromGeneration, p.toGeneration, now)
        then (b, Some(StillPending(d)))
        else (FailDelivery(b, d, SessionNotFound, now), None)
  }

  /** First half of a send: answers known from the recent cache or the pending table. `None`
      means that the message has to be routed. */
  function Deduplicate(b: Broker, host: Host, from: Id, to: string, m: Message, now: int): (Broker, Option<SendOutcome>) {
    var pruned := Prune(b, now);
    var key, fingerprint := Key(from, m.id), FingerprintOf(to, m);
    var known := key in pruned.recent;
    if known && pruned.recent[key].fingerprint != fingerprint then (pruned, Some(Refused(DuplicateMessageId)))
    else if known && !pruned.recent[key].retryable && RecentHolds(pruned, host, from, key, now) then
      (pruned, Some(Replayed(pruned.recent[key].response)))
    else AnswerPending(pruned.(recent := pruned.recent - {key}), host, key, fingerprint, now)
  }

  predicate RecentHolds(b: Broker, host: Host, from: Id, key: Key, now: int)
    requires key in b.recent
  {
    var r := b.recent[key];
    StillAuthorized(b, host, from, r.to, r.action, r.fromGeneration, r.toGeneration, now)
  }

  /** What an ask or a reply from one session to another is refused for, if anything. */
  function AskRefusal(edges: map<Key, AskEdge>, from: Id, target: Id, m: Message): Option<FailureCode> {
    if m.replyTo.Some? &&
       (Key(target, m.replyTo.value) !in edges ||
        edges[Key(target, m.replyTo.value)].to != from || edges[Key(target, m.replyTo.value)].from != target)
    then Some(InvalidReplyTarget)
    else if !m.IsAsk() then None
    else if exists k :: k in edges && edges[k].from == from && edges[k].to == target then Some(AskAlreadyPending)
    else if exists k :: k in edges && IsReverseWait(edges[k], from, target, m) then Some(MutualAsk)
    else if |EdgesFrom(edges, from)| >= MAX_PENDING_ASKS_PER_SESSION then Some(TooManyPendingAsks)
    else None
  }

  /** The target already waits for the sender, and this message is not the reply it waits for. */
  predicate IsReverseWait(e: AskEdge, from: Id, target: Id, m: Message) {
    && e.state.Blocking?
    && !(m.replyTo == Some(e.messageId) && target == e.from)
    && e.from == target && e.to == from
  }

  function Accept(b: Broker, host: Host, d: DeliveryId, p: Delivery, now: int): Broker {
    var edge := AskEdge(p.message.id, p.from, p.to, now, now + host.askTimeoutMs, Blocking);
    var b' := if p.message.IsAsk() then WithEdges(b, b.edges[p.key := edge]) else b;
    b'.(pending := b.pending[d := p],
        pendingKeys := b.pendingKeys[p.key := d],
        history := b'.history.(
          accepted := b.history.accepted[d := p],
          carrier := if p.message.IsAsk() then b'.history.carrier[p.key := d] else b'.history.carrier))
  }

  ghost function Only<T(!new)>(s: set<T>): T
    requires |s| == 1
  {
    var x :| x in s;
    x
  }

  function DeliveryFor(b: Broker, socket: Socket, from: Id, target: Id, to: string, m: Message): Delivery
    requires from in b.sessions && target in b.sessions
  {
    Delivery(Key(from, m.id), FingerprintOf(to, m), m, from, target, socket, b.sessions[target].socket, ActionOf(m),
      b.sessions[from].origin.Generation(), b.sessions[target].origin.Generation())
  }

  /** Second half of a send: `d` is the fresh delivery id. */
  ghost function Route(b: Broker, host: Host, socket: Socket, from: Id, to: string, m: Message, d: DeliveryId, now: int): (Broker, SendOutcome)
    requires from in b.sessions
  {
    var targets := Targets(b, host, from, to, ActionOf(m), now);
    if |b.pending| >= MAX_PENDING_DELIVERIES || |PendingFrom(b.pending, from)| >= MAX_PENDING_DELIVERIES_PER_SESSION
    then (b, Refused(TooManyPendingDeliveries))
    else if |targets| > 1 then (b, Refused(AmbiguousTarget))
    else if |targets| == 0 then (b, Refused(SessionNotFound))
    else if b.sessions[from].socket != socket then (b, Refused(SenderNotFound))
    else
      var target := Only(targets);
      match AskRefusal(b.edges, from, target, m)
      case Some(code) => (b, Refused(code))
      case None =>
        assert target in targets;
        (Accept(b, host, d, DeliveryFor(b, socket, from, target, to, m), now), Accepted(d, target))
  }

  ghost function Send(b: Broker, host: Host, socket: Socket, to: string, m: Message, d: DeliveryId, now: int): (Broker, SendOutcome) {
    match Speaker(b, socket, now)
    case None => (b, Denied)
    case Some(from) =>
      match Deduplicate(b, host, from, to, m, now)
      case (b', Some(outcome)) => (b', outcome)
      case (b', None) => Route(b', host, socket, from, to, m, d, now)
  }

  // ---------- Answers to deliveries ----------

  datatype Receipt = Ignored | ReportedFailed | ReportedDelivered

  function MessageReceived(b: Broker, host: Host, socket: Socket, d: DeliveryId, now: int): (Broker, Receipt) {
    match Speaker(b, socket, now)
    case None => (b, Ignored)
    case Some(id) =>
      if d !in b.pending || b.pending[d].to != id || b.pending[d].recipientSocket != socket then (b, Ignored)
      else
        var p := b.pending[d];
        if StillAuthorized(b, host, p.from, p.to, p.action, p.fromGeneration, p.toGeneration, now)
        then (Acknowledge(b, d, now), ReportedDelivered)
        else (FailDelivery(b, d, SessionNotFound, now), ReportedFailed)
  }

  function MessageRejected(b: Broker, socket: Socket, d: DeliveryId, now: int): Broker {
    match Speaker(b, socket, now)
    case None => b
    case Some(id) =>
      if d in b.pending && b.pending[d].to == id && b.pending[d].recipientSocket == socket
      then FailDelivery(b, d, ConflictingMessageId, now) else b
  }

  function DeliveryTimedOut(b: Broker, d: DeliveryId, now: int): Broker {
    if d in b.pending then FailDelivery(b, d, DeliveryTimeout, now) else b
  }

  // ---------- Asks ----------

  /** Deferring does not look at the socket, cancelling does. */
  function DeferAsk(b: Broker, socket: Socket, messageId: MessageId, now: int): Broker {
    match Speaker(b, socket, now)
    case None => b
    case Some(id) =>
      var k := Key(id, messageId);
      if k in b.edges && b.edges[k].from == id && b.edges[k].state.Blocking?
      then WithEdges(b, b.edges[k := b.edges[k].(state := Deferred)]) else b
  }

  function CancelAsk(b: Broker, socket: Socket, messageId: MessageId, now: int): Broker {
    match Speaker(b, socket, now)
    case None => b
    case Some(id) =>
      var k := Key(id, messageId);
      if b.sessions[id].socket == socket && k in b.edges && b.edges[k].from == id then DropEdges(b, {k}) else b
  }

  function AskExpired(b: Broker, k: Key, now: int): Broker {
    if k in b.edges && b.edges[k].expiresAt <= now then DropEdges(b, {k}) else b
  }

  // ---------- Principals in transition ----------

  /** The pending deliveries that involve one of these sessions on its current socket. */
  function InvolvingAny(b: Broker, ids: set<Id>): set<DeliveryId> {
    set d | d in b.pending &&
      ((b.pending[d].to in ids && b.pending[d].to in b.sessions && b.pending[d].recipientSocket == b.sessions[b.pending[d].to].socket)
       || (b.pending[d].from in ids && b.pending[d].from in b.sessions && b.pending[d].senderSocket == b.sessions[b.pending[d].from].socket))
  }

  /** Disconnects the live ones among the changed principals: their deliveries fail, and their
      asks, sessions and recent answers are gone. */
  function Disconnect(b: Broker, changed: set<Id>, now: int): Broker {
    var live := changed * b.sessions.Keys;
    PurgeRecentOf(
      RemoveSessions(
        ClearEdgesOf(FailAll(b, InvolvingAny(b, live), _ => RecipientDisconnected, now), live),
        live),
      live)
  }

  ghost function RevokeSubtree(b: Broker, id: Id, now: int): Broker {
    Disconnect(b, Tree(b.registry, id), now).(registry := Revoke(b.registry, id, now))
  }

  predicate MayAdopt(b: Broker, newParent: Id) {
    || (newParent in b.sessions && b.sessions[newParent].origin.Local?)
    || (newParent in b.registry.principals && b.registry.principals[newParent].status.Active?)
  }

  function AdoptedRoot(b: Broker, newParent: Id): Id
    requires MayAdopt(b, newParent)
  {
    if newParent in b.sessions && b.sessions[newParent].origin.Local? then newParent
    else b.registry.principals[newParent].root
  }

  ghost function AdoptSubtree(b: Broker, id: Id, newParent: Id, now: int): Broker {
    if !MayAdopt(b, newParent) then b
    else
      match Adopt(b.registry, id, newParent, AdoptedRoot(b, newParent), now)
      case (_, Err(_)) => b
      case (registry, Ok(moved)) => Disconnect(b, moved, now).(registry := registry)
  }

  ghost function ReconcileExpired(b: Broker, order: seq<Id>, now: int): Broker {
    var (registry, changed) := Sweep(b.registry, order, now);
    Disconnect(b, changed, now).(registry := registry)
  }

  /** An administrator's enrolment: the parent is a live local session, which is also the root;
      the depth is left to its default. */
  function IssueDirect(b: Broker, parent: Id, root: Id, host: string, c: ChildRequest, ttlMs: int, now: int, token: Secret): Broker {
    if parent !in b.sessions || b.sessions[parent].origin.Remote? || root != parent then b
    else
      var r := EnrollmentRequest(c.name, parent, parent, host, c.expiresAt, c.canDelegate, None, c.maxDepth, c.maxChildren);
      b.(registry := Issue(b.registry, r, ttlMs, now, token).0)
  }

  /** A principal's own enrolment; `allowed` is the policy's decision. */
  function IssueDelegated(b: Broker, parent: Id, generation: int, credential: Secret, allowed: bool, c: ChildRequest,
                          ttlMs: int, now: int, token: Secret): Broker {
    if Authenticate(b.registry, parent, generation, credential, now).Err? || !allowed then b
    else b.(registry := IssueChild(b.registry, parent, generation, c, ttlMs, now, token).0)
  }

  // ---------- Crash, shutdown, restart ----------

  function Restored(disk: map<Key, AskEdge>, now: int): map<Key, AskEdge> {
    map k | k in disk && disk[k].expiresAt > now :: disk[k].(state := Deferred)
  }

  /** A crash or a shutdown leaves the registry and the asks on disk; the next broker starts
      from them. */
  function Restart(b: Broker, now: int): Broker {
    var edges := Restored(b.disk, now);
    Broker(b.registry, map[], map[], edges, map[], map[], map[], edges,
      b.history.(lost := b.history.lost + b.pending.Keys, carrier := map[]))
  }
}
