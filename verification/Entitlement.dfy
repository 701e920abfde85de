/** Who may speak on a connection and who may reach whom, read off the records: the session
    table, the principals and the policy. */
module Entitlement {

  import opened Wrappers
  import opened Forest
  import opened RegistryModel
  import opened Messages
  import opened BrokerModel
  import opened BrokerInvariant

  /** The session is registered; a remote one stands on an active principal whose time is not
      over and whose generation is still the session's. */
  predicate Entitled(b: Broker, id: Id, now: int) {
    id in b.sessions &&
    match b.sessions[id].origin
    case Local => true
    case Remote(generation, _, _) =>
      id in b.registry.principals &&
      var p := b.registry.principals[id]; p.status == Active && now < p.expiresAt && p.generation == generation
  }

  predicate Speaks(b: Broker, socket: Socket, id: Id, now: int) {
    socket in b.connections && b.connections[socket].sessionId == Some(id) && Entitled(b, id, now)
  }

  /** A reply counts as a reply even when it asks something itself. */
  function Kind(m: Message): Action {
    match (m.replyTo, m.expectsReply)
    case (Some(_), _) => ReplyAction
    case (None, Some(true)) => AskAction
    case (None, _) => SendAction
  }

  function Origins(sessions: map<Id, Session>): map<Id, Origin> {
    map id | id in sessions :: sessions[id].origin
  }

  predicate MayReach(b: Broker, host: Host, actor: Id, action: Action, target: Id, now: int) {
    Entitled(b, actor, now) && Entitled(b, target, now) && host.authorize(Origins(b.sessions), actor, action, target)
  }

  /** A local session has generation 1 for good. */
  predicate HasGeneration(b: Broker, id: Id, generation: int) {
    id in b.sessions && generation == match b.sessions[id].origin case Local => 1 case Remote(g, _, _) => g
  }

  /** The policy agrees, and both ends have the generations that were recorded. */
  predicate MayStillReach(b: Broker, host: Host, from: Id, to: Id, action: Action, fromGeneration: int, toGeneration: int, now: int) {
    HasGeneration(b, from, fromGeneration) && HasGeneration(b, to, toGeneration) && MayReach(b, host, from, action, to, now)
  }

  lemma EntitledExactly(b: Broker, id: Id, now: int)
    ensures IsCurrentPrincipal(b, id, now) <==> Entitled(b, id, now)
  {}

  /** A connection speaks for at most one session, and that is the broker's answer. */
  lemma SpeakerExactly(b: Broker, socket: Socket, id: Id, now: int)
    ensures Speaker(b, socket, now) == Some(id) <==> Speaks(b, socket, id, now)
    ensures Speaker(b, socket, now).None? ==> !Speaks(b, socket, id, now)
  {}

  lemma ReachExactly(b: Broker, host: Host, actor: Id, action: Action, target: Id, now: int)
    ensures IsAuthorized(b, host, actor, action, target, now) <==> MayReach(b, host, actor, action, target, now)
  {
    EntitledExactly(b, actor, now);
    EntitledExactly(b, target, now);
    hide Entitled, IsCurrentPrincipal;
    assert Origins(b.sessions) == map id | id in b.sessions :: b.sessions[id].origin;
  }

  lemma StillReachExactly(b: Broker, host: Host, from: Id, to: Id, action: Action, fromGeneration: int, toGeneration: int, now: int)
    ensures StillAuthorized(b, host, from, to, action, fromGeneration, toGeneration, now) <==>
            MayStillReach(b, host, from, to, action, fromGeneration, toGeneration, now)
  {
    ReachExactly(b, host, from, action, to, now);
    hide IsAuthorized, MayReach;
  }

  lemma KindExactly(m: Message)
    ensures ActionOf(m) == Kind(m)
  {}

  /** While the invariant holds, only its time can silence a registered session. */
  lemma OnlyTimeSilences(b: Broker, id: Id, now: int)
    requires Inv(b) && id in b.sessions
    ensures Entitled(b, id, now) <==> b.sessions[id].origin.Local? || now < b.registry.principals[id].expiresAt
  {
    hide TablesHold, RecordsHold, AsksHold;
    assert MirrorsPrincipal(id, b.sessions[id].origin, b.registry);
  }
}
