/** What opens the door to a remote session: the records decide which credentials and tokens are
    good, what a request for an enrolment must satisfy, and what comes of each. */
module Admission {

  import opened Wrappers
  import opened Forest
  import opened RegistryModel
  import RegistryRuns
  import opened BrokerModel
  import opened BrokerSteps

  // ---------- Credentials and tokens ----------

  /** The secret is the principal's own, and it stands at that generation, unrevoked and in time. */
  predicate Opens(r: Registry, id: Id, generation: int, secret: Secret, now: int) {
    id in r.principals &&
    var p := r.principals[id]; p.credential == secret && p.status == Active && now < p.expiresAt && p.generation == generation
  }

  /** A credential gives its own principal or the first of four reasons against it. */
  lemma CredentialDecides(r: Registry, id: Id, generation: int, secret: Secret, now: int)
    ensures var result := Authenticate(r, id, generation, secret, now);
            && (result.Ok? <==> Opens(r, id, generation, secret, now))
            && (result.Ok? ==> result.value == r.principals[id])
            && (result == Err(InvalidCredential) <==> id in r.principals ==> r.principals[id].credential != secret)
            && (result.Err? && id in r.principals && r.principals[id].credential == secret ==>
              var p := r.principals[id];
              && (result.error == RevokedCredential <==> p.status == Revoked)
              && (result.error == ExpiredCredential <==> p.status == Active && p.expiresAt <= now)
              && (result.error == StaleGeneration <==> p.status == Active && now < p.expiresAt && p.generation != generation))
  {}

  /** The principal stands at that generation, unrevoked and in time. */
  predicate Stands(r: Registry, id: Id, generation: int, now: int) {
    id in r.principals && Opens(r, id, generation, r.principals[id].credential, now)
  }

  /** Without its secret, a principal's generation is checked by the same order of reasons. */
  lemma StandingDecides(r: Registry, id: Id, generation: int, now: int)
    ensures var result := Validate(r, id, generation, now);
            && (result.Ok? <==> Stands(r, id, generation, now))
            && (id !in r.principals <==> result == Err(InvalidCredential))
            && (id in r.principals ==> result == Authenticate(r, id, generation, r.principals[id].credential, now))
  {}

  /** The token has been issued and its time is not over. */
  predicate IsGood(r: Registry, token: Secret, now: int) {
    token in r.enrollments && now < r.enrollments[token].expiresAt
  }

  /** The new principal has what was granted when the token was issued, and its own secret. */
  predicate IsGranted(t: Template, id: Id, credential: Secret, now: int, p: Principal) {
    && p.id == id && p.credential == credential && p.status == Active && p.generation == 1
    && p.name == t.name && p.parent == t.parent && p.root == t.root && p.host == t.host && p.expiresAt == t.expiresAt
    && p.canDelegate == t.canDelegate && p.depth == t.depth && p.maxDepth == t.maxDepth && p.maxChildren == t.maxChildren
    && p.createdAt == now && p.updatedAt == now
  }

  /** A token that is presented is gone, whether it was in time or not. */
  lemma TokenDecides(r: Registry, token: Secret, id: Id, credential: Secret, now: int)
    ensures var (r', result) := Consume(r, token, now, id, credential);
            && (result.Ok? <==> IsGood(r, token, now)) && (result.Err? ==> result.error == InvalidEnrollment)
            && r'.enrollments == r.enrollments - {token}
            && (result.Err? ==> r'.principals == r.principals)
            && (result.Ok? ==>
              IsGranted(r.enrollments[token].template, id, credential, now, result.value) && r'.principals == r.principals[id := result.value])
  {
    if token !in r.enrollments { assert r.enrollments - {token} == r.enrollments; }
  }

  // ---------- Remote registration ----------

  /** The connection is remote, speaks for nobody yet, and there are fewer than 128 sessions. */
  predicate MayRegister(b: Broker, socket: Socket) {
    socket in b.connections && b.connections[socket] == Connection(true, None) && |b.sessions| < 128
  }

  /** Principal `p` has become a session on the socket, and no other session has changed. */
  predicate HasJoined(b: Broker, socket: Socket, p: Principal, b': Broker) {
    && b'.sessions == b.sessions[p.id := Session(socket, Some(p.name), Remote(p.generation, p.parent, p.root))]
    && b'.connections == b.connections[socket := Connection(true, Some(p.id))]
    && b'.pending == b.pending && b'.edges == b.edges && b'.recent == b.recent
  }

  lemma JoiningExactly(b: Broker, socket: Socket, registry: Registry, p: Principal)
    requires MayRegister(b, socket)
    ensures var b' := AddSession(b.(registry := registry), socket, p.id, Some(p.name), Remote(p.generation, p.parent, p.root));
            HasJoined(b, socket, p, b') && b'.registry == registry
  {}

  /** A session credential lets in exactly the principal it belongs to, and only once. */
  lemma CredentialAdmits(b: Broker, socket: Socket, sid: Id, generation: int, secret: Secret, id: Id, credential: Secret, now: int)
    requires RegistryRuns.Keyed(b.registry)
    ensures var b' := RegisterRemote(b, socket, SessionCredential(sid, generation, secret), now, id, credential);
            if MayRegister(b, socket) && Opens(b.registry, sid, generation, secret, now) && sid !in b.sessions
            then HasJoined(b, socket, b.registry.principals[sid], b') && b'.registry == b.registry
            else b' == b
  {
    CredentialDecides(b.registry, sid, generation, secret, now);
    hide HasJoined, Authenticate, AddSession;
    if MayRegister(b, socket) && Opens(b.registry, sid, generation, secret, now) {
      JoiningExactly(b, socket, b.registry, b.registry.principals[sid]);
    }
  }

  /** A token lets in a new principal while it is in time; presented late it is only used up. */
  lemma TokenAdmits(b: Broker, socket: Socket, token: Secret, id: Id, credential: Secret, now: int)
    requires id !in b.sessions
    ensures var b' := RegisterRemote(b, socket, EnrollmentToken(token), now, id, credential);
            if !MayRegister(b, socket) then b' == b
            else
              && b'.registry.enrollments == b.registry.enrollments - {token}
              && if IsGood(b.registry, token, now)
                 then id in b'.registry.principals && var p := b'.registry.principals[id];
                      && IsGranted(b.registry.enrollments[token].template, id, credential, now, p)
                      && b'.registry.principals == b.registry.principals[id := p] && HasJoined(b, socket, p, b')
                 else b' == b.(registry := Registry(b.registry.principals, b.registry.enrollments - {token}))
  {
    hide IsGranted, HasJoined, Consume, AddSession;
    TokenDecides(b.registry, token, id, credential, now);
    var (registry, admitted) := Consume(b.registry, token, now, id, credential);
    if MayRegister(b, socket) && admitted.Ok? {
      GrantedIsNamed(b.registry.enrollments[token].template, id, credential, now, admitted.value);
      JoiningExactly(b, socket, registry, admitted.value);
    }
  }

  lemma GrantedIsNamed(t: Template, id: Id, credential: Secret, now: int, p: Principal)
    requires IsGranted(t, id, credential, now, p)
    ensures p.id == id
  {}

  /** A remote registration adds a session in two cases only. With a credential it is the session
      the credential is for, and the secret is that principal's own, at its generation, unrevoked
      and in time; with a token it is the new principal, and the token is good. In both the
      connection is remote and new, there is room, and the session is not connected yet. Without
      a credential or a token nothing changes. */
  lemma RemoteRegistrationDecides(b: Broker, host: Host, e: Event, now: int, x: Id)
    requires RegistryRuns.Keyed(b.registry) && e.RegisterRemoteE? && (e.access.EnrollmentToken? ==> e.id !in b.sessions)
    ensures var b' := Step(b, host, e, now);
            && (x in b'.sessions && x !in b.sessions <==>
              && x !in b.sessions && MayRegister(b, e.socket)
              && match e.access
                 case SessionCredential(sid, generation, secret) => sid == x && Opens(b.registry, x, generation, secret, now)
                 case EnrollmentToken(token) => e.id == x && IsGood(b.registry, token, now)
                 case MalformedAccess => false)
            && (x in b.sessions ==> x in b'.sessions && b'.sessions[x] == b.sessions[x])
            && (e.access.MalformedAccess? ==> b' == b)
  {
    hide RegisterRemote, Opens, IsGood, IsGranted;
    match e.access
    case SessionCredential(sid, generation, secret) => CredentialIsForOne(b, e, now);
    case EnrollmentToken(token) => TokenIsForOne(b, e, now);
    case MalformedAccess => MalformedIsIgnored(b, e, now);
  }

  lemma CredentialIsForOne(b: Broker, e: Event, now: int)
    requires RegistryRuns.Keyed(b.registry) && e.RegisterRemoteE? && e.access.SessionCredential?
    ensures var b' := RegisterRemote(b, e.socket, e.access, now, e.id, e.credential);
            if MayRegister(b, e.socket) && Opens(b.registry, e.access.id, e.access.generation, e.access.credential, now) && e.access.id !in b.sessions
            then e.access.id in b'.sessions && b'.sessions == b.sessions[e.access.id := b'.sessions[e.access.id]]
            else b' == b
  {
    hide RegisterRemote, MayRegister;
    CredentialAdmits(b, e.socket, e.access.id, e.access.generation, e.access.credential, e.id, e.credential, now);
  }

  lemma TokenIsForOne(b: Broker, e: Event, now: int)
    requires e.RegisterRemoteE? && e.access.EnrollmentToken? && e.id !in b.sessions
    ensures var b' := RegisterRemote(b, e.socket, e.access, now, e.id, e.credential);
            if MayRegister(b, e.socket) && IsGood(b.registry, e.access.token, now)
            then e.id in b'.sessions && b'.sessions == b.sessions[e.id := b'.sessions[e.id]]
            else b'.sessions == b.sessions
  {
    hide RegisterRemote, MayRegister;
    TokenAdmits(b, e.socket, e.access.token, e.id, e.credential, now);
  }

  lemma MalformedIsIgnored(b: Broker, e: Event, now: int)
    requires e.RegisterRemoteE? && e.access.MalformedAccess?
    ensures RegisterRemote(b, e.socket, e.access, now, e.id, e.credential) == b
  {}
}
