/** The remote principal registry (broker/access-registry.ts) as a value: its records, and for
    every operation the state it leaves and the answer it gives. Secrets stand for their
    hashes, which are taken to be injective. */
module RegistryModel {

  import opened Wrappers
  import opened Forest

  type Secret = string

  const MAX_SAFE_INTEGER: int := 0x1F_FFFF_FFFF_FFFF
  const DEFAULT_PRINCIPAL_TTL_MS: int := 30 * 24 * 60 * 60 * 1000
  const MAX_ENROLLMENT_TTL_MS: int := 24 * 60 * 60 * 1000
  const MAX_DEPTH: int := 32
  const MAX_CHILDREN: int := 128

  datatype Status = Active | Revoked

  datatype Principal = Principal(
    id: Id,
    name: string,
    credential: Secret,
    parent: Id,
    root: Id,
    host: string,
    generation: int,
    canDelegate: bool,
    depth: int,
    maxDepth: int,
    maxChildren: int,
    status: Status,
    expiresAt: int,
    createdAt: int,
    updatedAt: int)

  /** An enrolment template after normalisation. */
  datatype Template = Template(
    name: string,
    parent: Id,
    root: Id,
    host: string,
    expiresAt: int,
    canDelegate: bool,
    depth: int,
    maxDepth: int,
    maxChildren: int)

  datatype Enrollment = Enrollment(template: Template, expiresAt: int, createdAt: int)

  datatype Registry = Registry(principals: map<Id, Principal>, enrollments: map<Secret, Enrollment>)

  datatype EnrollmentRequest = EnrollmentRequest(
    name: string,
    parent: Id,
    root: Id,
    host: string,
    expiresAt: Option<int>,
    canDelegate: Option<bool>,
    depth: Option<int>,
    maxDepth: Option<int>,
    maxChildren: Option<int>)

  datatype ChildRequest = ChildRequest(
    name: string,
    expiresAt: Option<int>,
    canDelegate: Option<bool>,
    maxDepth: Option<int>,
    maxChildren: Option<int>)

  datatype AccessError =
    | InvalidCredential
    | ExpiredCredential
    | RevokedCredential
    | StaleGeneration
    | InvalidEnrollment
    | InvalidField(field: string)
    | UnknownPrincipal
    | OwnershipCycle

  const EMPTY := Registry(map[], map[])

  // ---------- Reading the registry ----------

  function ParentsOf(s: Registry): Parents {
    map id | id in s.principals :: s.principals[id].parent
  }

  /** The principals whose parent chain reaches `id`. */
  ghost function Tree(s: Registry, id: Id): set<Id> {
    Subtree(ParentsOf(s), id)
  }

  predicate IsLive(p: Principal, now: int) {
    p.status.Active? && p.expiresAt > now
  }

  function LiveChildren(s: Registry, parent: Id, now: int): set<Id> {
    set id | id in s.principals && s.principals[id].parent == parent && IsLive(s.principals[id], now)
  }

  function PendingChildren(s: Registry, parent: Id, now: int): set<Secret> {
    set token | token in s.enrollments && s.enrollments[token].template.parent == parent && s.enrollments[token].expiresAt > now
  }

  function Validate(s: Registry, id: Id, generation: int, now: int): Result<Principal, AccessError> {
    if id !in s.principals then Err(InvalidCredential)
    else
      var p := s.principals[id];
      if p.status.Revoked? then Err(RevokedCredential)
      else if p.expiresAt <= now then Err(ExpiredCredential)
      else if p.generation != generation then Err(StaleGeneration)
      else Ok(p)
  }

  function Authenticate(s: Registry, id: Id, generation: int, credential: Secret, now: int): Result<Principal, AccessError> {
    if id !in s.principals || s.principals[id].credential != credential then Err(InvalidCredential)
    else Validate(s, id, generation, now)
  }

  // ---------- Enrolment ----------

  /** Texts are taken to be trimmed already. */
  predicate IsText(value: string, maxLength: nat) {
    0 < |value| <= maxLength && forall i :: 0 <= i < |value| ==> value[i] as int > 0x1f && value[i] as int != 0x7f
  }

  function BoundedInteger(value: Option<int>, fallback: int, field: string, minimum: int, maximum: int): (r: Result<int, AccessError>)
  {
    var resolved := value.GetOr(fallback);
    if resolved < minimum || resolved > maximum then Err(InvalidField(field)) else Ok(resolved)
  }

  function Normalize(r: EnrollmentRequest, ttlMs: int, now: int): Result<Enrollment, AccessError> {
    var expiresAt := r.expiresAt.GetOr(now + DEFAULT_PRINCIPAL_TTL_MS);
    :- Need(0 < ttlMs <= MAX_ENROLLMENT_TTL_MS, InvalidField("enrollment TTL"));
    :- Need(now < expiresAt <= MAX_SAFE_INTEGER, InvalidField("principal expiry"));
    var depth :- BoundedInteger(r.depth, 1, "principal depth", 1, MAX_DEPTH);
    var maxDepth :- BoundedInteger(r.maxDepth, depth, "maximum delegation depth", depth, MAX_DEPTH);
    var maxChildren :- BoundedInteger(r.maxChildren, 0, "maximum child count", 0, MAX_CHILDREN);
    var canDelegate := r.canDelegate == Some(true);
    :- Need(canDelegate ==> maxDepth > depth && maxChildren != 0, InvalidField("delegation capacity"));
    :- Need(IsText(r.name, 256), InvalidField("principal name"));
    :- Need(IsText(r.parent, 512), InvalidField("parent session ID"));
    :- Need(IsText(r.root, 512), InvalidField("root session ID"));
    :- Need(IsText(r.host, 256), InvalidField("remote host ID"));
    Ok(Enrollment(
      Template(r.name, r.parent, r.root, r.host, expiresAt, canDelegate, depth, maxDepth, maxChildren),
      now + ttlMs, now))
  }

  function Unexpired(enrollments: map<Secret, Enrollment>, now: int): map<Secret, Enrollment> {
    map token | token in enrollments && enrollments[token].expiresAt > now :: enrollments[token]
  }

  /** `token` is the fresh secret handed to the caller. */
  function Issue(s: Registry, r: EnrollmentRequest, ttlMs: int, now: int, token: Secret): (Registry, Result<int, AccessError>) {
    match Normalize(r, ttlMs, now)
    case Err(e) => (s, Err(e))
    case Ok(enrollment) =>
      (s.(enrollments := Unexpired(s.enrollments, now)[token := enrollment]), Ok(enrollment.expiresAt))
  }

  /** What the parent's limits make of a child request. */
  function Attenuate(s: Registry, parent: Principal, c: ChildRequest, now: int): Result<EnrollmentRequest, AccessError> {
    var depth := parent.depth + 1;
    :- Need(parent.canDelegate, InvalidEnrollment);
    :- Need(|LiveChildren(s, parent.id, now)| + |PendingChildren(s, parent.id, now)| < parent.maxChildren, InvalidEnrollment);
    :- Need(depth <= parent.maxDepth, InvalidEnrollment);
    var maxDepth :- BoundedInteger(c.maxDepth, depth, "child maximum depth", depth, parent.maxDepth);
    var maxChildren :- BoundedInteger(c.maxChildren, 0, "child maximum count", 0, parent.maxChildren);
    var canDelegate := c.canDelegate == Some(true);
    :- Need(canDelegate ==> maxDepth > depth && maxChildren != 0, InvalidField("delegation capacity"));
    var expiresAt := c.expiresAt.GetOr(parent.expiresAt);
    :- Need(now < expiresAt <= parent.expiresAt && expiresAt <= MAX_SAFE_INTEGER, InvalidField("child expiry"));
    Ok(EnrollmentRequest(c.name, parent.id, parent.root, parent.host, Some(expiresAt), Some(canDelegate),
      Some(depth), Some(maxDepth), Some(maxChildren)))
  }

  function IssueChild(s: Registry, parent: Id, generation: int, c: ChildRequest, ttlMs: int, now: int, token: Secret)
    : (Registry, Result<int, AccessError>)
  {
    match Validate(s, parent, generation, now)
    case Err(e) => (s, Err(e))
    case Ok(p) =>
      match Attenuate(s, p, c, now)
      case Err(e) => (s, Err(e))
      case Ok(r) => Issue(s, r, ttlMs, now, token)
  }

  function Enrolled(id: Id, t: Template, credential: Secret, now: int): Principal {
    Principal(id, t.name, credential, t.parent, t.root, t.host, 1, t.canDelegate, t.depth, t.maxDepth, t.maxChildren, Active, t.expiresAt, now, now)
  }

  /** A token is gone once it is presented, whether or not it was still valid. */
  function Consume(s: Registry, token: Secret, now: int, id: Id, credential: Secret): (Registry, Result<Principal, AccessError>) {
    if token !in s.enrollments then (s, Err(InvalidEnrollment))
    else
      var enrollment := s.enrollments[token];
      var rest := s.enrollments - {token};
      if enrollment.expiresAt <= now then (s.(enrollments := rest), Err(InvalidEnrollment))
      else
        var p := Enrolled(id, enrollment.template, credential, now);
        (Registry(s.principals[id := p], rest), Ok(p))
  }

  // ---------- Transitions of whole subtrees ----------

  function RevokedAt(p: Principal, now: int): Principal {
    p.(status := Revoked, generation := p.generation + 1, updatedAt := now)
  }

  ghost function Revoke(s: Registry, id: Id, now: int): Registry {
    s.(principals := map x | x in s.principals ::
      if x in Tree(s, id) then RevokedAt(s.principals[x], now) else s.principals[x])
  }

  function MovedTo(p: Principal, root: Id, now: int): Principal {
    p.(root := root, generation := p.generation + 1, updatedAt := now)
  }

  ghost function Adopt(s: Registry, id: Id, newParent: Id, newRoot: Id, now: int): (Registry, Result<set<Id>, AccessError>) {
    if id !in s.principals then (s, Err(UnknownPrincipal))
    else if newParent == id || newParent in Tree(s, id) then (s, Err(OwnershipCycle))
    else if !IsText(newParent, 512) then (s, Err(InvalidField("new parent session ID")))
    else
      var moved := Tree(s, id);
      var principals := map x | x in s.principals ::
        if x !in moved then s.principals[x]
        else MovedTo(if x == id then s.principals[x].(parent := newParent) else s.principals[x], newRoot, now);
      var enrollments := map token | token in s.enrollments && s.enrollments[token].template.parent !in moved :: s.enrollments[token];
      (Registry(principals, enrollments), Ok(moved))
  }

  /** Active principals whose time is over. */
  function Due(s: Registry, now: int): set<Id> {
    set id | id in s.principals && s.principals[id].status.Active? && s.principals[id].expiresAt <= now
  }

  /** The expiry sweep over `order`, and the principals it changed: a principal that an earlier
      revocation of the sweep already changed is passed over. */
  ghost function Sweep(s: Registry, order: seq<Id>, now: int): (Registry, set<Id>)
    decreases |order|
  {
    if order == [] then (s, {})
    else
      var (before, changed) := Sweep(s, order[..|order| - 1], now);
      var id := order[|order| - 1];
      if id in changed then (before, changed)
      else (Revoke(before, id, now), changed + Tree(before, id))
  }

  /** An order in which the sweep may take the due principals: each once, by depth. */
  ghost predicate IsSweepOrder(s: Registry, order: seq<Id>, now: int) {
    && (set id | id in order) == Due(s, now)
    && (forall i, j :: 0 <= i < j < |order| ==> order[i] != order[j])
    && (forall i, j :: 0 <= i < j < |order| && order[i] in s.principals && order[j] in s.principals ==>
      s.principals[order[i]].depth <= s.principals[order[j]].depth)
  }

  // ---------- How the operations act on the parent links ----------

  lemma RevokeKeepsLinks(s: Registry, id: Id, now: int)
    ensures ParentsOf(Revoke(s, id, now)) == ParentsOf(s)
  {}

  lemma AdoptMovesOneLink(s: Registry, id: Id, newParent: Id, newRoot: Id, now: int)
    requires Adopt(s, id, newParent, newRoot, now).1.Ok?
    ensures ParentsOf(Adopt(s, id, newParent, newRoot, now).0) == ParentsOf(s)[id := newParent]
  {
    BelowSelf(ParentsOf(s), id);
  }
}
