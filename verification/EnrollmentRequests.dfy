/** Which enrolment requests are granted: every condition a request has to meet, in the order in
    which the first one missed is named, and what a granted one says. */
module EnrollmentRequests {

  import opened Wrappers
  import opened Forest
  import opened RegistryModel
  import opened BrokerModel
  import opened Admission

  datatype Condition = Condition(holds: bool, error: AccessError)

  /** The first of the conditions that does not hold. */
  ghost predicate FailsFirst(conditions: seq<Condition>, error: AccessError) {
    exists i :: 0 <= i < |conditions| && !conditions[i].holds && conditions[i].error == error && forall j :: 0 <= j < i ==> conditions[j].holds
  }

  predicate AllHold(conditions: seq<Condition>) {
    forall i :: 0 <= i < |conditions| ==> conditions[i].holds
  }

  /** The error of the first condition from `i` on that does not hold. */
  function Missed(conditions: seq<Condition>, i: nat): Option<AccessError>
    requires i <= |conditions|
    decreases |conditions| - i
  {
    if i == |conditions| then None else if conditions[i].holds then Missed(conditions, i + 1) else Some(conditions[i].error)
  }

  lemma {:induction false} MissedIsFirst(conditions: seq<Condition>, i: nat, error: AccessError)
    requires i <= |conditions| && forall j :: 0 <= j < i ==> conditions[j].holds
    ensures Missed(conditions, i).None? <==> AllHold(conditions)
    ensures Missed(conditions, i) == Some(error) <==> FailsFirst(conditions, error)
    decreases |conditions| - i
  {
    if i < |conditions| {
      if conditions[i].holds { MissedIsFirst(conditions, i + 1, error); }
      else if FailsFirst(conditions, error) {
        var k :| 0 <= k < |conditions| && !conditions[k].holds && conditions[k].error == error && forall j :: 0 <= j < k ==> conditions[j].holds;
        assert k == i;
      }
    }
  }

  /** One step of looking for it. */
  lemma MissedNext(conditions: seq<Condition>, i: nat)
    requires i < |conditions|
    ensures Missed(conditions, i) == if conditions[i].holds then Missed(conditions, i + 1) else Some(conditions[i].error)
  {}

  /** Not empty, not too long and without control characters. */
  predicate IsClean(text: string, maxLength: nat) {
    0 < |text| <= maxLength && forall c :: c in text ==> 0x20 <= c as int && c as int != 0x7f
  }

  // ---------- Requests ----------

  /** What a request must satisfy, in order: thirty days are the default time of a principal, one
      day is the most that a token may wait. */
  function Conditions(r: EnrollmentRequest, ttlMs: int, now: int): seq<Condition> {
    var depth := r.depth.GetOr(1);
    var maxDepth, maxChildren, expiresAt := r.maxDepth.GetOr(depth), r.maxChildren.GetOr(0), r.expiresAt.GetOr(now + 2_592_000_000);
    [ Condition(0 < ttlMs <= 86_400_000, InvalidField("enrollment TTL")),
      Condition(now < expiresAt <= 9_007_199_254_740_991, InvalidField("principal expiry")),
      Condition(1 <= depth <= 32, InvalidField("principal depth")),
      Condition(depth <= maxDepth <= 32, InvalidField("maximum delegation depth")),
      Condition(0 <= maxChildren <= 128, InvalidField("maximum child count")),
      Condition(r.canDelegate == Some(true) ==> depth < maxDepth && 0 < maxChildren, InvalidField("delegation capacity")),
      Condition(IsClean(r.name, 256), InvalidField("principal name")),
      Condition(IsClean(r.parent, 512), InvalidField("parent session ID")),
      Condition(IsClean(r.root, 512), InvalidField("root session ID")),
      Condition(IsClean(r.host, 256), InvalidField("remote host ID")) ]
  }

  /** The enrolment says what was asked for, with the defaults for what was left open. */
  predicate IsAsRequested(r: EnrollmentRequest, ttlMs: int, now: int, e: Enrollment) {
    var t := e.template;
    && e.createdAt == now && e.expiresAt == now + ttlMs
    && t.name == r.name && t.parent == r.parent && t.root == r.root && t.host == r.host
    && (t.canDelegate <==> r.canDelegate == Some(true))
    && (match r.depth case Some(n) => t.depth == n case None => t.depth == 1)
    && (match r.maxDepth case Some(n) => t.maxDepth == n case None => t.maxDepth == t.depth)
    && (match r.maxChildren case Some(n) => t.maxChildren == n case None => t.maxChildren == 0)
    && (match r.expiresAt case Some(n) => t.expiresAt == n case None => t.expiresAt == now + 2_592_000_000)
  }

  lemma CleanExactly(text: string, maxLength: nat)
    ensures IsText(text, maxLength) <==> IsClean(text, maxLength)
  {
    if IsText(text, maxLength) { forall c | c in text ensures 0x20 <= c as int && c as int != 0x7f { var i :| 0 <= i < |text| && text[i] == c; } }
    if IsClean(text, maxLength) { forall i | 0 <= i < |text| ensures text[i] as int > 0x1f && text[i] as int != 0x7f { assert text[i] in text; } }
  }

  lemma NormalizingMisses(r: EnrollmentRequest, ttlMs: int, now: int)
    ensures var answer, missed := Normalize(r, ttlMs, now), Missed(Conditions(r, ttlMs, now), 0);
            if answer.Ok? then missed.None? else missed == Some(answer.error)
  {
    CleanExactly(r.name, 256);
    CleanExactly(r.parent, 512);
    CleanExactly(r.root, 512);
    CleanExactly(r.host, 256);
    var c := Conditions(r, ttlMs, now);
    assert Missed(c, 10).None?;
    MissedNext(c, 9); MissedNext(c, 8); MissedNext(c, 7); MissedNext(c, 6); MissedNext(c, 5);
    MissedNext(c, 4); MissedNext(c, 3); MissedNext(c, 2); MissedNext(c, 1); MissedNext(c, 0);
    hide IsText, IsClean, Missed;
  }

  /** A request is granted if and only if it meets all conditions, and otherwise the error names
      the first one that it misses. */
  lemma RequestDecides(r: EnrollmentRequest, ttlMs: int, now: int, error: AccessError)
    ensures var answer, conditions := Normalize(r, ttlMs, now), Conditions(r, ttlMs, now);
            && (answer.Ok? <==> AllHold(conditions))
            && (answer == Err(error) <==> FailsFirst(conditions, error))
            && (answer.Ok? ==> IsAsRequested(r, ttlMs, now, answer.value))
  {
    hide Conditions, AllHold, FailsFirst, IsText, Missed;
    NormalizingMisses(r, ttlMs, now);
    MissedIsFirst(Conditions(r, ttlMs, now), 0, error);
  }

  // ---------- Requests below a principal ----------

  /** The children a principal has, and those it has been granted and that may still come. */
  function Claims(r: Registry, parent: Id, now: int): nat {
    |set x | x in r.principals && r.principals[x].parent == parent && r.principals[x].status == Active && now < r.principals[x].expiresAt|
    + |set t | t in r.enrollments && r.enrollments[t].template.parent == parent && now < r.enrollments[t].expiresAt|
  }

  /** What a principal may grant, in order: nothing beyond its own depth, count and time. */
  function ChildConditions(r: Registry, p: Principal, c: ChildRequest, now: int): seq<Condition> {
    var depth := p.depth + 1;
    var maxDepth, maxChildren, expiresAt := c.maxDepth.GetOr(depth), c.maxChildren.GetOr(0), c.expiresAt.GetOr(p.expiresAt);
    [ Condition(p.canDelegate, InvalidEnrollment),
      Condition(Claims(r, p.id, now) < p.maxChildren, InvalidEnrollment),
      Condition(depth <= p.maxDepth, InvalidEnrollment),
      Condition(depth <= maxDepth <= p.maxDepth, InvalidField("child maximum depth")),
      Condition(0 <= maxChildren <= p.maxChildren, InvalidField("child maximum count")),
      Condition(c.canDelegate == Some(true) ==> depth < maxDepth && 0 < maxChildren, InvalidField("delegation capacity")),
      Condition(now < expiresAt <= p.expiresAt && expiresAt <= 9_007_199_254_740_991, InvalidField("child expiry")) ]
  }

  /** The request a child's becomes: one level below the parent, on its host and under its root. */
  predicate IsBelow(p: Principal, c: ChildRequest, r: EnrollmentRequest) {
    && r.name == c.name && r.parent == p.id && r.root == p.root && r.host == p.host
    && r.canDelegate == Some(c.canDelegate == Some(true)) && r.depth == Some(p.depth + 1)
    && (match c.maxDepth case Some(n) => r.maxDepth == Some(n) case None => r.maxDepth == Some(p.depth + 1))
    && (match c.maxChildren case Some(n) => r.maxChildren == Some(n) case None => r.maxChildren == Some(0))
    && (match c.expiresAt case Some(n) => r.expiresAt == Some(n) case None => r.expiresAt == Some(p.expiresAt))
  }

  lemma ClaimsExactly(r: Registry, parent: Id, now: int)
    ensures |LiveChildren(r, parent, now)| + |PendingChildren(r, parent, now)| == Claims(r, parent, now)
  {
    assert LiveChildren(r, parent, now) ==
      set x | x in r.principals && r.principals[x].parent == parent && r.principals[x].status == Active && now < r.principals[x].expiresAt;
    assert PendingChildren(r, parent, now) ==
      set t | t in r.enrollments && r.enrollments[t].template.parent == parent && now < r.enrollments[t].expiresAt;
  }

  lemma AttenuatingMisses(r: Registry, p: Principal, c: ChildRequest, now: int)
    ensures var answer, missed := Attenuate(r, p, c, now), Missed(ChildConditions(r, p, c, now), 0);
            if answer.Ok? then missed.None? else missed == Some(answer.error)
  {
    ClaimsExactly(r, p.id, now);
    var k := ChildConditions(r, p, c, now);
    assert Missed(k, 7).None?;
    MissedNext(k, 6); MissedNext(k, 5); MissedNext(k, 4); MissedNext(k, 3); MissedNext(k, 2); MissedNext(k, 1); MissedNext(k, 0);
    hide Missed, Claims, LiveChildren, PendingChildren;
  }

  /** A principal's request for a child passes if and only if it stays within the principal's own
      limits, and otherwise the error is that of the first one it exceeds. */
  lemma ChildRequestDecides(r: Registry, p: Principal, c: ChildRequest, now: int, error: AccessError)
    ensures var answer, conditions := Attenuate(r, p, c, now), ChildConditions(r, p, c, now);
            && (answer.Ok? <==> AllHold(conditions))
            && (answer == Err(error) <==> FailsFirst(conditions, error))
            && (answer.Ok? ==> IsBelow(p, c, answer.value))
  {
    hide ChildConditions, AllHold, FailsFirst, LiveChildren, PendingChildren, Missed;
    AttenuatingMisses(r, p, c, now);
    MissedIsFirst(ChildConditions(r, p, c, now), 0, error);
  }

  // ---------- Issuing ----------

  /** The token stands for the request; tokens whose time is over are gone. */
  ghost predicate HasIssued(r: Registry, request: EnrollmentRequest, ttlMs: int, token: Secret, now: int, r': Registry) {
    && r'.principals == r.principals
    && (forall t :: t in r'.enrollments <==> t == token || (t in r.enrollments && now < r.enrollments[t].expiresAt))
    && (forall t :: t in r'.enrollments && t != token ==> r'.enrollments[t] == r.enrollments[t])
    && IsAsRequested(request, ttlMs, now, r'.enrollments[token])
  }

  lemma IssuingExactly(r: Registry, request: EnrollmentRequest, ttlMs: int, token: Secret, now: int)
    ensures var (r', answer) := Issue(r, request, ttlMs, now, token);
            if AllHold(Conditions(request, ttlMs, now)) then answer == Ok(now + ttlMs) && HasIssued(r, request, ttlMs, token, now, r')
            else answer.Err? && r' == r
  {
    RequestDecides(request, ttlMs, now, InvalidEnrollment);
    hide Normalize, Conditions, AllHold, FailsFirst;
  }

  /** Below a principal that stands at the generation, a request is granted if it stays within
      the principal's limits and meets all conditions. */
  lemma ChildIssueDecides(r: Registry, parent: Id, generation: int, c: ChildRequest, request: EnrollmentRequest, ttlMs: int, now: int, token: Secret)
    requires parent in r.principals && IsBelow(r.principals[parent], c, request)
    ensures var (r', answer) := IssueChild(r, parent, generation, c, ttlMs, now, token);
            if Stands(r, parent, generation, now) && AllHold(ChildConditions(r, r.principals[parent], c, now))
               && AllHold(Conditions(request, ttlMs, now))
            then answer == Ok(now + ttlMs) && HasIssued(r, request, ttlMs, token, now, r') else answer.Err? && r' == r
  {
    hide Attenuate, Issue, Conditions, ChildConditions, AllHold, FailsFirst, HasIssued;
    ChildRequestDecides(r, r.principals[parent], c, now, InvalidEnrollment);
    IssuingExactly(r, request, ttlMs, token, now);
  }

  /** An administrator's request is granted if the parent is a live local session, which is its
      own root, and the request meets all conditions; otherwise nothing changes. */
  lemma DirectIssueDecides(b: Broker, parent: Id, root: Id, at: string, c: ChildRequest, ttlMs: int, now: int, token: Secret)
    ensures var b' := BrokerModel.IssueDirect(b, parent, root, at, c, ttlMs, now, token);
            var request := EnrollmentRequest(c.name, parent, parent, at, c.expiresAt, c.canDelegate, None, c.maxDepth, c.maxChildren);
            && b' == b.(registry := b'.registry)
            && if parent in b.sessions && b.sessions[parent].origin == Local && root == parent && AllHold(Conditions(request, ttlMs, now))
               then HasIssued(b.registry, request, ttlMs, token, now, b'.registry) else b' == b
  {
    var request := EnrollmentRequest(c.name, parent, parent, at, c.expiresAt, c.canDelegate, None, c.maxDepth, c.maxChildren);
    IssuingExactly(b.registry, request, ttlMs, token, now);
    hide Issue, Conditions, AllHold, HasIssued;
  }

  /** A principal's own request is granted if the policy allows it, the credential is good and the
      request stays within the principal's limits and meets all conditions. */
  lemma DelegatedIssueDecides(b: Broker, parent: Id, generation: int, secret: Secret, allowed: bool, c: ChildRequest, request: EnrollmentRequest,
                              ttlMs: int, now: int, token: Secret)
    requires parent in b.registry.principals && IsBelow(b.registry.principals[parent], c, request)
    ensures var b' := BrokerModel.IssueDelegated(b, parent, generation, secret, allowed, c, ttlMs, now, token);
            && b' == b.(registry := b'.registry)
            && if allowed && Opens(b.registry, parent, generation, secret, now)
                  && AllHold(ChildConditions(b.registry, b.registry.principals[parent], c, now)) && AllHold(Conditions(request, ttlMs, now))
               then HasIssued(b.registry, request, ttlMs, token, now, b'.registry) else b' == b
  {
    hide IssueChild, Conditions, ChildConditions, AllHold, HasIssued, IsBelow;
    ChildIssueDecides(b.registry, parent, generation, c, request, ttlMs, now, token);
  }

  /** Nobody else is granted anything. */
  lemma StrangersAreGrantedNothing(b: Broker, parent: Id, generation: int, secret: Secret, allowed: bool, c: ChildRequest,
                                   ttlMs: int, now: int, token: Secret)
    requires parent !in b.registry.principals
    ensures BrokerModel.IssueDelegated(b, parent, generation, secret, allowed, c, ttlMs, now, token) == b
  {}
}
