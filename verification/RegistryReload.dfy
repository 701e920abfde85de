/** The registry's file (broker/access-registry.ts): what is written, and what a later broker
    makes of it, files of the first version included. */
module RegistryReload {

  import opened Wrappers
  import opened Forest
  import opened RegistryModel
  import opened RegistryRuns
  import opened Delegation

  const STATE_VERSION: int := 2

  /** A principal as written; the first version knew nothing of delegation. */
  datatype SavedPrincipal = SavedPrincipal(
    record: Principal,
    canDelegate: Option<bool>,
    depth: Option<int>,
    maxDepth: Option<int>,
    maxChildren: Option<int>)

  datatype SavedEnrollment = SavedEnrollment(
    enrollment: Enrollment,
    canDelegate: Option<bool>,
    depth: Option<int>,
    maxDepth: Option<int>,
    maxChildren: Option<int>)

  datatype Saved = Saved(version: int, principals: map<Id, SavedPrincipal>, enrollments: map<Secret, SavedEnrollment>)

  datatype LoadError = UnsupportedVersion | InvalidPrincipal | InvalidEnrollment

  /** The delegation limits of a record, with what a missing field stands for. */
  datatype Limits = Limits(depth: int, maxDepth: int, maxChildren: int)

  function LimitsOf(depth: Option<int>, maxDepth: Option<int>, maxChildren: Option<int>): Option<Limits> {
    var d := depth.GetOr(1);
    var m, c := maxDepth.GetOr(d), maxChildren.GetOr(0);
    if 1 <= d <= m <= MAX_DEPTH && 0 <= c <= MAX_CHILDREN then Some(Limits(d, m, c)) else None
  }

  function ParsePrincipal(id: Id, p: SavedPrincipal): Option<Principal> {
    match LimitsOf(p.depth, p.maxDepth, p.maxChildren)
    case None => None
    case Some(l) =>
      if p.record.id != id then None
      else Some(p.record.(canDelegate := p.canDelegate == Some(true), depth := l.depth, maxDepth := l.maxDepth, maxChildren := l.maxChildren))
  }

  function ParseEnrollment(e: SavedEnrollment): Option<Enrollment> {
    match LimitsOf(e.depth, e.maxDepth, e.maxChildren)
    case None => None
    case Some(l) =>
      Some(e.enrollment.(template := e.enrollment.template.(
        canDelegate := e.canDelegate == Some(true), depth := l.depth, maxDepth := l.maxDepth, maxChildren := l.maxChildren)))
  }

  function ParsedPrincipals(s: Saved): map<Id, Principal> {
    map id | id in s.principals && ParsePrincipal(id, s.principals[id]).Some? :: ParsePrincipal(id, s.principals[id]).value
  }

  function ParsedEnrollments(s: Saved): map<Secret, Enrollment> {
    map t | t in s.enrollments && ParseEnrollment(s.enrollments[t]).Some? :: ParseEnrollment(s.enrollments[t]).value
  }

  /** One bad record refuses the whole file. */
  function Parsed(s: Saved): Result<Registry, LoadError> {
    if s.version != 1 && s.version != STATE_VERSION then Err(UnsupportedVersion)
    else if exists id :: id in s.principals && ParsePrincipal(id, s.principals[id]).None? then Err(InvalidPrincipal)
    else if exists t :: t in s.enrollments && ParseEnrollment(s.enrollments[t]).None? then Err(LoadError.InvalidEnrollment)
    else Ok(Registry(ParsedPrincipals(s), ParsedEnrollments(s)))
  }

  method ParsePrincipals(s: Saved) returns (r: Option<map<Id, Principal>>)
    ensures r == if exists id :: id in s.principals && ParsePrincipal(id, s.principals[id]).None? then None else Some(ParsedPrincipals(s))
  {
    hide ParsePrincipal;
    var principals: map<Id, Principal> := map[];
    var ids := s.principals.Keys;
    while ids != {}
      invariant ids <= s.principals.Keys && principals.Keys == s.principals.Keys - ids
      invariant forall id :: id in principals ==> ParsePrincipal(id, s.principals[id]) == Some(principals[id])
      decreases ids
    {
      var id :| id in ids;
      ids := ids - {id};
      var principal := ParsePrincipal(id, s.principals[id]);
      if principal.None? { return None; }
      principals := principals[id := principal.value];
    }
    assert forall id :: id in s.principals ==> id in principals;
    assert principals == ParsedPrincipals(s);
    return Some(principals);
  }

  method ParseEnrollments(s: Saved) returns (r: Option<map<Secret, Enrollment>>)
    ensures r == if exists t :: t in s.enrollments && ParseEnrollment(s.enrollments[t]).None? then None else Some(ParsedEnrollments(s))
  {
    hide ParseEnrollment;
    var enrollments: map<Secret, Enrollment> := map[];
    var tokens := s.enrollments.Keys;
    while tokens != {}
      invariant tokens <= s.enrollments.Keys && enrollments.Keys == s.enrollments.Keys - tokens
      invariant forall t :: t in enrollments ==> ParseEnrollment(s.enrollments[t]) == Some(enrollments[t])
      decreases tokens
    {
      var t :| t in tokens;
      tokens := tokens - {t};
      var enrollment := ParseEnrollment(s.enrollments[t]);
      if enrollment.None? { return None; }
      enrollments := enrollments[t := enrollment.value];
    }
    assert forall t :: t in s.enrollments ==> t in enrollments;
    assert enrollments == ParsedEnrollments(s);
    return Some(enrollments);
  }

  method ParseState(s: Saved) returns (r: Result<Registry, LoadError>)
    ensures r == Parsed(s)
  {
    hide ParsePrincipal, ParseEnrollment, ParsedPrincipals, ParsedEnrollments;
    if s.version != 1 && s.version != STATE_VERSION { return Err(UnsupportedVersion); }
    var principals := ParsePrincipals(s);
    if principals.None? { return Err(InvalidPrincipal); }
    var enrollments := ParseEnrollments(s);
    if enrollments.None? { return Err(LoadError.InvalidEnrollment); }
    return Ok(Registry(principals.value, enrollments.value));
  }

  function Written(s: Registry): Saved {
    Saved(STATE_VERSION,
      map id | id in s.principals ::
        var p := s.principals[id]; SavedPrincipal(p, Some(p.canDelegate), Some(p.depth), Some(p.maxDepth), Some(p.maxChildren)),
      map t | t in s.enrollments ::
        var e := s.enrollments[t];
        SavedEnrollment(e, Some(e.template.canDelegate), Some(e.template.depth), Some(e.template.maxDepth), Some(e.template.maxChildren)))
  }

  // ---------- Limits in range ----------

  predicate Ranged(s: Registry) {
    && Keyed(s)
    && (forall id :: id in s.principals ==> InRange(s.principals[id].depth, s.principals[id].maxDepth, s.principals[id].maxChildren))
    && (forall t :: t in s.enrollments ==>
      InRange(s.enrollments[t].template.depth, s.enrollments[t].template.maxDepth, s.enrollments[t].template.maxChildren))
  }

  lemma NormalizedIsRanged(r: EnrollmentRequest, ttlMs: int, now: int)
    ensures var n := Normalize(r, ttlMs, now); n.Ok? ==> InRange(n.value.template.depth, n.value.template.maxDepth, n.value.template.maxChildren)
  {
    hide IsText;
  }

  lemma IssueKeepsRanged(s: Registry, r: EnrollmentRequest, ttlMs: int, now: int, token: Secret)
    requires Ranged(s)
    ensures Ranged(Issue(s, r, ttlMs, now, token).0)
  {
    NormalizedIsRanged(r, ttlMs, now);
    hide Normalize, InRange;
  }

  lemma StepKeepsRanged(s: Registry, e: Event, now: int)
    requires Ranged(s)
    ensures Ranged(Step(s, e, now))
  {
    match e
    case IssueDirect(r, ttlMs, token) =>
      hide Issue, Ranged;
      IssueKeepsRanged(s, r, ttlMs, now, token);
    case IssueBelow(parent, generation, child, ttlMs, token) =>
      hide Issue, Ranged, Attenuate;
      var p := Validate(s, parent, generation, now);
      if p.Ok? && Attenuate(s, p.value, child, now).Ok? { IssueKeepsRanged(s, Attenuate(s, p.value, child, now).value, ttlMs, now, token); }
    case ExpireDue(order) => SweepKeepsRanged(s, order, now);
    case _ => hide InRange;
  }

  lemma SweepKeepsRanged(s: Registry, order: seq<Id>, now: int)
    requires Ranged(s)
    ensures Ranged(Sweep(s, order, now).0)
  {
    SweepKeepsShape(s, order, now);
    var s' := Sweep(s, order, now).0;
    forall id | id in s'.principals
      ensures s'.principals[id].id == id && InRange(s'.principals[id].depth, s'.principals[id].maxDepth, s'.principals[id].maxChildren)
    {
      assert SameOrigin(s.principals[id], s'.principals[id]);
    }
  }

  lemma PrincipalsReadBack(s: Registry)
    requires Ranged(s)
    ensures var w := Written(s);
            && (forall id :: id in w.principals ==> ParsePrincipal(id, w.principals[id]).Some?)
            && ParsedPrincipals(w) == s.principals
  {
    forall id | id in s.principals ensures ParsePrincipal(id, Written(s).principals[id]) == Some(s.principals[id]) {}
    hide ParsePrincipal;
  }

  lemma EnrollmentsReadBack(s: Registry)
    requires Ranged(s)
    ensures var w := Written(s);
            && (forall t :: t in w.enrollments ==> ParseEnrollment(w.enrollments[t]).Some?)
            && ParsedEnrollments(w) == s.enrollments
  {
    forall t | t in s.enrollments ensures ParseEnrollment(Written(s).enrollments[t]) == Some(s.enrollments[t]) {}
    hide ParseEnrollment;
  }

  /** What is in range is read back as it was written. */
  lemma ReadsBack(s: Registry)
    requires Ranged(s)
    ensures Parsed(Written(s)) == Ok(s)
  {
    assert Written(s).version == STATE_VERSION;
    hide Written, Ranged, ParsePrincipal, ParseEnrollment, ParsedPrincipals, ParsedEnrollments;
    PrincipalsReadBack(s);
    EnrollmentsReadBack(s);
  }

  /** In every run, whatever was issued, moved, revoked or expired, the registry a new broker
      loads is the one the old broker had. */
  lemma {:induction false} ReloadIsExact(events: seq<Timed>)
    ensures Ranged(Run(events).registry) && Parsed(Written(Run(events).registry)) == Ok(Run(events).registry)
    decreases |events|
  {
    hide Ranged, Step, Parsed, Written;
    if events == [] {
      assert Ranged(EMPTY) by { EmptyIsRanged(); }
    } else {
      ReloadIsExact(events[..|events| - 1]);
      StepKeepsRanged(Run(events[..|events| - 1]).registry, events[|events| - 1].event, events[|events| - 1].now);
    }
    ReadsBack(Run(events).registry);
  }

  lemma EmptyIsRanged()
    ensures Ranged(EMPTY)
  {}

  /** Whatever the file, a registry that is loaded is in range; and a principal that was written
      without delegation fields is loaded as one that may not delegate, so every enrolment below
      it is refused. */
  lemma LoadedCannotExceed(s: Saved, id: Id, generation: int, c: ChildRequest, ttlMs: int, now: int, token: Secret)
    requires Parsed(s).Ok?
    ensures Ranged(Parsed(s).value)
    ensures id in s.principals && s.principals[id].canDelegate != Some(true) ==>
      IssueChild(Parsed(s).value, id, generation, c, ttlMs, now, token).1.Err?
  {
    var r := Parsed(s).value;
    forall x | x in r.principals
      ensures r.principals[x].id == x && InRange(r.principals[x].depth, r.principals[x].maxDepth, r.principals[x].maxChildren)
    {
      assert ParsePrincipal(x, s.principals[x]) == Some(r.principals[x]);
    }
    if id in s.principals && s.principals[id].canDelegate != Some(true) {
      assert ParsePrincipal(id, s.principals[id]) == Some(r.principals[id]);
      assert !r.principals[id].canDelegate;
    }
    hide Parsed, ParsePrincipal;
  }

  // ---------- What is loaded, file by file ----------

  /** A missing depth is 1, a missing greatest depth the depth itself, a missing count 0. */
  predicate WithinLimits(depth: Option<int>, maxDepth: Option<int>, maxChildren: Option<int>) {
    var d := match depth case Some(n) => n case None => 1;
    var m := match maxDepth case Some(n) => n case None => d;
    var c := match maxChildren case Some(n) => n case None => 0;
    1 <= d <= m <= 32 && 0 <= c <= 128
  }

  predicate HasLimits(depth: Option<int>, maxDepth: Option<int>, maxChildren: Option<int>, d: int, m: int, c: int) {
    && (match depth case Some(n) => d == n case None => d == 1)
    && (match maxDepth case Some(n) => m == n case None => m == d)
    && (match maxChildren case Some(n) => c == n case None => c == 0)
  }

  predicate IsGoodPrincipal(id: Id, p: SavedPrincipal) {
    p.record.id == id && WithinLimits(p.depth, p.maxDepth, p.maxChildren)
  }

  predicate IsGoodEnrollment(e: SavedEnrollment) {
    WithinLimits(e.depth, e.maxDepth, e.maxChildren)
  }

  /** The principal is as it was written; without a permission to delegate it has none. */
  predicate IsLoaded(was: SavedPrincipal, p: Principal) {
    && p == was.record.(canDelegate := p.canDelegate, depth := p.depth, maxDepth := p.maxDepth, maxChildren := p.maxChildren)
    && (p.canDelegate <==> was.canDelegate == Some(true)) && HasLimits(was.depth, was.maxDepth, was.maxChildren, p.depth, p.maxDepth, p.maxChildren)
  }

  predicate IsLoadedEnrollment(was: SavedEnrollment, e: Enrollment) {
    var t := e.template;
    && e == was.enrollment.(template := t)
    && t == was.enrollment.template.(canDelegate := t.canDelegate, depth := t.depth, maxDepth := t.maxDepth, maxChildren := t.maxChildren)
    && (t.canDelegate <==> was.canDelegate == Some(true)) && HasLimits(was.depth, was.maxDepth, was.maxChildren, t.depth, t.maxDepth, t.maxChildren)
  }

  lemma PrincipalParses(id: Id, p: SavedPrincipal)
    ensures ParsePrincipal(id, p).Some? <==> IsGoodPrincipal(id, p)
    ensures IsGoodPrincipal(id, p) ==> IsLoaded(p, ParsePrincipal(id, p).value)
  {}

  lemma EnrollmentParses(e: SavedEnrollment)
    ensures ParseEnrollment(e).Some? <==> IsGoodEnrollment(e)
    ensures IsGoodEnrollment(e) ==> IsLoadedEnrollment(e, ParseEnrollment(e).value)
  {}

  /** A file is loaded if and only if it is of one of the two versions and every record in it is
      good; then every record is loaded, and none besides. */
  lemma LoadingDecides(s: Saved)
    ensures var answer := Parsed(s);
            && (answer == Err(UnsupportedVersion) <==> s.version != 1 && s.version != 2)
            && (answer == Err(InvalidPrincipal) <==> s.version in {1, 2} && exists id :: id in s.principals && !IsGoodPrincipal(id, s.principals[id]))
            && (answer.Ok? <==>
              && s.version in {1, 2} && (forall id :: id in s.principals ==> IsGoodPrincipal(id, s.principals[id]))
              && forall t :: t in s.enrollments ==> IsGoodEnrollment(s.enrollments[t]))
            && (answer.Ok? ==>
              && answer.value.principals.Keys == s.principals.Keys && answer.value.enrollments.Keys == s.enrollments.Keys
              && (forall id :: id in s.principals ==> IsLoaded(s.principals[id], answer.value.principals[id]))
              && forall t :: t in s.enrollments ==> IsLoadedEnrollment(s.enrollments[t], answer.value.enrollments[t]))
  {
    hide ParsePrincipal, ParseEnrollment, IsGoodPrincipal, IsGoodEnrollment, IsLoaded, IsLoadedEnrollment;
    forall id | id in s.principals { PrincipalParses(id, s.principals[id]); }
    forall t | t in s.enrollments { EnrollmentParses(s.enrollments[t]); }
  }
}
