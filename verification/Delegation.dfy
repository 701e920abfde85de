/** What delegation limits guarantee in runs without adoption: budgets are kept, limits only
    narrow on the way down, and live subtrees are bounded by them. */
module Delegation {

  import opened Wrappers
  import opened Forest
  import opened RegistryModel
  import opened RegistryRuns
  import opened Sets

  // ---------- Limits ----------

  predicate InRange(depth: int, maxDepth: int, maxChildren: int) {
    1 <= depth <= maxDepth <= MAX_DEPTH && 0 <= maxChildren <= MAX_CHILDREN
  }

  /** Limits given below `parent` are no wider than the parent's own. */
  predicate Narrows(s: Registry, parent: Id, depth: int, maxDepth: int, maxChildren: int, expiresAt: int) {
    parent in s.principals ==>
      var p := s.principals[parent];
      depth == p.depth + 1 && maxDepth <= p.maxDepth && maxChildren <= p.maxChildren && expiresAt <= p.expiresAt
  }

  ghost predicate Attenuated(s: Registry) {
    && (forall id :: id in s.principals ==>
      var p := s.principals[id];
      InRange(p.depth, p.maxDepth, p.maxChildren) && Narrows(s, p.parent, p.depth, p.maxDepth, p.maxChildren, p.expiresAt))
    && (forall token :: token in s.enrollments ==>
      var t := s.enrollments[token].template;
      InRange(t.depth, t.maxDepth, t.maxChildren) && Narrows(s, t.parent, t.depth, t.maxDepth, t.maxChildren, t.expiresAt))
  }

  /** What a parent has spent of its child budget. */
  function Spent(s: Registry, parent: Id, now: int): nat {
    |LiveChildren(s, parent, now)| + |PendingChildren(s, parent, now)|
  }

  /** No parent has more live children and unexpired enrolments than it may. */
  ghost predicate WithinBudget(s: Registry, now: int) {
    forall id :: id in s.principals ==> Spent(s, id, now) <= s.principals[id].maxChildren
  }

  // ---------- Counting ----------

  lemma SpentFalls(s: Registry, s': Registry, id: Id, now: int, now': int)
    requires LiveChildren(s', id, now') <= LiveChildren(s, id, now)
    requires PendingChildren(s', id, now') <= PendingChildren(s, id, now)
    ensures Spent(s', id, now') <= Spent(s, id, now)
  {
    SubsetIsSmaller(LiveChildren(s', id, now'), LiveChildren(s, id, now));
    SubsetIsSmaller(PendingChildren(s', id, now'), PendingChildren(s, id, now));
  }

  lemma TimeFreesBudget(s: Registry, now: int, now': int)
    requires WithinBudget(s, now) && now <= now'
    ensures WithinBudget(s, now')
  {
    forall id | id in s.principals ensures Spent(s, id, now') <= s.principals[id].maxChildren {
      SpentFalls(s, s, id, now, now');
    }
  }

  // ---------- Issuing ----------

  lemma AttenuateMeansNarrower(s: Registry, parent: Id, generation: int, c: ChildRequest, now: int)
    requires Keyed(s) && Attenuated(s) && Validate(s, parent, generation, now).Ok?
    requires Attenuate(s, s.principals[parent], c, now).Ok?
    ensures var r := Attenuate(s, s.principals[parent], c, now).value;
            && r.parent == parent && r.depth.Some? && r.maxDepth.Some? && r.maxChildren.Some? && r.expiresAt.Some?
            && InRange(r.depth.value, r.maxDepth.value, r.maxChildren.value)
            && Narrows(s, parent, r.depth.value, r.maxDepth.value, r.maxChildren.value, r.expiresAt.value)
            && Spent(s, parent, now) < s.principals[parent].maxChildren
  {}

  lemma IssueKeepsAttenuated(s: Registry, r: EnrollmentRequest, ttlMs: int, now: int, token: Secret)
    requires Attenuated(s)
    requires r.parent in s.principals ==>
      && r.depth.Some? && r.maxDepth.Some? && r.maxChildren.Some? && r.expiresAt.Some?
      && Narrows(s, r.parent, r.depth.value, r.maxDepth.value, r.maxChildren.value, r.expiresAt.value)
    ensures Attenuated(Issue(s, r, ttlMs, now, token).0)
  {
    var s' := Issue(s, r, ttlMs, now, token).0;
    var n := Normalize(r, ttlMs, now);
    if n.Ok? {
      var t := n.value.template;
      assert InRange(t.depth, t.maxDepth, t.maxChildren);
      assert Narrows(s, t.parent, t.depth, t.maxDepth, t.maxChildren, t.expiresAt);
      forall x | x in s'.enrollments && x != token ensures x in s.enrollments && s'.enrollments[x] == s.enrollments[x] {}
    }
  }

  lemma OneMorePending(s: Registry, s': Registry, token: Secret, id: Id, now: int)
    requires s'.principals == s.principals && token in s'.enrollments && s'.enrollments[token].expiresAt > now
    requires s'.enrollments - {token} == Unexpired(s.enrollments, now) - {token}
    ensures var more := if s'.enrollments[token].template.parent == id then 1 else 0;
            && Spent(s', id, now) <= Spent(s, id, now) + more
            && (token !in s.enrollments ==> Spent(s', id, now) == Spent(s, id, now) + more)
  {
    assert LiveChildren(s', id, now) == LiveChildren(s, id, now);
    assert token !in s.enrollments ==> token !in PendingChildren(s, id, now);
    PendingAfterIssue(s, s', token, id, now);
    hide LiveChildren, PendingChildren, Unexpired;
  }

  lemma PendingAfterIssue(s: Registry, s': Registry, token: Secret, id: Id, now: int)
    requires token in s'.enrollments && s'.enrollments[token].expiresAt > now
    requires s'.enrollments - {token} == Unexpired(s.enrollments, now) - {token}
    ensures PendingChildren(s', id, now) ==
            PendingChildren(s, id, now) - {token} + (if s'.enrollments[token].template.parent == id then {token} else {})
  {
    var rest, rest' := Unexpired(s.enrollments, now) - {token}, s'.enrollments - {token};
    forall x ensures x != token ==> (x in PendingChildren(s', id, now) <==> x in PendingChildren(s, id, now)) {
      assert x in rest' <==> x in rest;
      assert x in rest ==> rest'[x] == rest[x];
    }
  }

  /** Issuing keeps every budget; if the token is fresh, it takes exactly one from the parent's
      and nothing from any other. */
  lemma IssueSpendsOne(s: Registry, r: EnrollmentRequest, ttlMs: int, now: int, token: Secret)
    requires WithinBudget(s, now)
    requires r.parent in s.principals ==> Spent(s, r.parent, now) < s.principals[r.parent].maxChildren
    ensures WithinBudget(Issue(s, r, ttlMs, now, token).0, now)
    ensures token !in s.enrollments && Issue(s, r, ttlMs, now, token).1.Ok? ==>
      forall id :: Spent(Issue(s, r, ttlMs, now, token).0, id, now) == Spent(s, id, now) + if id == r.parent then 1 else 0
  {
    var s' := Issue(s, r, ttlMs, now, token).0;
    if Normalize(r, ttlMs, now).Ok? {
      assert s'.enrollments[token].template.parent == r.parent && s'.enrollments[token].expiresAt > now;
      hide Spent, Unexpired;
      forall id ensures Spent(s', id, now) <= Spent(s, id, now) + if id == r.parent then 1 else 0
                ensures token !in s.enrollments ==> Spent(s', id, now) == Spent(s, id, now) + if id == r.parent then 1 else 0 {
        OneMorePending(s, s', token, id, now);
      }
    }
  }

  // ---------- Consuming: a pending child becomes a live one ----------

  lemma ConsumeKeepsAttenuated(s: Registry, token: Secret, now: int, id: Id, credential: Secret)
    requires Attenuated(s) && Fresh(s, id)
    ensures Attenuated(Consume(s, token, now, id, credential).0)
  {}

  lemma PendingBecomesLive(s: Registry, token: Secret, now: int, id: Id, credential: Secret, x: Id)
    requires id !in s.principals
    ensures var (s', r) := Consume(s, token, now, id, credential);
            if r.Err? then PendingChildren(s', x, now) == PendingChildren(s, x, now) && LiveChildren(s', x, now) == LiveChildren(s, x, now)
            else
              var t := s.enrollments[token].template;
              && PendingChildren(s', x, now) == PendingChildren(s, x, now) - {token}
              && LiveChildren(s', x, now) == LiveChildren(s, x, now) + (if x == t.parent && t.expiresAt > now then {id} else {})
              && (x == t.parent ==> token in PendingChildren(s, x, now))
  {}

  /** The parent of a presented token has one pending child less, and one live child more unless
      the enrolled principal's own time is already over. */
  lemma ConsumeSwapsChild(s: Registry, token: Secret, now: int, id: Id, credential: Secret, x: Id)
    requires id !in s.principals
    ensures var (s', r) := Consume(s, token, now, id, credential);
            && Spent(s', x, now) <= Spent(s, x, now) && (r.Err? ==> Spent(s', x, now) == Spent(s, x, now))
            && (r.Ok? && x == s.enrollments[token].template.parent ==>
              && |PendingChildren(s', x, now)| == |PendingChildren(s, x, now)| - 1
              && |LiveChildren(s', x, now)| == |LiveChildren(s, x, now)| + if s.enrollments[token].template.expiresAt > now then 1 else 0)
  {
    assert id !in LiveChildren(s, x, now);
    PendingBecomesLive(s, token, now, id, credential, x);
    hide Consume, PendingChildren, LiveChildren;
    SubsetIsSmaller(PendingChildren(s, x, now) - {token}, PendingChildren(s, x, now));
  }

  lemma ConsumeConservesBudget(s: Registry, token: Secret, now: int, id: Id, credential: Secret)
    requires Attenuated(s) && WithinBudget(s, now) && Fresh(s, id)
    ensures WithinBudget(Consume(s, token, now, id, credential).0, now)
  {
    var (s', r) := Consume(s, token, now, id, credential);
    assert r.Ok? ==> s'.principals == s.principals[id := s'.principals[id]] && s'.principals[id].maxChildren >= 0 by {
      if r.Ok? { assert InRange(s.enrollments[token].template.depth, s.enrollments[token].template.maxDepth, s.enrollments[token].template.maxChildren); }
    }
    assert r.Err? ==> s'.principals == s.principals;
    hide Attenuated, Consume, Spent;
    forall x | x in s'.principals ensures Spent(s', x, now) <= s'.principals[x].maxChildren {
      ConsumeSwapsChild(s, token, now, id, credential, x);
    }
  }

  // ---------- Runs ----------

  ghost predicate Disciplined(w: World) {
    Sound(w.registry) && Covered(w) && Attenuated(w.registry) && WithinBudget(w.registry, w.now)
  }

  lemma IssueBelowKeepsLimits(s: Registry, parent: Id, generation: int, child: ChildRequest, ttlMs: int, now: int, token: Secret)
    requires Keyed(s) && Attenuated(s) && WithinBudget(s, now)
    ensures var s' := IssueChild(s, parent, generation, child, ttlMs, now, token).0;
            Attenuated(s') && WithinBudget(s', now)
  {
    if Validate(s, parent, generation, now).Ok? && Attenuate(s, s.principals[parent], child, now).Ok? {
      AttenuateMeansNarrower(s, parent, generation, child, now);
      hide Attenuated, WithinBudget, Attenuate, Issue, Narrows, InRange, Spent, Keyed;
      var r := Attenuate(s, s.principals[parent], child, now).value;
      IssueKeepsAttenuated(s, r, ttlMs, now, token);
      IssueSpendsOne(s, r, ttlMs, now, token);
    }
  }

  /** A revocation or a sweep leaves every limit as it was and only ends lives. */
  lemma TransitionFrees(s: Registry, s': Registry, now: int)
    requires Attenuated(s) && WithinBudget(s, now) && Fenced(s, s')
    requires s'.enrollments == s.enrollments && s'.principals.Keys == s.principals.Keys
    requires forall id :: id in s.principals ==> SameOrigin(s.principals[id], s'.principals[id])
    ensures Attenuated(s') && WithinBudget(s', now)
  {
    forall id | id in s'.principals ensures Spent(s', id, now) <= s'.principals[id].maxChildren {
      forall x | x in LiveChildren(s', id, now) ensures x in LiveChildren(s, id, now) {
        assert SameOrigin(s.principals[x], s'.principals[x]);
      }
      SpentFalls(s, s', id, now, now);
      assert SameOrigin(s.principals[id], s'.principals[id]);
    }
    forall id | id in s'.principals
      ensures var p := s'.principals[id];
              InRange(p.depth, p.maxDepth, p.maxChildren) && Narrows(s', p.parent, p.depth, p.maxDepth, p.maxChildren, p.expiresAt)
    {
      assert SameOrigin(s.principals[id], s'.principals[id]);
      var parent := s.principals[id].parent;
      if parent in s.principals { assert SameOrigin(s.principals[parent], s'.principals[parent]); }
    }
    forall token | token in s'.enrollments
      ensures var t := s'.enrollments[token].template;
              InRange(t.depth, t.maxDepth, t.maxChildren) && Narrows(s', t.parent, t.depth, t.maxDepth, t.maxChildren, t.expiresAt)
    {
      var parent := s.enrollments[token].template.parent;
      if parent in s.principals { assert SameOrigin(s.principals[parent], s'.principals[parent]); }
    }
  }

  lemma StepKeepsLimits(w: World, e: Event, now: int)
    requires Disciplined(w) && Allowed(w, e, now) && !e.AdoptTree?
    ensures Attenuated(Step(w.registry, e, now)) && WithinBudget(Step(w.registry, e, now), now)
  {
    var s := w.registry;
    TimeFreesBudget(s, w.now, now);
    match e
    case IssueDirect(r, ttlMs, token) =>
      IssueKeepsAttenuated(s, r, ttlMs, now, token);
      IssueSpendsOne(s, r, ttlMs, now, token);
    case IssueBelow(parent, generation, child, ttlMs, token) =>
      IssueBelowKeepsLimits(s, parent, generation, child, ttlMs, now, token);
    case Present(token, id, credential) =>
      ConsumeKeepsAttenuated(s, token, now, id, credential);
      ConsumeConservesBudget(s, token, now, id, credential);
    case RevokeTree(id) => TransitionFrees(s, Revoke(s, id, now), now);
    case ExpireDue(order) =>
      SweepKeepsShape(s, order, now);
      SweepFences(s, order, now);
      TransitionFrees(s, Sweep(s, order, now).0, now);
    case AdoptTree(_, _, _) =>
  }

  ghost predicate AdoptionFree(events: seq<Timed>) {
    forall i :: 0 <= i < |events| ==> !events[i].event.AdoptTree?
  }

  lemma StepKeepsDiscipline(w: World, e: Event, now: int)
    requires Disciplined(w) && Allowed(w, e, now) && !e.AdoptTree?
    ensures Disciplined(Next(w, e, now))
  {
    StepKeepsSound(w, e, now);
    StepKeepsCovered(w, e, now);
    StepKeepsLimits(w, e, now);
  }

  lemma {:induction false} AdoptionFreeRunsAreDisciplined(events: seq<Timed>)
    requires IsRun(events) && AdoptionFree(events)
    ensures Disciplined(Run(events))
    decreases |events|
  {
    if events != [] {
      LastStep(events);
      var before, last := events[..|events| - 1], events[|events| - 1];
      AdoptionFreeRunsAreDisciplined(before);
      StepKeepsDiscipline(Run(before), last.event, last.now);
    }
  }

  // ---------- The size of a live subtree ----------

  /** The live principals `k` steps below `top` along live principals. */
  ghost function Level(s: Registry, top: Id, now: int, k: nat): set<Id> {
    if k == 0 then {top}
    else set id | id in s.principals && IsLive(s.principals[id], now) && s.principals[id].parent in Level(s, top, now, k - 1)
  }

  /** `top` and everything reachable from it through live principals. */
  ghost function LiveTree(s: Registry, top: Id, now: int): set<Id> {
    set id | id in s.principals && exists k: nat :: id in Level(s, top, now, k)
  }

  function Power(m: nat, k: nat): nat {
    if k == 0 then 1 else m * Power(m, k - 1)
  }

  /** `1 + m + ... + m^h`, and nothing when `h` is negative. */
  function Geometric(m: nat, h: int): nat
    decreases h + 1
  {
    if h < 0 then 0 else Geometric(m, h - 1) + Power(m, h)
  }

  lemma {:induction false} LevelMembersAreDeeper(s: Registry, top: Id, now: int, k: nat)
    requires Attenuated(s) && top in s.principals
    ensures forall id :: id in Level(s, top, now, k) ==>
      && id in s.principals
      && s.principals[id].depth == s.principals[top].depth + k
      && s.principals[id].maxDepth <= s.principals[top].maxDepth
      && s.principals[id].maxChildren <= s.principals[top].maxChildren
    decreases k
  {
    if k > 0 { LevelMembersAreDeeper(s, top, now, k - 1); }
  }

  ghost function LiveChildrenOfAll(s: Registry, parents: set<Id>, now: int): set<Id> {
    set id | id in s.principals && IsLive(s.principals[id], now) && s.principals[id].parent in parents
  }

  lemma OneParentMore(m: nat, n: nat, k: nat, extra: nat)
    requires k <= m * n && extra <= m
    ensures k + extra <= m * (n + 1)
  {}

  lemma ChildrenSplit(s: Registry, parents: set<Id>, id: Id, now: int)
    requires id in parents
    ensures LiveChildrenOfAll(s, parents, now) == LiveChildrenOfAll(s, parents - {id}, now) + LiveChildren(s, id, now)
  {}

  lemma {:induction false} ChildrenAreFew(s: Registry, parents: set<Id>, now: int, m: nat)
    requires forall id :: id in parents ==> |LiveChildren(s, id, now)| <= m
    ensures |LiveChildrenOfAll(s, parents, now)| <= m * |parents|
    decreases |parents|
  {
    if parents == {} {
      assert LiveChildrenOfAll(s, parents, now) == {};
    } else {
      var id :| id in parents;
      var others := parents - {id};
      ChildrenAreFew(s, others, now, m);
      var few, own := LiveChildrenOfAll(s, others, now), LiveChildren(s, id, now);
      ChildrenSplit(s, parents, id, now);
      UnionIsAtMostSum(few, own);
      OneParentMore(m, |others|, |few|, |own|);
    }
  }

  lemma NextLevelIsFew(s: Registry, top: Id, now: int, k: nat)
    requires Attenuated(s) && WithinBudget(s, now) && top in s.principals
    ensures s.principals[top].maxChildren >= 0
    ensures |Level(s, top, now, k + 1)| <= s.principals[top].maxChildren * |Level(s, top, now, k)|
  {
    assert InRange(s.principals[top].depth, s.principals[top].maxDepth, s.principals[top].maxChildren);
    assert Level(s, top, now, k + 1) == LiveChildrenOfAll(s, Level(s, top, now, k), now);
    EachHasFewChildren(s, top, now, k);
    hide Level, LiveChildrenOfAll, LiveChildren, Attenuated, WithinBudget;
    ChildrenAreFew(s, Level(s, top, now, k), now, s.principals[top].maxChildren);
  }

  lemma {:induction false} LevelsAreSmall(s: Registry, top: Id, now: int, k: nat)
    requires Attenuated(s) && WithinBudget(s, now) && top in s.principals
    ensures s.principals[top].maxChildren >= 0
    ensures |Level(s, top, now, k)| <= Power(s.principals[top].maxChildren, k)
    decreases k
  {
    hide Level, Attenuated, WithinBudget;
    if k == 0 {
      FirstLevel(s, top, now);
    } else {
      var m := s.principals[top].maxChildren;
      LevelsAreSmall(s, top, now, k - 1);
      NextLevelIsFew(s, top, now, k - 1);
    }
  }

  lemma FirstLevel(s: Registry, top: Id, now: int)
    requires Attenuated(s) && top in s.principals
    ensures s.principals[top].maxChildren >= 0 && Level(s, top, now, 0) == {top}
  {
    assert InRange(s.principals[top].depth, s.principals[top].maxDepth, s.principals[top].maxChildren);
  }

  lemma EachHasFewChildren(s: Registry, top: Id, now: int, k: nat)
    requires Attenuated(s) && WithinBudget(s, now) && top in s.principals
    ensures forall id :: id in Level(s, top, now, k) ==> |LiveChildren(s, id, now)| <= s.principals[top].maxChildren
  {
    LevelMembersAreDeeper(s, top, now, k);
    hide Level, Attenuated;
    forall id | id in Level(s, top, now, k) ensures |LiveChildren(s, id, now)| <= s.principals[top].maxChildren {
      assert |LiveChildren(s, id, now)| <= Spent(s, id, now) <= s.principals[id].maxChildren;
    }
  }

  ghost function LevelsUpTo(s: Registry, top: Id, now: int, h: int): set<Id>
    decreases h + 1
  {
    if h < 0 then {} else LevelsUpTo(s, top, now, h - 1) + Level(s, top, now, h)
  }

  lemma {:induction false} LevelsUpToAreSmall(s: Registry, top: Id, now: int, h: int)
    requires Attenuated(s) && WithinBudget(s, now) && top in s.principals
    ensures s.principals[top].maxChildren >= 0
    ensures |LevelsUpTo(s, top, now, h)| <= Geometric(s.principals[top].maxChildren, h)
    decreases h + 1
  {
    assert InRange(s.principals[top].depth, s.principals[top].maxDepth, s.principals[top].maxChildren);
    if h >= 0 {
      LevelsUpToAreSmall(s, top, now, h - 1);
      LevelsAreSmall(s, top, now, h);
      UnionIsAtMostSum(LevelsUpTo(s, top, now, h - 1), Level(s, top, now, h));
    }
  }

  lemma {:induction false} LevelIsIncluded(s: Registry, top: Id, now: int, k: nat, h: int)
    requires k <= h
    ensures Level(s, top, now, k) <= LevelsUpTo(s, top, now, h)
    decreases h
  {
    if k < h { LevelIsIncluded(s, top, now, k, h - 1); }
  }

  lemma LiveTreeHasFewLevels(s: Registry, top: Id, now: int, id: Id)
    requires Attenuated(s) && top in s.principals && id in LiveTree(s, top, now)
    requires forall x :: x in s.principals ==> s.principals[x].depth <= s.principals[x].maxDepth
    ensures id in LevelsUpTo(s, top, now, s.principals[top].maxDepth - s.principals[top].depth)
  {
    hide Attenuated, Level, LevelsUpTo;
    var k: nat :| id in Level(s, top, now, k);
    LevelMembersAreDeeper(s, top, now, k);
    LevelIsIncluded(s, top, now, k, s.principals[top].maxDepth - s.principals[top].depth);
  }

  lemma AttenuatedDepths(s: Registry)
    requires Attenuated(s)
    ensures forall x :: x in s.principals ==> s.principals[x].depth <= s.principals[x].maxDepth
  {
    forall x | x in s.principals ensures s.principals[x].depth <= s.principals[x].maxDepth {
      assert InRange(s.principals[x].depth, s.principals[x].maxDepth, s.principals[x].maxChildren);
    }
  }

  /** In an adoption-free run the live subtree of a principal with budget `m` has at most
      `1 + m + ... + m^(maxDepth - depth)` members. */
  lemma LiveTreeIsBounded(events: seq<Timed>, top: Id)
    requires IsRun(events) && AdoptionFree(events) && top in Run(events).registry.principals
    ensures var w := Run(events); var p := w.registry.principals[top];
            p.maxChildren >= 0 && |LiveTree(w.registry, top, w.now)| <= Geometric(p.maxChildren, p.maxDepth - p.depth)
  {
    hide Run, IsRun, Attenuated, WithinBudget, LevelsUpTo, LiveTree, Geometric;
    AdoptionFreeRunsAreDisciplined(events);
    var w := Run(events);
    var p := w.registry.principals[top];
    var h := p.maxDepth - p.depth;
    AttenuatedDepths(w.registry);
    LevelsUpToAreSmall(w.registry, top, w.now, h);
    forall id | id in LiveTree(w.registry, top, w.now) ensures id in LevelsUpTo(w.registry, top, w.now, h) {
      LiveTreeHasFewLevels(w.registry, top, w.now, id);
    }
    SubsetIsSmaller(LiveTree(w.registry, top, w.now), LevelsUpTo(w.registry, top, w.now, h));
  }
}
