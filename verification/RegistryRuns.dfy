/** Every run of the registry under the broker's call discipline: the parent links stay a
    forest whose cached roots are right, generations fence, tokens are used once. */
module RegistryRuns {

  import opened Wrappers
  import opened Forest
  import opened RegistryModel

  // ---------- The invariant ----------

  predicate Keyed(s: Registry) {
    forall id :: id in s.principals ==> s.principals[id].id == id
  }

  /** Following the parent links out of the registry ends exactly at the cached root. */
  ghost predicate Rooted(s: Registry) {
    forall id :: id in s.principals ==> LeavesAt(ParentsOf(s), id, s.principals[id].root)
  }

  /** The root that belongs to a parent: its cached root, or itself outside the registry. */
  function RootFor(s: Registry, parent: Id): Id {
    if parent in s.principals then s.principals[parent].root else parent
  }

  ghost predicate TemplatesRooted(s: Registry) {
    forall token :: token in s.enrollments ==>
      s.enrollments[token].template.root == RootFor(s, s.enrollments[token].template.parent)
  }

  ghost predicate Sound(s: Registry) {
    Keyed(s) && Rooted(s) && TemplatesRooted(s)
  }

  /** No principal, parent, root or template mentions `id`. */
  ghost predicate Fresh(s: Registry, id: Id) {
    && id !in s.principals
    && (forall x :: x in s.principals ==> s.principals[x].parent != id && s.principals[x].root != id)
    && (forall t :: t in s.enrollments ==> s.enrollments[t].template.parent != id && s.enrollments[t].template.root != id)
  }

  lemma IssueKeepsSound(s: Registry, r: EnrollmentRequest, ttlMs: int, now: int, token: Secret)
    requires Sound(s) && r.root == RootFor(s, r.parent)
    ensures Sound(Issue(s, r, ttlMs, now, token).0)
  {
    var s' := Issue(s, r, ttlMs, now, token).0;
    assert ParentsOf(s') == ParentsOf(s);
  }

  lemma IssueChildKeepsSound(s: Registry, parent: Id, generation: int, c: ChildRequest, ttlMs: int, now: int, token: Secret)
    requires Sound(s)
    ensures Sound(IssueChild(s, parent, generation, c, ttlMs, now, token).0)
  {
    var p := Validate(s, parent, generation, now);
    if p.Ok? && Attenuate(s, p.value, c, now).Ok? {
      IssueKeepsSound(s, Attenuate(s, p.value, c, now).value, ttlMs, now, token);
    }
  }

  lemma NewcomerIsRooted(s: Registry, s': Registry, p: Principal)
    requires Rooted(s) && Fresh(s, p.id) && s'.principals == s.principals[p.id := p]
    requires p.parent != p.id && p.root == RootFor(s, p.parent) && p.root != p.id
    ensures Rooted(s')
  {
    var links, links' := ParentsOf(s), ParentsOf(s');
    assert links' == links[p.id := p.parent];
    if p.parent in links { LeavesLargerMap(links, links', p.parent, p.root); } else { BelowSelf(links', p.parent); }
    BelowByStep(links', p.id, p.root);
    hide Below;
    forall x | x in s.principals ensures LeavesAt(links', x, s'.principals[x].root) {
      LeavesLargerMap(links, links', x, s.principals[x].root);
    }
  }

  lemma ConsumeKeepsSound(s: Registry, token: Secret, now: int, id: Id, credential: Secret)
    requires Sound(s) && Fresh(s, id)
    ensures Sound(Consume(s, token, now, id, credential).0)
  {
    var (s', r) := Consume(s, token, now, id, credential);
    assert Keyed(s') && TemplatesRooted(s');
    if r.Ok? {
      NewcomerIsRooted(s, s', r.value);
    } else {
      assert ParentsOf(s') == ParentsOf(s);
    }
  }

  lemma RevokeKeepsSound(s: Registry, id: Id, now: int)
    requires Sound(s)
    ensures Sound(Revoke(s, id, now))
  {
    RevokeKeepsLinks(s, id, now);
  }

  lemma AdoptKeepsSound(s: Registry, id: Id, newParent: Id, newRoot: Id, now: int)
    requires Sound(s) && newRoot == RootFor(s, newParent)
    ensures Sound(Adopt(s, id, newParent, newRoot, now).0)
  {
    var (s', r) := Adopt(s, id, newParent, newRoot, now);
    if r.Ok? {
      AdoptMovesOneLink(s, id, newParent, newRoot, now);
      MovedAreRooted(s, id, newParent, newRoot, now);
      hide IsText, Below;
    }
  }

  lemma MovedAreRooted(s: Registry, id: Id, newParent: Id, newRoot: Id, now: int)
    requires Rooted(s) && newRoot == RootFor(s, newParent) && Adopt(s, id, newParent, newRoot, now).1.Ok?
    ensures Rooted(Adopt(s, id, newParent, newRoot, now).0)
  {
    var s' := Adopt(s, id, newParent, newRoot, now).0;
    var links := ParentsOf(s);
    AdoptMovesOneLink(s, id, newParent, newRoot, now);
    BelowSelf(links, newParent);
    assert LeavesAt(links, newParent, newRoot);
    if Below(links, newParent, id) { StepOfBelow(links, newParent, id); }
    hide Climbs, Below, IsText;
    forall x | x in s'.principals ensures LeavesAt(ParentsOf(s'), x, s'.principals[x].root) {
      MovedChainLeaves(links, id, newParent, newRoot, x, s.principals[x].root);
    }
  }

  lemma {:induction false} SweepKeepsSound(s: Registry, order: seq<Id>, now: int)
    requires Sound(s)
    ensures Sound(Sweep(s, order, now).0)
    decreases |order|
  {
    if order != [] {
      SweepKeepsSound(s, order[..|order| - 1], now);
      RevokeKeepsSound(Sweep(s, order[..|order| - 1], now).0, order[|order| - 1], now);
    }
  }

  // ---------- Runs ----------

  datatype Event =
    | IssueDirect(request: EnrollmentRequest, ttlMs: int, token: Secret)
    | IssueBelow(parent: Id, generation: int, child: ChildRequest, ttlMs: int, token: Secret)
    | Present(token: Secret, id: Id, credential: Secret)
    | RevokeTree(id: Id)
    | AdoptTree(id: Id, newParent: Id, newRoot: Id)
    | ExpireDue(order: seq<Id>)

  /** The registry with its history: the clock, every name and every token ever used. */
  datatype World = World(registry: Registry, now: int, names: set<Id>, tokens: set<Secret>)

  const START := World(EMPTY, 0, {}, {})

  /** The broker's call discipline. A direct enrolment names a live local session as its parent
      and root. An adoption names a principal with its root, or a local session. Local session
      ids are never principal ids; random ids and tokens are fresh; the clock does not go back. */
  ghost predicate Allowed(w: World, e: Event, now: int) {
    && w.now <= now
    && match e
       case IssueDirect(r, _, token) =>
         r.root == r.parent && r.parent !in w.registry.principals && r.depth.None? && token !in w.tokens
       case IssueBelow(_, _, _, _, token) => token !in w.tokens
       case Present(_, id, _) => id !in w.names
       case RevokeTree(_) => true
       case AdoptTree(_, newParent, newRoot) => newRoot == RootFor(w.registry, newParent)
       case ExpireDue(order) => IsSweepOrder(w.registry, order, now)
  }

  ghost function Step(s: Registry, e: Event, now: int): Registry {
    match e
    case IssueDirect(r, ttlMs, token) => Issue(s, r, ttlMs, now, token).0
    case IssueBelow(parent, generation, child, ttlMs, token) => IssueChild(s, parent, generation, child, ttlMs, now, token).0
    case Present(token, id, credential) => Consume(s, token, now, id, credential).0
    case RevokeTree(id) => Revoke(s, id, now)
    case AdoptTree(id, newParent, newRoot) => Adopt(s, id, newParent, newRoot, now).0
    case ExpireDue(order) => Sweep(s, order, now).0
  }

  ghost function Next(w: World, e: Event, now: int): World {
    var names := match e
      case IssueDirect(r, _, _) => {r.parent}
      case Present(_, id, _) => {id}
      case AdoptTree(_, newParent, newRoot) => {newParent, newRoot}
      case _ => {};
    var tokens := match e
      case IssueDirect(_, _, token) => {token}
      case IssueBelow(_, _, _, _, token) => {token}
      case _ => {};
    World(Step(w.registry, e, now), now, w.names + names, w.tokens + tokens)
  }

  datatype Timed = Timed(event: Event, now: int)

  ghost function Run(events: seq<Timed>): World {
    if events == [] then START
    else Next(Run(events[..|events| - 1]), events[|events| - 1].event, events[|events| - 1].now)
  }

  ghost predicate IsRun(events: seq<Timed>) {
    forall i :: 0 <= i < |events| ==> Allowed(Run(events[..i]), events[i].event, events[i].now)
  }

  /** The history covers what the registry mentions. */
  ghost predicate Covered(w: World) {
    var s := w.registry;
    && (forall id :: id in s.principals ==> id in w.names && s.principals[id].parent in w.names && s.principals[id].root in w.names)
    && (forall t :: t in s.enrollments ==> t in w.tokens && s.enrollments[t].template.parent in w.names && s.enrollments[t].template.root in w.names)
  }

  /** Everything but status, generation and time of change agrees. */
  predicate SameOrigin(p: Principal, q: Principal) {
    q == p.(status := q.status, generation := q.generation, updatedAt := q.updatedAt)
  }

  lemma {:induction false} SweepKeepsShape(s: Registry, order: seq<Id>, now: int)
    ensures var s' := Sweep(s, order, now).0;
            && s'.enrollments == s.enrollments && s'.principals.Keys == s.principals.Keys
            && ParentsOf(s') == ParentsOf(s)
            && forall id :: id in s.principals ==> SameOrigin(s.principals[id], s'.principals[id])
    decreases |order|
  {
    if order != [] {
      SweepKeepsShape(s, order[..|order| - 1], now);
      RevokeKeepsLinks(Sweep(s, order[..|order| - 1], now).0, order[|order| - 1], now);
    }
  }

  lemma StepKeepsSound(w: World, e: Event, now: int)
    requires Sound(w.registry) && Covered(w) && Allowed(w, e, now)
    ensures Sound(Next(w, e, now).registry)
  {
    match e
    case IssueDirect(r, ttlMs, token) => IssueKeepsSound(w.registry, r, ttlMs, now, token);
    case IssueBelow(parent, generation, child, ttlMs, token) => IssueChildKeepsSound(w.registry, parent, generation, child, ttlMs, now, token);
    case Present(token, id, credential) => ConsumeKeepsSound(w.registry, token, now, id, credential);
    case RevokeTree(id) => RevokeKeepsSound(w.registry, id, now);
    case AdoptTree(id, newParent, newRoot) => AdoptKeepsSound(w.registry, id, newParent, newRoot, now);
    case ExpireDue(order) => SweepKeepsSound(w.registry, order, now);
  }

  /** Issuing adds at most the one enrolment. */
  lemma IssueShape(s: Registry, r: EnrollmentRequest, ttlMs: int, now: int, token: Secret)
    ensures var s' := Issue(s, r, ttlMs, now, token).0;
            && s'.principals == s.principals
            && forall t :: t in s'.enrollments ==>
              (t in s.enrollments && s'.enrollments[t] == s.enrollments[t])
              || (t == token && s'.enrollments[t].template.parent == r.parent && s'.enrollments[t].template.root == r.root)
  {
    NormalizeKeepsPlace(r, ttlMs, now);
    hide Normalize;
  }

  lemma NormalizeKeepsPlace(r: EnrollmentRequest, ttlMs: int, now: int)
    ensures var n := Normalize(r, ttlMs, now); n.Ok? ==> n.value.template.parent == r.parent && n.value.template.root == r.root
  {
    hide IsText;
  }

  lemma AttenuateKeepsPlace(s: Registry, p: Principal, c: ChildRequest, now: int)
    ensures var r := Attenuate(s, p, c, now); r.Ok? ==> r.value.parent == p.id && r.value.root == p.root
  {
    hide LiveChildren, PendingChildren;
  }

  lemma IssuingKeepsCovered(w: World, e: Event, now: int)
    requires Keyed(w.registry) && Covered(w) && (e.IssueDirect? || e.IssueBelow?) && Allowed(w, e, now)
    ensures Covered(Next(w, e, now))
  {
    hide Issue, Attenuate, Validate;
    var s := w.registry;
    match e
    case IssueDirect(r, ttlMs, token) => IssueShape(s, r, ttlMs, now, token);
    case IssueBelow(parent, generation, child, ttlMs, token) =>
      ValidIsRecorded(s, parent, generation, now);
      var p := Validate(s, parent, generation, now);
      if p.Ok? && Attenuate(s, p.value, child, now).Ok? {
        AttenuateKeepsPlace(s, p.value, child, now);
        IssueShape(s, Attenuate(s, p.value, child, now).value, ttlMs, now, token);
      }
    case _ =>
  }

  lemma ValidIsRecorded(s: Registry, id: Id, generation: int, now: int)
    ensures Validate(s, id, generation, now).Ok? ==> id in s.principals && Validate(s, id, generation, now).value == s.principals[id]
  {}

  lemma TransitionKeepsCovered(w: World, e: Event, now: int)
    requires Covered(w) && (e.RevokeTree? || e.AdoptTree? || e.Present?)
    ensures Covered(Next(w, e, now))
  {
    hide Tree, IsText;
  }

  lemma SweepKeepsCovered(w: World, e: Event, now: int)
    requires Covered(w) && e.ExpireDue?
    ensures Covered(Next(w, e, now))
  {
    hide Sweep;
    SweepKeepsShape(w.registry, e.order, now);
  }

  lemma StepKeepsCovered(w: World, e: Event, now: int)
    requires Keyed(w.registry) && Covered(w) && Allowed(w, e, now)
    ensures Covered(Next(w, e, now))
  {
    hide Next, Covered, Allowed, Keyed;
    if e.IssueDirect? || e.IssueBelow? { IssuingKeepsCovered(w, e, now); }
    else if e.ExpireDue? { SweepKeepsCovered(w, e, now); }
    else { TransitionKeepsCovered(w, e, now); }
  }

  lemma {:induction false} RunsAreSound(events: seq<Timed>)
    requires IsRun(events)
    ensures Sound(Run(events).registry) && Covered(Run(events))
    decreases |events|
  {
    if events != [] {
      var before, last := events[..|events| - 1], events[|events| - 1];
      LastStep(events);
      RunsAreSound(before);
      StepKeepsSound(Run(before), last.event, last.now);
      StepKeepsCovered(Run(before), last.event, last.now);
    }
  }

  lemma PrefixIsRun(events: seq<Timed>, n: nat)
    requires IsRun(events) && n <= |events|
    ensures IsRun(events[..n])
  {
    forall i | 0 <= i < n ensures events[..n][..i] == events[..i] {}
  }

  lemma LastStep(events: seq<Timed>)
    requires IsRun(events) && events != []
    ensures var before, last := events[..|events| - 1], events[|events| - 1];
            && IsRun(before) && Allowed(Run(before), last.event, last.now)
            && Run(events) == Next(Run(before), last.event, last.now)
  {
    PrefixIsRun(events, |events| - 1);
  }

  lemma ExtendedRun(events: seq<Timed>, e: Event, now: int)
    requires IsRun(events) && Allowed(Run(events), e, now)
    ensures IsRun(events + [Timed(e, now)])
    ensures Run(events + [Timed(e, now)]) == Next(Run(events), e, now)
  {
    var more := events + [Timed(e, now)];
    assert more[..|events|] == events;
    forall i | 0 <= i < |more| ensures Allowed(Run(more[..i]), more[i].event, more[i].now) {
      assert more[..i] == events[..i];
      if i == |events| { assert events[..i] == events; }
    }
  }

  /** In every reachable registry no principal is below one of its own descendants, and the
      chain of each leaves the registry at its cached root and nowhere else. */
  lemma ReachableRegistryIsRootedForest(events: seq<Timed>, id: Id, a: Id, root: Id)
    requires IsRun(events) && id in Run(events).registry.principals
    ensures var s := Run(events).registry;
            && (LeavesAt(ParentsOf(s), id, root) <==> root == s.principals[id].root)
            && (Below(ParentsOf(s), id, a) && Below(ParentsOf(s), a, id) ==> a == id)
  {
    RunsAreSound(events);
    var s := Run(events).registry;
    var links := ParentsOf(s);
    if LeavesAt(links, id, root) { LeavesAtOnePlace(links, id, root, s.principals[id].root); }
    if Below(links, id, a) && Below(links, a, id) { LeavingIsAcyclic(links, id, a, s.principals[id].root); }
  }

  // ---------- Fencing ----------

  /** Nothing is forgotten: principals stay, generations do not fall, revoked stays revoked. */
  ghost predicate Fenced(s: Registry, later: Registry) {
    forall id :: id in s.principals ==>
      && id in later.principals
      && s.principals[id].generation <= later.principals[id].generation
      && (s.principals[id].status.Revoked? ==> later.principals[id].status.Revoked?)
  }

  lemma {:induction false} SweepFences(s: Registry, order: seq<Id>, now: int)
    ensures Fenced(s, Sweep(s, order, now).0)
    decreases |order|
  {
    if order != [] { SweepFences(s, order[..|order| - 1], now); }
  }

  lemma RevokeFences(s: Registry, id: Id, now: int)
    ensures Fenced(s, Revoke(s, id, now))
  {
    hide Tree;
  }

  lemma AdoptFences(s: Registry, id: Id, newParent: Id, newRoot: Id, now: int)
    ensures Fenced(s, Adopt(s, id, newParent, newRoot, now).0)
  {
    hide Tree, IsText;
  }

  lemma ConsumeFences(s: Registry, token: Secret, now: int, id: Id, credential: Secret)
    requires id !in s.principals
    ensures Fenced(s, Consume(s, token, now, id, credential).0)
  {}

  lemma StepFences(w: World, e: Event, now: int)
    requires Covered(w) && Allowed(w, e, now)
    ensures Fenced(w.registry, Next(w, e, now).registry)
  {
    hide Fenced, Issue, IssueChild, Consume, Revoke, Adopt, Sweep, IsSweepOrder;
    match e
    case Present(token, id, credential) => ConsumeFences(w.registry, token, now, id, credential);
    case RevokeTree(id) => RevokeFences(w.registry, id, now);
    case AdoptTree(id, newParent, newRoot) => AdoptFences(w.registry, id, newParent, newRoot, now);
    case ExpireDue(order) => SweepFences(w.registry, order, now);
    case _ => IssuingFences(w, e, now);
  }

  lemma IssuingFences(w: World, e: Event, now: int)
    requires e.IssueDirect? || e.IssueBelow?
    ensures Next(w, e, now).registry.principals == w.registry.principals
    ensures Fenced(w.registry, Next(w, e, now).registry)
  {
    hide Normalize, Attenuate;
  }

  lemma FencingComposes(s: Registry, t: Registry, u: Registry)
    requires Fenced(s, t) && Fenced(t, u)
    ensures Fenced(s, u)
  {}

  lemma FencedItself(s: Registry)
    ensures Fenced(s, s)
  {}

  lemma {:induction false} RunsFence(events: seq<Timed>, i: nat, j: nat)
    requires IsRun(events) && i <= j <= |events|
    ensures Fenced(Run(events[..i]).registry, Run(events[..j]).registry)
    decreases j
  {
    hide Fenced, Next, Allowed, Sound, Covered, Run, IsRun;
    if i == j {
      FencedItself(Run(events[..i]).registry);
    } else {
      RunsFence(events, i, j - 1);
      PrefixIsRun(events, j);
      LastStep(events[..j]);
      assert events[..j][..j - 1] == events[..j - 1];
      RunsAreSound(events[..j - 1]);
      StepFences(Run(events[..j - 1]), events[j - 1].event, events[j - 1].now);
      FencingComposes(Run(events[..i]).registry, Run(events[..j - 1]).registry, Run(events[..j]).registry);
    }
  }

  /** The principals an event moves to a new generation. */
  ghost predicate Touches(s: Registry, e: Event, now: int, id: Id) {
    match e
    case RevokeTree(top) => id in Tree(s, top)
    case AdoptTree(top, newParent, newRoot) => Adopt(s, top, newParent, newRoot, now).1.Ok? && id in Tree(s, top)
    case _ => false
  }

  /** Once a revocation or an adoption has touched a principal, no generation it had before is
      accepted again, at any time of any later state. */
  lemma TouchedGenerationsAreDead(events: seq<Timed>, i: nat, j: nat, id: Id, generation: int, now: int)
    requires IsRun(events) && i < j <= |events|
    requires var s := Run(events[..i]).registry;
             Touches(s, events[i].event, events[i].now, id) && generation <= s.principals[id].generation
    ensures Validate(Run(events[..j]).registry, id, generation, now).Err?
    ensures events[i].event.RevokeTree? ==> forall g :: Validate(Run(events[..j]).registry, id, g, now).Err?
  {
    var s, after := Run(events[..i]).registry, Run(events[..i + 1]).registry;
    assert events[..i + 1][..i] == events[..i];
    TouchingMovesOn(s, events[i].event, events[i].now, id);
    RunsFence(events, i + 1, j);
    hide Run, IsRun, Touches;
  }

  lemma TouchingMovesOn(s: Registry, e: Event, now: int, id: Id)
    requires Touches(s, e, now, id)
    ensures var later := Step(s, e, now);
            && id in s.principals && id in later.principals
            && later.principals[id].generation == s.principals[id].generation + 1
            && (e.RevokeTree? ==> later.principals[id].status.Revoked?)
  {
    hide Subtree, IsText;
    SubtreeIsInside(s, id);
  }

  lemma SubtreeIsInside(s: Registry, id: Id)
    ensures forall top :: id in Tree(s, top) ==> id in s.principals
  {}

  // ---------- Tokens ----------

  lemma SpentTokenStaysSpent(w: World, e: Event, now: int, token: Secret)
    requires Allowed(w, e, now) && token in w.tokens && token !in w.registry.enrollments
    ensures var w' := Next(w, e, now); token in w'.tokens && token !in w'.registry.enrollments
  {
    match e
    case ExpireDue(order) => SweepKeepsShape(w.registry, order, now);
    case _ =>
  }

  lemma {:induction false} SpentTokenStaysSpentInRun(events: seq<Timed>, i: nat, j: nat, token: Secret)
    requires IsRun(events) && i <= j <= |events|
    requires var w := Run(events[..i]); token in w.tokens && token !in w.registry.enrollments
    ensures var w := Run(events[..j]); token in w.tokens && token !in w.registry.enrollments
    decreases j
  {
    if i < j {
      SpentTokenStaysSpentInRun(events, i, j - 1, token);
      assert events[..j][..j - 1] == events[..j - 1];
      SpentTokenStaysSpent(Run(events[..j - 1]), events[j - 1].event, events[j - 1].now, token);
    }
  }

  ghost predicate Enrols(events: seq<Timed>, i: nat, token: Secret)
    requires i < |events|
  {
    var e := events[i].event;
    e.Present? && e.token == token && Consume(Run(events[..i]).registry, token, events[i].now, e.id, e.credential).1.Ok?
  }

  lemma EnrollingSpends(w: World, e: Event, now: int)
    requires Covered(w) && e.Present? && Consume(w.registry, e.token, now, e.id, e.credential).1.Ok?
    ensures e.token in w.registry.enrollments
    ensures var w' := Next(w, e, now); e.token in w'.tokens && e.token !in w'.registry.enrollments
  {}

  /** An enrolment token makes at most one principal in any run. */
  lemma TokenEnrolsAtMostOnce(events: seq<Timed>, i: nat, j: nat, token: Secret)
    requires IsRun(events) && i < |events| && j < |events|
    requires Enrols(events, i, token) && Enrols(events, j, token)
    ensures i == j
  {
    if i != j {
      var first, second := if i < j then i else j, if i < j then j else i;
      assert Enrols(events, first, token) && Enrols(events, second, token);
      PrefixIsRun(events, first);
      PrefixIsRun(events, second);
      RunsAreSound(events[..first]);
      RunsAreSound(events[..second]);
      assert events[..first + 1][..first] == events[..first];
      hide IsRun, Consume, Next, Covered, Sound;
      EnrollingSpends(Run(events[..first]), events[first].event, events[first].now);
      EnrollingSpends(Run(events[..second]), events[second].event, events[second].now);
      SpentTokenStaysSpentInRun(events, first + 1, second, token);
    }
  }
}
