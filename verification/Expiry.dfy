/** The expiry sweep: what it changes, and exactly when it moves every changed principal by
    one generation only. */
module Expiry {

  import opened Wrappers
  import opened Forest
  import opened RegistryModel
  import opened RegistryRuns
  import opened Delegation

  /** The union of the subtrees of the listed principals. */
  ghost function Swept(s: Registry, order: seq<Id>): set<Id> {
    set x | x in s.principals && exists i :: 0 <= i < |order| && x in Tree(s, order[i])
  }

  lemma SweptByOneMore(s: Registry, order: seq<Id>, id: Id)
    ensures Swept(s, order + [id]) == Swept(s, order) + Tree(s, id)
  {
    var longer := order + [id];
    forall x | x in Swept(s, order) + Tree(s, id) ensures x in Swept(s, longer) {
      if x in Swept(s, order) {
        var i :| 0 <= i < |order| && x in Tree(s, order[i]);
        assert longer[i] == order[i];
      } else {
        assert longer[|order|] == id;
      }
    }
  }

  /** A principal that is covered brings its whole subtree. */
  lemma SweptIsClosed(s: Registry, order: seq<Id>, id: Id)
    requires id in Swept(s, order)
    ensures Tree(s, id) <= Swept(s, order)
  {
    var i :| 0 <= i < |order| && id in Tree(s, order[i]);
    SubtreesNest(ParentsOf(s), id, order[i]);
  }

  /** The sweep changes exactly the union of the listed subtrees, and everything in it is
      revoked at a higher generation. */
  lemma {:induction false} SweepChangesTheUnion(s: Registry, order: seq<Id>, now: int)
    ensures var (s', changed) := Sweep(s, order, now);
            && changed == Swept(s, order)
            && ParentsOf(s') == ParentsOf(s) && s'.principals.Keys == s.principals.Keys
            && (forall x :: x in s.principals && x !in changed ==> s'.principals[x] == s.principals[x])
            && (forall x :: x in changed ==>
              s'.principals[x].status.Revoked? && s'.principals[x].generation > s.principals[x].generation)
    decreases |order|
  {
    hide Swept, Subtree;
    if order == [] {
      NothingSwept(s);
    } else {
      var before, id := order[..|order| - 1], order[|order| - 1];
      SweepChangesTheUnion(s, before, now);
      RevokeKeepsLinks(Sweep(s, before, now).0, id, now);
      SweptByOneMore(s, before, id);
      assert before + [id] == order;
      if id in Swept(s, before) { SweptIsClosed(s, before, id); }
      SweptArePrincipals(s, order);
    }
  }

  lemma NothingSwept(s: Registry)
    ensures Swept(s, []) == {}
  {}

  lemma SweptArePrincipals(s: Registry, order: seq<Id>)
    ensures Swept(s, order) <= s.principals.Keys
  {}

  /** After a sweep no active principal is overdue, and what it changed is exactly the union of
      the subtrees of the principals that were. */
  lemma SweepIsExact(s: Registry, order: seq<Id>, now: int)
    requires IsSweepOrder(s, order, now)
    ensures var (s', changed) := Sweep(s, order, now);
            && Due(s', now) == {}
            && forall x :: x in changed <==> exists due :: due in Due(s, now) && x in Tree(s, due)
  {
    var (s', changed) := Sweep(s, order, now);
    SweepChangesTheUnion(s, order, now);
    SweepKeepsShape(s, order, now);
    forall x | x in s.principals ensures x in changed <==> exists due :: due in Due(s, now) && x in Tree(s, due) {
      if x in changed {
        var i :| 0 <= i < |order| && x in Tree(s, order[i]);
        assert order[i] in (set id | id in order);
      }
      if due :| due in Due(s, now) && x in Tree(s, due) {
        assert due in (set id | id in order);
      }
    }
    forall x | x in s.principals ensures x !in Due(s', now) {
      assert SameOrigin(s.principals[x], s'.principals[x]);
      if x in Due(s, now) {
        BelowSelf(ParentsOf(s), x);
        assert x in Tree(s, x);
      }
    }
  }

  // ---------- One generation, or more ----------

  ghost predicate StrictlyBelow(s: Registry, x: Id, a: Id) {
    x != a && x in Tree(s, a)
  }

  /** Whenever a listed principal precedes one of its ancestors, that ancestor was covered
      before either of them came up. */
  ghost predicate AncestorsFirst(s: Registry, order: seq<Id>) {
    forall i, j :: 0 <= i < j < |order| && StrictlyBelow(s, order[i], order[j]) ==>
      order[j] in Swept(s, order[..i])
  }

  ghost predicate MovedByOne(s: Registry, order: seq<Id>, now: int) {
    var (s', changed) := Sweep(s, order, now);
    forall x :: x in changed ==> x in s.principals && x in s'.principals && s'.principals[x].generation == s.principals[x].generation + 1
  }

  lemma {:induction false} AncestorsFirstMovesByOne(s: Registry, order: seq<Id>, now: int)
    requires AncestorsFirst(s, order)
    ensures MovedByOne(s, order, now)
    decreases |order|
  {
    if order != [] {
      var n := |order| - 1;
      var before, id := order[..n], order[n];
      forall i | 0 <= i <= n ensures before[..i] == order[..i] {}
      AncestorsFirstMovesByOne(s, before, now);
      SweepChangesTheUnion(s, before, now);
      if id !in Swept(s, before) {
        forall x | x in Tree(s, id) ensures x !in Swept(s, before) {
          if x in Swept(s, before) { FirstVisitIsDisjoint(s, order, x); }
        }
      }
    }
  }

  lemma FirstVisitIsDisjoint(s: Registry, order: seq<Id>, x: Id)
    requires order != [] && AncestorsFirst(s, order)
    requires var n := |order| - 1; x in Tree(s, order[n]) && x in Swept(s, order[..n])
    ensures order[|order| - 1] in Swept(s, order[..|order| - 1])
  {
    var n := |order| - 1;
    var before, id, links := order[..n], order[n], ParentsOf(s);
    var i :| 0 <= i < n && x in Tree(s, before[i]);
    AncestorsAreComparable(links, x, id, before[i]);
    if Below(links, id, before[i]) {
      assert id in Tree(s, before[i]);
    } else {
      assert StrictlyBelow(s, order[i], order[n]) by { BelowSelf(links, id); }
      assert before[..i] == order[..i];
    }
  }

  /** What the last root of a sweep does to one principal. */
  lemma SweepOneMore(s: Registry, order: seq<Id>, now: int, x: Id)
    requires order != [] && x in s.principals
    ensures var before, id := order[..|order| - 1], order[|order| - 1];
            var was, after := Sweep(s, before, now).0, Sweep(s, order, now).0;
            && x in was.principals && x in after.principals
            && s.principals[x].generation <= was.principals[x].generation
            && (x in Swept(s, before) ==> s.principals[x].generation < was.principals[x].generation)
            && after.principals[x].generation == was.principals[x].generation + (if id !in Swept(s, before) && x in Tree(s, id) then 1 else 0)
            && Swept(s, order) == Swept(s, before) + Tree(s, id)
  {
    hide Swept, Subtree, Below;
    var before, id := order[..|order| - 1], order[|order| - 1];
    SweepChangesTheUnion(s, before, now);
    SweptByOneMore(s, before, id);
    assert before + [id] == order;
    assert Tree(Sweep(s, before, now).0, id) == Tree(s, id);
  }

  /** A descendant taken before an ancestor that nothing has covered yet is revoked again when
      the ancestor's turn comes. */
  lemma {:induction false} OvertakenIsMovedTwice(s: Registry, order: seq<Id>, now: int, i: nat, ancestor: Id, n: nat)
    requires i < n <= |order| && StrictlyBelow(s, order[i], ancestor)
    requires ancestor !in Swept(s, order[..i]) && !Below(ParentsOf(s), ancestor, order[i])
    ensures var after := Sweep(s, order[..n], now).0; var x := order[i];
            && x in after.principals && after.principals[x].generation >= s.principals[x].generation + 1
            && (ancestor in Swept(s, order[..n]) ==> after.principals[x].generation >= s.principals[x].generation + 2)
    decreases n
  {
    hide Sweep, Swept, Below, Climbs;
    var x, id := order[i], order[n - 1];
    assert order[..n][..n - 1] == order[..n - 1] && order[..n][n - 1] == id;
    SweepOneMore(s, order[..n], now, x);
    if n == i + 1 {
      BelowSelf(ParentsOf(s), x);
    } else {
      OvertakenIsMovedTwice(s, order, now, i, ancestor, n - 1);
      if ancestor in Tree(s, id) {
        SubtreesNest(ParentsOf(s), ancestor, id);
        if id in Swept(s, order[..n - 1]) { SweptIsClosed(s, order[..n - 1], id); }
      }
    }
  }

  /** In a rooted registry a sweep moves every principal it changes by exactly one generation
      if and only if its order takes ancestors first. */
  lemma MovesByOneExactly(s: Registry, order: seq<Id>, now: int)
    requires Rooted(s)
    ensures MovedByOne(s, order, now) <==> AncestorsFirst(s, order)
  {
    if AncestorsFirst(s, order) {
      AncestorsFirstMovesByOne(s, order, now);
    } else {
      var i, j :| 0 <= i < j < |order| && StrictlyBelow(s, order[i], order[j]) && order[j] !in Swept(s, order[..i]);
      var x, a, links := order[i], order[j], ParentsOf(s);
      if Below(links, a, x) { LeavingIsAcyclic(links, x, a, s.principals[x].root); }
      assert order[..|order|] == order;
      OvertakenIsMovedTwice(s, order, now, i, a, |order|);
      assert a in Swept(s, order) && x in Swept(s, order) by {
        BelowSelf(links, a);
        BelowSelf(links, x);
        assert a in Tree(s, order[j]) && x in Tree(s, order[i]);
      }
      SweepChangesTheUnion(s, order, now);
    }
  }

  lemma {:induction false} ClimbingLosesDepth(s: Registry, x: Id, a: Id, n: nat)
    requires Attenuated(s) && x in s.principals && a in s.principals && Climbs(ParentsOf(s), x, a, n)
    ensures s.principals[x].depth == s.principals[a].depth + n
    decreases n
  {
    if n > 0 {
      var parent := s.principals[x].parent;
      assert parent in s.principals;
      assert Narrows(s, parent, s.principals[x].depth, s.principals[x].maxDepth, s.principals[x].maxChildren, s.principals[x].expiresAt);
      ClimbingLosesDepth(s, parent, a, n - 1);
    }
  }

  /** In an adoption-free run depths grow on the way down, so the sweep's order by depth takes
      ancestors first, whatever it does with equal depths. */
  lemma AdoptionFreeSweepMovesByOne(events: seq<Timed>, order: seq<Id>, now: int)
    requires IsRun(events) && AdoptionFree(events)
    requires IsSweepOrder(Run(events).registry, order, now)
    ensures MovedByOne(Run(events).registry, order, now)
  {
    var s := Run(events).registry;
    AdoptionFreeRunsAreDisciplined(events);
    forall i, j | 0 <= i < j < |order| ensures !StrictlyBelow(s, order[i], order[j]) {
      if StrictlyBelow(s, order[i], order[j]) {
        var n: nat :| Climbs(ParentsOf(s), order[i], order[j], n);
        ClimbingLosesDepth(s, order[i], order[j], n);
      }
    }
    AncestorsFirstMovesByOne(s, order, now);
  }

  // ---------- The other order is reachable ----------

  /** An enrolment that is presented at once, while no other one is open. */
  lemma EnrolAtOnce(events: seq<Timed>, e: Event, r: EnrollmentRequest, enrollment: Enrollment, id: Id) returns (longer: seq<Timed>)
    requires IsRun(events) && Run(events).now == 0 && Run(events).registry.enrollments == map[]
    requires Normalize(r, 1000, 0) == Ok(enrollment) && enrollment.expiresAt > 0
    requires (e.IssueDirect? || e.IssueBelow?) && Allowed(Run(events), e, 0) && id !in Next(Run(events), e, 0).names
    requires Step(Run(events).registry, e, 0) == Issue(Run(events).registry, r, 1000, 0, e.token).0
    ensures IsRun(longer)
    ensures var w, w' := Run(events), Run(longer);
            && w'.registry == Registry(w.registry.principals[id := Enrolled(id, enrollment.template, "secret", 0)], map[])
            && w'.now == 0 && w'.names == Next(w, e, 0).names + {id} && w'.tokens == w.tokens + {e.token}
  {
    hide Normalize, IssueChild, Run, IsRun;
    var w := Run(events);
    ExtendedRun(events, e, 0);
    var issued := events + [Timed(e, 0)];
    assert Run(issued).registry.enrollments == map[e.token := enrollment];
    ExtendedRun(issued, Present(e.token, id, "secret"), 0);
    longer := issued + [Timed(Present(e.token, id, "secret"), 0)];
    assert Run(longer).registry.enrollments == map[];
  }

  const PARENT := Principal("p", "n", "secret", "local", "local", "h", 1, true, 1, 2, 1, Active, 100, 0, 0)
  const PEER := Principal("bb", "n", "secret", "local", "local", "h", 1, false, 1, 1, 0, Active, 5, 0, 0)
  const CHILD := Principal("aaa", "n", "secret", "p", "local", "h", 1, false, 2, 2, 0, Active, 5, 0, 0)

  /** What enrols a principal like `p` below `parent`. */
  function RequestFor(p: Principal, depth: Option<int>): EnrollmentRequest {
    EnrollmentRequest(p.name, p.parent, p.root, p.host, Some(p.expiresAt), Some(p.canDelegate), depth, Some(p.maxDepth), Some(p.maxChildren))
  }

  function EnrollmentOf(p: Principal): Enrollment {
    Enrollment(Template(p.name, p.parent, p.root, p.host, p.expiresAt, p.canDelegate, p.depth, p.maxDepth, p.maxChildren), 1000, 0)
  }

  lemma RequestsAreNormal()
    ensures Normalize(RequestFor(PARENT, None), 1000, 0) == Ok(EnrollmentOf(PARENT))
    ensures Normalize(RequestFor(PEER, None), 1000, 0) == Ok(EnrollmentOf(PEER))
    ensures Normalize(RequestFor(CHILD, Some(2)), 1000, 0) == Ok(EnrollmentOf(CHILD))
  {}

  lemma ChildIsIssued(s: Registry)
    requires s == Registry(map["p" := PARENT, "bb" := PEER], map[])
    ensures IssueChild(s, "p", 1, ChildRequest("n", Some(5), None, Some(2), None), 1000, 0, "ttt") == Issue(s, RequestFor(CHILD, Some(2)), 1000, 0, "ttt")
  {
    assert LiveChildren(s, "p", 0) == {} && PendingChildren(s, "p", 0) == {};
    hide Issue;
  }

  lemma TwoEnrol() returns (events: seq<Timed>)
    ensures IsRun(events)
    ensures Run(events) == World(Registry(map["p" := PARENT, "bb" := PEER], map[]), 0, {"local", "p", "bb"}, {"t", "tt"})
  {
    RequestsAreNormal();
    events := [];
    assert IsRun(events) && Run(events) == START;
    hide Normalize, Run, IsRun, Issue;
    events := EnrolAtOnce(events, IssueDirect(RequestFor(PARENT, None), 1000, "t"), RequestFor(PARENT, None), EnrollmentOf(PARENT), "p");
    assert Run(events) == World(Registry(map["p" := PARENT], map[]), 0, {"local", "p"}, {"t"});
    events := EnrolAtOnce(events, IssueDirect(RequestFor(PEER, None), 1000, "tt"), RequestFor(PEER, None), EnrollmentOf(PEER), "bb");
  }

  /** Two principals enrolled directly, at depth 1, and one below the first, at depth 2. */
  lemma ThreeEnrol() returns (events: seq<Timed>)
    ensures IsRun(events) && Run(events).now == 0
    ensures Run(events).registry == Registry(map["p" := PARENT, "bb" := PEER, "aaa" := CHILD], map[])
  {
    hide Normalize, Run, IsRun, Issue, IssueChild;
    events := TwoEnrol();
    RequestsAreNormal();
    ChildIsIssued(Run(events).registry);
    events := EnrolAtOnce(events, IssueBelow("p", 1, ChildRequest("n", Some(5), None, Some(2), None), 1000, "ttt"),
      RequestFor(CHILD, Some(2)), EnrollmentOf(CHILD), "aaa");
  }

  /** The peer moves below the child: its depth stays 1. */
  lemma PeerIsAdopted(s: Registry)
    requires s == Registry(map["p" := PARENT, "bb" := PEER, "aaa" := CHILD], map[])
    ensures Adopt(s, "bb", "aaa", "local", 0).0 ==
            Registry(map["p" := PARENT, "bb" := PEER.(parent := "aaa", generation := 2), "aaa" := CHILD], map[])
  {
    var links := ParentsOf(s);
    BelowSelf(links, "bb");
    if Below(links, "p", "bb") { StepOfBelow(links, "p", "bb"); StepOfBelow(links, "local", "bb"); }
    if Below(links, "aaa", "bb") { StepOfBelow(links, "aaa", "bb"); }
    assert Tree(s, "bb") == {"bb"};
    assert IsText("aaa", 512);
    hide Subtree;
  }

  /** Adoption keeps stored depths, so afterwards a sweep may take a child first: in a run of
      enrolments and one adoption the sweep by depth moves the adopted principal twice. */
  lemma AdoptedChildMayMoveTwice() returns (events: seq<Timed>, order: seq<Id>, now: int)
    ensures IsRun(events) && IsSweepOrder(Run(events).registry, order, now) && !MovedByOne(Run(events).registry, order, now)
  {
    hide Run, IsRun, Adopt, MovedByOne;
    events := ThreeEnrol();
    PeerIsAdopted(Run(events).registry);
    ExtendedRun(events, AdoptTree("bb", "aaa", "local"), 0);
    events := events + [Timed(AdoptTree("bb", "aaa", "local"), 0)];
    order, now := ["bb", "aaa"], 10;
    var s := Run(events).registry;
    assert Due(s, now) == {"aaa", "bb"} == (set id | id in order);
    ChildBeforeParent(s, order);
    RunsAreSound(events);
    MovesByOneExactly(s, order, now);
  }

  lemma ChildBeforeParent(s: Registry, order: seq<Id>)
    requires order == ["bb", "aaa"] && order[0] in s.principals && order[1] in s.principals && s.principals["bb"].parent == "aaa"
    ensures !AncestorsFirst(s, order)
  {
    var links := ParentsOf(s);
    BelowSelf(links, "aaa");
    BelowByStep(links, "bb", "aaa");
    assert Swept(s, order[..0]) == {};
    assert StrictlyBelow(s, order[0], order[1]);
  }
}
