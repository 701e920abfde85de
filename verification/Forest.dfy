/** Parent links seen as a graph. A map sends every principal to its parent; a parent that is
    not a key of the map is a local session, where the upward chain leaves the registry. */
module Forest {

  type Id = string
  type Parents = map<Id, Id>

  /** `n` steps up from `x` lead to `a`, each of them taken from a principal. */
  ghost predicate Climbs(parents: Parents, x: Id, a: Id, n: nat)
    decreases n
  {
    if n == 0 then x == a else x in parents && Climbs(parents, parents[x], a, n - 1)
  }

  /** The upward chain of `x` passes through `a` (at once, when they are the same). */
  ghost predicate Below(parents: Parents, x: Id, a: Id) {
    exists n: nat :: Climbs(parents, x, a, n)
  }

  /** The principals whose upward chain reaches the principal `a`. */
  ghost function Subtree(parents: Parents, a: Id): set<Id> {
    set x | x in parents && a in parents && Below(parents, x, a)
  }

  /** The upward chain of `x` leaves the registry at `root`. */
  ghost predicate LeavesAt(parents: Parents, x: Id, root: Id) {
    root !in parents && Below(parents, x, root)
  }

  // ---------- Climbing ----------

  lemma BelowSelf(parents: Parents, x: Id)
    ensures Below(parents, x, x)
  {
    assert Climbs(parents, x, x, 0);
  }

  lemma BelowByStep(parents: Parents, x: Id, a: Id)
    requires x in parents && Below(parents, parents[x], a)
    ensures Below(parents, x, a)
  {
    var n: nat :| Climbs(parents, parents[x], a, n);
    assert Climbs(parents, x, a, n + 1);
  }

  lemma StepOfBelow(parents: Parents, x: Id, a: Id)
    requires Below(parents, x, a) && x != a
    ensures x in parents && Below(parents, parents[x], a)
  {
    var n: nat :| Climbs(parents, x, a, n);
    assert Climbs(parents, parents[x], a, n - 1);
  }

  lemma {:induction false} ClimbsCompose(parents: Parents, x: Id, a: Id, b: Id, m: nat, n: nat)
    requires Climbs(parents, x, a, m) && Climbs(parents, a, b, n)
    ensures Climbs(parents, x, b, m + n)
    decreases m
  {
    if m > 0 { ClimbsCompose(parents, parents[x], a, b, m - 1, n); }
  }

  lemma BelowIsTransitive(parents: Parents, x: Id, a: Id, b: Id)
    requires Below(parents, x, a) && Below(parents, a, b)
    ensures Below(parents, x, b)
  {
    var m: nat :| Climbs(parents, x, a, m);
    var n: nat :| Climbs(parents, a, b, n);
    ClimbsCompose(parents, x, a, b, m, n);
  }

  /** Two chains from the same principal: the longer passes where the shorter ends. */
  lemma {:induction false} ClimbsFurther(parents: Parents, x: Id, a: Id, b: Id, m: nat, n: nat)
    requires Climbs(parents, x, a, m) && Climbs(parents, x, b, n) && m <= n
    ensures Climbs(parents, a, b, n - m)
    decreases m
  {
    if m > 0 { ClimbsFurther(parents, parents[x], a, b, m - 1, n - 1); }
  }

  lemma AncestorsAreComparable(parents: Parents, x: Id, a: Id, b: Id)
    requires Below(parents, x, a) && Below(parents, x, b)
    ensures Below(parents, a, b) || Below(parents, b, a)
  {
    var m: nat :| Climbs(parents, x, a, m);
    var n: nat :| Climbs(parents, x, b, n);
    if m <= n { ClimbsFurther(parents, x, a, b, m, n); } else { ClimbsFurther(parents, x, b, a, n, m); }
  }

  /** A chain that leaves the registry leaves it at one place only. */
  lemma LeavesAtOnePlace(parents: Parents, x: Id, root: Id, other: Id)
    requires LeavesAt(parents, x, root) && LeavesAt(parents, x, other)
    ensures root == other
  {
    AncestorsAreComparable(parents, x, root, other);
    if root != other {
      if Below(parents, root, other) { StepOfBelow(parents, root, other); } else { StepOfBelow(parents, other, root); }
    }
  }

  lemma {:induction false} CyclesDoNotLeave(parents: Parents, x: Id, y: Id, root: Id, k: nat, n: nat)
    requires k > 0 && Climbs(parents, x, y, k) && x == y
    requires Climbs(parents, x, root, n)
    ensures root in parents
    decreases n
  {
    if n < k {
      ClimbsFurther(parents, x, root, x, n, k);
    } else {
      ClimbsFurther(parents, x, x, root, k, n);
      CyclesDoNotLeave(parents, x, x, root, k, n - k);
    }
  }

  /** A chain that leaves the registry contains no cycle: a principal is never strictly below
      itself, and two principals are never below each other. */
  lemma LeavingIsAcyclic(parents: Parents, x: Id, a: Id, root: Id)
    requires LeavesAt(parents, x, root) && Below(parents, x, a) && Below(parents, a, x)
    ensures x == a
  {
    if x != a {
      var n: nat :| Climbs(parents, x, root, n);
      var j: nat :| Climbs(parents, x, a, j);
      var k: nat :| Climbs(parents, a, x, k);
      ClimbsCompose(parents, x, a, x, j, k);
      CyclesDoNotLeave(parents, x, x, root, j + k, n);
    }
  }

  // ---------- Adding a principal, moving a subtree ----------

  lemma {:induction false} ClimbsInLargerMap(parents: Parents, larger: Parents, x: Id, a: Id, n: nat)
    requires Climbs(parents, x, a, n)
    requires forall y :: y in parents ==> y in larger && larger[y] == parents[y]
    ensures Climbs(larger, x, a, n)
    decreases n
  {
    if n > 0 { ClimbsInLargerMap(parents, larger, parents[x], a, n - 1); }
  }

  lemma LeavesLargerMap(parents: Parents, larger: Parents, x: Id, root: Id)
    requires LeavesAt(parents, x, root) && root !in larger
    requires forall y :: y in parents ==> y in larger && larger[y] == parents[y]
    ensures LeavesAt(larger, x, root)
  {
    var n: nat :| Climbs(parents, x, root, n);
    ClimbsInLargerMap(parents, larger, x, root, n);
  }

  /** Moving `p` does not touch a chain that does not pass through `p`. */
  lemma {:induction false} OutsideIsUntouched(parents: Parents, p: Id, np: Id, x: Id, a: Id, n: nat)
    requires p in parents && Climbs(parents, x, a, n) && !Below(parents, x, p)
    ensures Climbs(parents[p := np], x, a, n)
    decreases n
  {
    if n > 0 {
      if x == p { BelowSelf(parents, p); }
      if Below(parents, parents[x], p) { BelowByStep(parents, x, p); }
      OutsideIsUntouched(parents, p, np, parents[x], a, n - 1);
    }
  }

  /** Moving `p` takes its subtree along. */
  lemma {:induction false} InsideStaysBelow(parents: Parents, p: Id, np: Id, x: Id, n: nat)
    requires p in parents && Climbs(parents, x, p, n)
    ensures Below(parents[p := np], x, p)
    decreases n
  {
    if x == p {
      BelowSelf(parents[p := np], p);
    } else {
      InsideStaysBelow(parents, p, np, parents[x], n - 1);
      BelowByStep(parents[p := np], x, p);
    }
  }

  /** After moving `p` under a parent outside its own subtree, every chain still leaves the
      registry: those through `p` where the new parent's does, the others where they did. */
  lemma MovedChainLeaves(parents: Parents, p: Id, np: Id, newRoot: Id, x: Id, root: Id)
    requires p in parents && !Below(parents, np, p)
    requires LeavesAt(parents, np, newRoot) && LeavesAt(parents, x, root)
    ensures LeavesAt(parents[p := np], x, if Below(parents, x, p) then newRoot else root)
  {
    var moved := parents[p := np];
    if Below(parents, x, p) {
      var k: nat :| Climbs(parents, np, newRoot, k);
      OutsideIsUntouched(parents, p, np, np, newRoot, k);
      BelowByStep(moved, p, newRoot);
      var n: nat :| Climbs(parents, x, p, n);
      InsideStaysBelow(parents, p, np, x, n);
      BelowIsTransitive(moved, x, p, newRoot);
    } else {
      var n: nat :| Climbs(parents, x, root, n);
      OutsideIsUntouched(parents, p, np, x, root, n);
    }
  }

  // ---------- Breadth-first search over the parent links ----------

  /** What a search that started at `root` maintains. `found` lists the principals visited,
      `seen` may also hold a start that is no principal. */
  ghost predicate Searching(parents: Parents, root: Id, queue: seq<Id>, seen: set<Id>, found: seq<Id>) {
    && (root in parents ==> root in seen || root in queue)
    && (forall id :: id in queue ==> id == root || id in Subtree(parents, root))
    && (forall id :: id in found ==> id in seen && id in Subtree(parents, root))
    && (forall id :: id in seen && id in parents ==> id in found)
    && (forall c :: c in parents && parents[c] in found ==> c in seen || c in queue)
    && (forall i, j :: 0 <= i < j < |found| ==> found[i] != found[j])
  }

  lemma SearchStarts(parents: Parents, root: Id)
    ensures Searching(parents, root, [root], {}, [])
  {}

  lemma HeadOfSearch(parents: Parents, root: Id, queue: seq<Id>, seen: set<Id>, found: seq<Id>)
    requires queue != [] && Searching(parents, root, queue, seen, found)
    ensures queue[0] == root || queue[0] in parents
    ensures queue[0] in found ==> queue[0] in seen
  {
    assert queue[0] in queue;
  }

  /** A search without open ends has found exactly the subtree, each member once. */
  lemma SearchIsExact(parents: Parents, root: Id, seen: set<Id>, found: seq<Id>)
    requires Searching(parents, root, [], seen, found)
    ensures (set id | id in found) == Subtree(parents, root)
    ensures forall i, j :: 0 <= i < j < |found| ==> found[i] != found[j]
  {
    forall x | x in Subtree(parents, root) ensures x in found {
      var n: nat :| Climbs(parents, x, root, n);
      ClosedSetHoldsSubtree(parents, root, (set id | id in found), x, n);
    }
  }

  lemma {:induction false} ClosedSetHoldsSubtree(parents: Parents, root: Id, closed: set<Id>, x: Id, n: nat)
    requires root in closed && root in parents
    requires forall c :: c in parents && parents[c] in closed ==> c in closed
    requires Climbs(parents, x, root, n)
    ensures x in closed
    decreases n
  {
    if n > 0 { ClosedSetHoldsSubtree(parents, root, closed, parents[x], n - 1); }
  }

  /** Visiting the head of the queue: a principal not seen before is found and its children
      are queued. */
  lemma VisitKeepsSearching(parents: Parents, root: Id, queue: seq<Id>, seen: set<Id>, found: seq<Id>, children: seq<Id>)
    requires queue != [] && Searching(parents, root, queue, seen, found)
    requires queue[0] in parents && queue[0] !in seen
    requires forall c :: c in children <==> c in parents && parents[c] == queue[0]
    ensures Searching(parents, root, queue[1..] + children, seen + {queue[0]}, found + [queue[0]])
  {
    var id := queue[0];
    assert id in Subtree(parents, root) by { BelowSelf(parents, root); }
    forall c | c in children ensures c in Subtree(parents, root) { BelowByStep(parents, c, root); }
    assert queue == [id] + queue[1..];
    forall x | x in queue ensures x == id || x in queue[1..] {}
  }

  /** Dropping a head that was seen before, or that is no principal. */
  lemma SkipKeepsSearching(parents: Parents, root: Id, queue: seq<Id>, seen: set<Id>, found: seq<Id>, seen': set<Id>)
    requires queue != [] && Searching(parents, root, queue, seen, found)
    requires queue[0] in seen || queue[0] !in parents
    requires seen' == seen || seen' == seen + {queue[0]}
    ensures Searching(parents, root, queue[1..], seen', found)
  {
    assert queue == [queue[0]] + queue[1..];
  }

  lemma SubtreesNest(parents: Parents, inner: Id, outer: Id)
    requires inner in Subtree(parents, outer)
    ensures Subtree(parents, inner) <= Subtree(parents, outer)
  {
    forall x | x in Subtree(parents, inner) ensures x in Subtree(parents, outer) {
      BelowIsTransitive(parents, x, inner, outer);
    }
  }

  // ---------- The upward walk that guards adoption ----------

  /** Walking up from `from` has passed the principals in `passed`, none of them `p`, and now
      stands at `here`. */
  ghost predicate Walking(parents: Parents, p: Id, from: Id, here: Id, passed: set<Id>) {
    && p !in passed
    && (from in passed || from == here)
    && (forall y :: y in passed ==> y in parents && (parents[y] in passed || parents[y] == here))
  }

  lemma {:induction false} WalkFollowsChain(parents: Parents, p: Id, from: Id, here: Id, passed: set<Id>, y: Id, n: nat)
    requires Walking(parents, p, from, here, passed) && (y in passed || y == here)
    requires Climbs(parents, y, p, n)
    ensures Below(parents, here, p)
    decreases n
  {
    if y != here {
      WalkFollowsChain(parents, p, from, here, passed, parents[y], n - 1);
    }
  }

  lemma {:induction false} ClosedWalkMisses(parents: Parents, p: Id, passed: set<Id>, y: Id, n: nat)
    requires p !in passed && y in passed
    requires forall z :: z in passed ==> z in parents && parents[z] in passed
    ensures !Climbs(parents, y, p, n)
    decreases n
  {
    if n > 0 { ClosedWalkMisses(parents, p, passed, parents[y], n - 1); }
  }

  /** When the walk stops, outside the registry or at a place it has passed before, without
      having met `p`, its start is not below `p`. */
  lemma FinishedWalkMisses(parents: Parents, p: Id, from: Id, here: Id, passed: set<Id>)
    requires p in parents && Walking(parents, p, from, here, passed)
    requires here !in parents || here in passed
    ensures !Below(parents, from, p)
  {
    if Below(parents, from, p) {
      var n: nat :| Climbs(parents, from, p, n);
      if here in passed {
        ClosedWalkMisses(parents, p, passed, from, n);
      } else {
        WalkFollowsChain(parents, p, from, here, passed, from, n);
        if here != p { StepOfBelow(parents, here, p); }
      }
    }
  }
}
