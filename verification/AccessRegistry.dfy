/** The registry as the broker holds it (broker/access-registry.ts): records updated in place
    by loops over them, and written to disk after every change. */
module AccessRegistry {

  import opened Wrappers
  import opened Forest
  import opened RegistryModel
  import opened RegistryRuns

  /** A record without its credential. */
  function Metadata(p: Principal): Principal {
    p.(credential := "")
  }

  /** The listed records are exactly those of the given ids, each once. */
  ghost predicate ListsOnce(records: seq<Principal>, ids: set<Id>) {
    && (set p | p in records :: p.id) == ids
    && forall i, j :: 0 <= i < j < |records| ==> records[i].id != records[j].id
  }

  /** Every recorded root is a text the registry would accept. */
  predicate RootsAreText(s: Registry) {
    && (forall id :: id in s.principals ==> IsText(s.principals[id].root, 512))
    && (forall t :: t in s.enrollments ==> IsText(s.enrollments[t].template.root, 512))
  }

  lemma RevokeKeepsRootTexts(s: Registry, id: Id, now: int)
    requires RootsAreText(s)
    ensures RootsAreText(Revoke(s, id, now))
  {}

  lemma AdoptKeepsRootTexts(s: Registry, id: Id, newParent: Id, newRoot: Id, now: int)
    requires RootsAreText(s) && (IsText(newParent, 512) ==> IsText(newRoot, 512))
    ensures RootsAreText(Adopt(s, id, newParent, newRoot, now).0)
  {
    hide IsText, Tree;
  }

  ghost predicate Distinct(ids: seq<Id>) {
    forall i, j :: 0 <= i < j < |ids| ==> ids[i] != ids[j]
  }

  lemma {:induction false} ShallowestExists(s: Registry, ids: set<Id>) returns (least: Id)
    requires ids != {} && ids <= s.principals.Keys
    ensures least in ids && forall id :: id in ids ==> s.principals[least].depth <= s.principals[id].depth
    decreases |ids|
  {
    var x :| x in ids;
    least := x;
    if ids != {x} {
      var y := ShallowestExists(s, ids - {x});
      least := if s.principals[y].depth < s.principals[x].depth then y else x;
    }
  }

  /** The records are made, one each, from those of the ids that were found. */
  ghost predicate AreRecords(s: Registry, found: seq<Id>, records: seq<Principal>, make: Principal -> Principal) {
    && |records| == |found|
    && forall i :: 0 <= i < |found| ==> found[i] in s.principals && records[i] == make(s.principals[found[i]])
  }

  lemma NoRecords(s: Registry, make: Principal -> Principal)
    ensures AreRecords(s, [], [], make)
  {}

  lemma AddRecord(s: Registry, found: seq<Id>, records: seq<Principal>, make: Principal -> Principal, id: Id)
    requires AreRecords(s, found, records, make) && id in s.principals
    ensures AreRecords(s, found + [id], records + [make(s.principals[id])], make)
  {}

  lemma RecordsListOnce(s: Registry, found: seq<Id>, records: seq<Principal>, make: Principal -> Principal)
    requires Keyed(s) && AreRecords(s, found, records, make) && Distinct(found) && forall p :: make(p).id == p.id
    ensures ListsOnce(records, set id | id in found)
    ensures forall p :: p in records ==> p.id in s.principals && p == make(s.principals[p.id])
  {
    forall id | id in found ensures id in (set p | p in records :: p.id) {
      var i :| 0 <= i < |found| && found[i] == id;
      assert records[i] in records;
    }
  }

  class RemoteAccessRegistry {
    var principals: map<Id, Principal>
    var enrollments: map<Secret, Enrollment>
    var disk: Registry    // what was written last

    ghost function State(): Registry
      reads this
    {
      Registry(principals, enrollments)
    }

    ghost predicate Valid()
      reads this
    {
      Keyed(State()) && RootsAreText(State()) && disk == State()
    }

    /** `loaded` is what the file held; an absent file gives the empty registry. */
    constructor (loaded: Registry)
      requires Keyed(loaded) && RootsAreText(loaded)
      ensures Valid() && State() == loaded
    {
      principals, enrollments, disk := loaded.principals, loaded.enrollments, loaded;
    }

    method Persist()
      modifies this`disk
      ensures disk == State()
    {
      disk := Registry(principals, enrollments);
    }

    // ---------- Enrolment ----------

    method PruneExpiredEnrollments(now: int)
      modifies this`enrollments
      ensures enrollments == Unexpired(old(enrollments), now)
    {
      var rest := enrollments.Keys;
      while rest != {}
        invariant rest <= enrollments.Keys <= old(enrollments).Keys
        invariant forall t :: t in enrollments ==> enrollments[t] == old(enrollments)[t]
        invariant forall t :: t in old(enrollments) ==>
          (t in enrollments <==> t in rest || old(enrollments)[t].expiresAt > now)
        decreases rest
      {
        var token :| token in rest;
        rest := rest - {token};
        if enrollments[token].expiresAt <= now {
          enrollments := enrollments - {token};
        }
      }
    }

    method IssueEnrollment(request: EnrollmentRequest, ttlMs: int, now: int, token: Secret) returns (r: Result<int, AccessError>)
      requires Valid()
      modifies this
      ensures Valid() && (State(), r) == Issue(old(State()), request, ttlMs, now, token)
    {
      var enrollment :- Normalize(request, ttlMs, now);
      PruneExpiredEnrollments(now);
      enrollments := enrollments[token := enrollment];
      Persist();
      return Ok(enrollment.expiresAt);
    }

    method CountChildren(parent: Id, now: int) returns (active: nat, pending: nat)
      requires Valid()
      ensures active == |LiveChildren(State(), parent, now)|
      ensures pending == |PendingChildren(State(), parent, now)|
    {
      active, pending := 0, 0;
      ghost var s := State();
      var ids := principals.Keys;
      ghost var counted: set<Id> := {};
      while ids != {}
        invariant ids <= principals.Keys && active == |counted|
        invariant counted == set id | id in LiveChildren(s, parent, now) && id !in ids
        decreases ids
      {
        var id :| id in ids;
        ids := ids - {id};
        if principals[id].parent == parent && IsLive(principals[id], now) {
          active := active + 1;
          counted := counted + {id};
        }
      }
      assert counted == LiveChildren(s, parent, now);
      var tokens := enrollments.Keys;
      ghost var open: set<Secret> := {};
      while tokens != {}
        invariant tokens <= enrollments.Keys && pending == |open|
        invariant open == set t | t in PendingChildren(s, parent, now) && t !in tokens
        decreases tokens
      {
        var t :| t in tokens;
        tokens := tokens - {t};
        if enrollments[t].template.parent == parent && enrollments[t].expiresAt > now {
          pending := pending + 1;
          open := open + {t};
        }
      }
      assert open == PendingChildren(s, parent, now);
    }

    method IssueChildEnrollment(parentId: Id, generation: int, c: ChildRequest, ttlMs: int, now: int, token: Secret)
      returns (r: Result<int, AccessError>)
      requires Valid()
      modifies this
      ensures Valid() && (State(), r) == IssueChild(old(State()), parentId, generation, c, ttlMs, now, token)
    {
      var parent :- ValidatePrincipal(parentId, generation, now);
      if !parent.canDelegate { return Err(InvalidEnrollment); }
      var active, pending := CountChildren(parent.id, now);
      if active + pending >= parent.maxChildren { return Err(InvalidEnrollment); }
      var depth := parent.depth + 1;
      if depth > parent.maxDepth { return Err(InvalidEnrollment); }
      var maxDepth :- BoundedInteger(c.maxDepth, depth, "child maximum depth", depth, parent.maxDepth);
      var maxChildren :- BoundedInteger(c.maxChildren, 0, "child maximum count", 0, parent.maxChildren);
      var canDelegate := c.canDelegate == Some(true);
      if canDelegate && (maxDepth <= depth || maxChildren == 0) { return Err(InvalidField("delegation capacity")); }
      var expiresAt := c.expiresAt.GetOr(parent.expiresAt);
      if !(now < expiresAt <= parent.expiresAt && expiresAt <= MAX_SAFE_INTEGER) { return Err(InvalidField("child expiry")); }
      r := IssueEnrollment(
        EnrollmentRequest(c.name, parent.id, parent.root, parent.host, Some(expiresAt), Some(canDelegate),
          Some(depth), Some(maxDepth), Some(maxChildren)),
        ttlMs, now, token);
    }

    method ConsumeEnrollment(token: Secret, now: int, id: Id, credential: Secret) returns (r: Result<Principal, AccessError>)
      requires Valid()
      modifies this
      ensures Valid() && (State(), r) == Consume(old(State()), token, now, id, credential)
    {
      if token !in enrollments { return Err(InvalidEnrollment); }
      var enrollment := enrollments[token];
      enrollments := enrollments - {token};
      if enrollment.expiresAt <= now {
        Persist();
        return Err(InvalidEnrollment);
      }
      var t := enrollment.template;
      var principal := Principal(id, t.name, credential, t.parent, t.root, t.host, 1, t.canDelegate, t.depth, t.maxDepth,
        t.maxChildren, Active, t.expiresAt, now, now);
      principals := principals[id := principal];
      Persist();
      return Ok(principal);
    }

    method ValidatePrincipal(id: Id, generation: int, now: int) returns (r: Result<Principal, AccessError>)
      ensures r == Validate(State(), id, generation, now)
    {
      if id !in principals { return Err(InvalidCredential); }
      var principal := principals[id];
      if principal.status != Active { return Err(RevokedCredential); }
      if principal.expiresAt <= now { return Err(ExpiredCredential); }
      if principal.generation != generation { return Err(StaleGeneration); }
      return Ok(principal);
    }

    method AuthenticateSession(id: Id, generation: int, credential: Secret, now: int) returns (r: Result<Principal, AccessError>)
      ensures r == Authenticate(State(), id, generation, credential, now)
    {
      if id !in principals || principals[id].credential != credential { return Err(InvalidCredential); }
      r := ValidatePrincipal(id, generation, now);
    }

    // ---------- Breadth-first searches ----------

    method ChildIds(id: Id) returns (children: seq<Id>)
      requires Keyed(State())
      ensures forall c :: c in children <==> c in principals && principals[c].parent == id
    {
      children := [];
      var rest := principals.Keys;
      while rest != {}
        invariant rest <= principals.Keys
        invariant forall c :: c in children <==> c in principals && c !in rest && principals[c].parent == id
        decreases rest
      {
        var key :| key in rest;
        rest := rest - {key};
        var candidate := principals[key];
        if candidate.parent == id { children := children + [candidate.id]; }
      }
    }

    method InspectSubtree(principalId: Id) returns (result: seq<Principal>)
      requires Keyed(State())
      ensures ListsOnce(result, Tree(State(), principalId))
      ensures forall p :: p in result ==> p.id in principals && p == principals[p.id].(credential := "")
    {
      hide Searching, AreRecords, Keyed, Subtree;
      ghost var links := ParentsOf(State());
      result := [];
      var queue, seen := [principalId], {};
      ghost var found: seq<Id> := [];
      SearchStarts(links, principalId);
      NoRecords(State(), Metadata);
      while queue != []
        invariant Searching(links, principalId, queue, seen, found) && AreRecords(State(), found, result, Metadata)
        decreases principals.Keys + {principalId} - seen, |queue|
      {
        var id := queue[0];
        ghost var before := queue;
        HeadOfSearch(links, principalId, queue, seen, found);
        queue := queue[1..];
        if id in seen {
          SkipKeepsSearching(links, principalId, before, seen, found, seen);
        } else if id !in principals {
          SkipKeepsSearching(links, principalId, before, seen, found, seen + {id});
          seen := seen + {id};
        } else {
          var children := ChildIds(id);
          VisitKeepsSearching(links, principalId, before, seen, found, children);
          AddRecord(State(), found, result, Metadata, id);
          seen := seen + {id};
          result := result + [Metadata(principals[id])];
          found := found + [id];
          queue := queue + children;
        }
      }
      SearchIsExact(links, principalId, seen, found);
      RecordsListOnce(State(), found, result, Metadata);
    }

    method SubtreePrincipalIds(principalId: Id) returns (result: seq<Id>)
      requires Keyed(State())
      ensures Distinct(result) && (set id | id in result) == Tree(State(), principalId)
    {
      hide Searching, Keyed, Subtree;
      ghost var links := ParentsOf(State());
      result := [];
      var queue, seen := [principalId], {};
      SearchStarts(links, principalId);
      while queue != []
        invariant Searching(links, principalId, queue, seen, result)
        decreases principals.Keys + {principalId} - seen, |queue|
      {
        var id := queue[0];
        ghost var before := queue;
        HeadOfSearch(links, principalId, queue, seen, result);
        queue := queue[1..];
        if id in seen || id !in principals {
          SkipKeepsSearching(links, principalId, before, seen, result, seen);
        } else {
          var children := ChildIds(id);
          VisitKeepsSearching(links, principalId, before, seen, result, children);
          seen := seen + {id};
          result := result + [id];
          queue := queue + children;
        }
      }
      SearchIsExact(links, principalId, seen, result);
    }

    // ---------- Transitions ----------

    /** `found` has been revoked, everything else is as in `s`. */
    ghost predicate RevokedSoFar(s: Registry, found: seq<Id>, now: int)
      reads this
    {
      && Keyed(State()) && enrollments == s.enrollments && disk == s
      && principals.Keys == s.principals.Keys
      && forall x :: x in s.principals ==>
        principals[x] == if x in found then RevokedAt(s.principals[x], now) else s.principals[x]
    }

    /** One record of a revocation. */
    method RevokeRecord(id: Id, now: int, ghost s: Registry, ghost found: seq<Id>) returns (changed: Principal)
      requires RevokedSoFar(s, found, now) && id in principals && id !in found
      modifies this`principals
      ensures RevokedSoFar(s, found + [id], now)
      ensures id in s.principals && changed == RevokedAt(s.principals[id], now)
    {
      var principal := principals[id];
      principals := principals[id := principal.(status := Revoked, generation := principal.generation + 1, updatedAt := now)];
      changed := principals[id];
    }

    lemma RevokedSoFarKeepsLinks(s: Registry, found: seq<Id>, now: int)
      requires RevokedSoFar(s, found, now)
      ensures ParentsOf(State()) == ParentsOf(s)
    {}

    lemma RevokedTree(s: Registry, found: seq<Id>, principalId: Id, now: int)
      requires RevokedSoFar(s, found, now) && (set id | id in found) == Tree(s, principalId)
      ensures State() == Revoke(s, principalId, now)
      ensures forall x :: x in found && x in s.principals ==> x in principals && principals[x] == RevokedAt(s.principals[x], now)
      ensures found == [] ==> State() == s
    {
      assert forall x :: x in found <==> x in Tree(s, principalId);
      hide Tree;
      assert principals == Revoke(s, principalId, now).principals;
      if found == [] { assert principals == s.principals; }
    }

    /** The search of a revocation, which revokes as it goes. */
    method RevokeFound(principalId: Id, now: int) returns (changed: seq<Principal>, ghost found: seq<Id>)
      requires Valid()
      modifies this`principals
      ensures RevokedSoFar(old(State()), found, now) && Distinct(found)
      ensures AreRecords(old(State()), found, changed, p => RevokedAt(p, now))
      ensures (set id | id in found) == Tree(old(State()), principalId)
    {
      hide RootsAreText, Searching, AreRecords, Keyed, Subtree;
      ghost var s, make := State(), (p: Principal) => RevokedAt(p, now);
      ghost var links := ParentsOf(s);
      changed, found := [], [];
      var queue, seen := [principalId], {};
      SearchStarts(links, principalId);
      NoRecords(s, make);
      while queue != []
        invariant RevokedSoFar(s, found, now)
        invariant Searching(links, principalId, queue, seen, found) && AreRecords(s, found, changed, make)
        decreases s.principals.Keys + {principalId} - seen, |queue|
      {
        var id := queue[0];
        ghost var before := queue;
        HeadOfSearch(links, principalId, queue, seen, found);
        queue := queue[1..];
        if id in seen {
          SkipKeepsSearching(links, principalId, before, seen, found, seen);
        } else if id !in principals {
          SkipKeepsSearching(links, principalId, before, seen, found, seen + {id});
          seen := seen + {id};
        } else {
          var record := RevokeRecord(id, now, s, found);
          var children := ChildIds(id);
          RevokedSoFarKeepsLinks(s, found + [id], now);
          assert forall c :: c in principals ==> principals[c].parent == ParentsOf(State())[c];
          VisitKeepsSearching(links, principalId, before, seen, found, children);
          AddRecord(s, found, changed, make, id);
          changed := changed + [record];
          seen := seen + {id};
          found := found + [id];
          queue := queue + children;
        }
      }
      SearchIsExact(links, principalId, seen, found);
    }

    method RevokePrincipal(principalId: Id, now: int) returns (changed: seq<Principal>)
      requires Valid()
      modifies this
      ensures Valid() && State() == Revoke(old(State()), principalId, now)
      ensures ListsOnce(changed, Tree(old(State()), principalId))
      ensures forall p :: p in changed ==> p.id in principals && p == principals[p.id]
    {
      hide RootsAreText, Subtree;
      ghost var s := State();
      RevokeKeepsRootTexts(s, principalId, now);
      ghost var found;
      changed, found := RevokeFound(principalId, now);
      RecordsListOnce(s, found, changed, p => RevokedAt(p, now));
      RevokedTree(s, found, principalId, now);
      if |changed| != 0 {
        Persist();
      }
    }

    /** The upward walk that refuses an adoption below the adopted principal itself. */
    method WouldCycle(principalId: Id, newParentId: Id) returns (cycle: bool)
      requires Keyed(State()) && principalId in principals
      ensures cycle <==> newParentId in Tree(State(), principalId)
    {
      ghost var links := ParentsOf(State());
      if principalId == newParentId {
        BelowSelf(links, principalId);
        return true;
      }
      var here, passed := newParentId, {};
      while here in principals && here !in passed
        invariant Walking(links, principalId, newParentId, here, passed)
        invariant Below(links, here, principalId) ==> Below(links, newParentId, principalId)
        decreases principals.Keys - passed
      {
        if here == principalId {
          BelowSelf(links, principalId);
          StepOfBelow(links, newParentId, principalId);
          return true;
        }
        passed := passed + {here};
        if Below(links, links[here], principalId) { BelowByStep(links, here, principalId); }
        here := principals[here].parent;
      }
      FinishedWalkMisses(links, principalId, newParentId, here, passed);
      return false;
    }

    method MoveRecords(ids: seq<Id>, newRootId: Id, now: int)
      requires Distinct(ids) && forall id :: id in ids ==> id in principals
      modifies this`principals
      ensures principals == map x | x in old(principals) ::
        if x in ids then MovedTo(old(principals)[x], newRootId, now) else old(principals)[x]
    {
      for i := 0 to |ids|
        invariant principals.Keys == old(principals).Keys
        invariant forall x :: x in principals ==>
          principals[x] == if x in ids[..i] then MovedTo(old(principals)[x], newRootId, now) else old(principals)[x]
      {
        var id := ids[i];
        assert id !in ids[..i] && ids[..i + 1] == ids[..i] + [id];
        var changed := principals[id];
        principals := principals[id := changed.(root := newRootId, generation := changed.generation + 1, updatedAt := now)];
      }
      assert ids[..|ids|] == ids;
    }

    method DropEnrollmentsUnder(ids: seq<Id>)
      modifies this`enrollments
      ensures enrollments == map t | t in old(enrollments) && old(enrollments)[t].template.parent !in ids :: old(enrollments)[t]
    {
      var tokens := enrollments.Keys;
      while tokens != {}
        invariant tokens <= enrollments.Keys <= old(enrollments).Keys
        invariant forall t :: t in enrollments ==> enrollments[t] == old(enrollments)[t]
        invariant forall t :: t in old(enrollments) ==>
          (t in enrollments <==> t in tokens || old(enrollments)[t].template.parent !in ids)
        decreases tokens
      {
        var t :| t in tokens;
        tokens := tokens - {t};
        if enrollments[t].template.parent in ids { enrollments := enrollments - {t}; }
      }
    }

    method AdoptSubtree(principalId: Id, newParentId: Id, newRootId: Id, now: int) returns (r: Result<seq<Id>, AccessError>)
      requires Valid()
      requires IsText(newParentId, 512) ==> IsText(newRootId, 512)
      modifies this
      ensures Valid()
      ensures var (s', outcome) := Adopt(old(State()), principalId, newParentId, newRootId, now);
              && State() == s'
              && (r.Err? ==> outcome == Err(r.error))
              && (r.Ok? ==> Distinct(r.value) && outcome == Ok(set id | id in r.value))
    {
      hide RootsAreText;
      ghost var s := State();
      AdoptKeepsRootTexts(s, principalId, newParentId, newRootId, now);
      if principalId !in principals { return Err(UnknownPrincipal); }
      var cycle := WouldCycle(principalId, newParentId);
      if cycle { return Err(OwnershipCycle); }
      assert newParentId != principalId by { BelowSelf(ParentsOf(s), principalId); }
      var ids := SubtreePrincipalIds(principalId);
      assert forall x :: x in Tree(s, principalId) <==> x in ids;
      if !IsText(newParentId, 512) { return Err(InvalidField("new parent session ID")); }
      principals := principals[principalId := principals[principalId].(parent := newParentId)];
      MoveRecords(ids, newRootId, now);
      DropEnrollmentsUnder(ids);
      Persist();
      AdoptedState(s, State(), ids, principalId, newParentId, newRootId, now);
      return Ok(ids);
    }

    static lemma AdoptedState(s: Registry, s': Registry, ids: seq<Id>, id: Id, newParent: Id, newRoot: Id, now: int)
      requires id in s.principals && newParent != id && newParent !in Tree(s, id) && IsText(newParent, 512)
      requires forall x :: x in Tree(s, id) <==> x in ids
      requires s'.enrollments == map t | t in s.enrollments && s.enrollments[t].template.parent !in ids :: s.enrollments[t]
      requires var moved := s.principals[id := s.principals[id].(parent := newParent)];
               s'.principals == map x | x in moved :: if x in ids then MovedTo(moved[x], newRoot, now) else moved[x]
      ensures Adopt(s, id, newParent, newRoot, now) == (s', Ok(set x | x in ids))
    {
      hide IsText, Subtree;
      BelowSelf(ParentsOf(s), id);
      var a := Adopt(s, id, newParent, newRoot, now).0;
      assert (set x | x in ids) == Tree(s, id);
      assert a.enrollments == s'.enrollments;
      assert id in Tree(s, id) by { BelongsToItself(s, id); }
      assert a.principals == s'.principals;
    }

    static lemma BelongsToItself(s: Registry, id: Id)
      requires id in s.principals
      ensures id in Tree(s, id)
    {
      BelowSelf(ParentsOf(s), id);
    }

    method DueByDepth(now: int) returns (order: seq<Id>)
      requires Keyed(State())
      ensures IsSweepOrder(State(), order, now)
    {
      order := [];
      var rest := Due(Registry(principals, enrollments), now);
      while rest != {}
        invariant rest <= Due(State(), now)
        invariant forall id :: id in order <==> id in Due(State(), now) && id !in rest
        invariant Distinct(order) && forall i :: 0 <= i < |order| ==> order[i] in principals
        invariant forall i, j :: 0 <= i < j < |order| ==> principals[order[i]].depth <= principals[order[j]].depth
        invariant forall i, id :: 0 <= i < |order| && id in rest ==> principals[order[i]].depth <= principals[id].depth
        decreases rest
      {
        ghost var least := ShallowestExists(State(), rest);
        var next :| next in rest && forall id :: id in rest ==> principals[next].depth <= principals[id].depth;
        ghost var before := order;
        rest := rest - {next};
        order := order + [next];
        assert forall x :: x in order <==> x in before || x == next;
      }
    }

    method Record(changed: map<Id, Principal>, records: seq<Principal>) returns (all: map<Id, Principal>)
      ensures all.Keys == changed.Keys + set p | p in records :: p.id
    {
      all := changed;
      for k := 0 to |records|
        invariant all.Keys == changed.Keys + set p | p in records[..k] :: p.id
      {
        assert records[..k + 1] == records[..k] + [records[k]];
        all := all[records[k].id := records[k]];
      }
      assert records[..|records|] == records;
    }

    method ExpirePrincipals(now: int) returns (changed: map<Id, Principal>, ghost order: seq<Id>)
      requires Valid()
      modifies this
      ensures Valid() && IsSweepOrder(old(State()), order, now)
      ensures (State(), changed.Keys) == Sweep(old(State()), order, now)
    {
      ghost var s := State();
      var roots := DueByDepth(now);
      order := roots;
      changed := map[];
      assert roots[..0] == [] && changed.Keys == {};
      for i := 0 to |roots|
        invariant Valid() && (State(), changed.Keys) == Sweep(s, roots[..i], now)
      {
        var id := roots[i];
        assert roots[..i + 1][..i] == roots[..i];
        if id !in changed {
          ghost var before := changed.Keys;
          ghost var mid := State();
          var revoked := RevokePrincipal(id, now);
          changed := Record(changed, revoked);
          assert changed.Keys == before + Tree(mid, id);
        }
      }
      assert roots[..|roots|] == roots;
    }
  }
}
