/** What becomes of a send, decided by the records alone: the answer to every send in every state
    that satisfies the invariant, and all that the send changes. */
module SendDecision {

  import opened Wrappers
  import opened Forest
  import opened RegistryModel
  import Sets
  import opened Messages
  import opened BrokerModel
  import opened BrokerInvariant
  import opened BrokerSteps
  import opened BrokerRuns
  import opened Entitlement
  import opened DeliveryTheorems
  import opened DeliveryEffects

  // ---------- What the records say of a message ----------

  /** The record is about a message for the same name or id that says and asks the same. */
  predicate IsSame(f: Fingerprint, to: string, m: Message) {
    f.to == to && f.replyTo == m.replyTo && f.expectsReply == m.expectsReply && f.content == m.content
  }

  predicate Remembered(b: Broker, k: Key, now: int) {
    k in b.recent && now < b.recent[k].expiresAt
  }

  predicate Pending(b: Broker, k: Key, d: DeliveryId) {
    d in b.pending && b.pending[d].key == k
  }

  predicate OtherIsRemembered(b: Broker, k: Key, to: string, m: Message, now: int) {
    Remembered(b, k, now) && !IsSame(b.recent[k].fingerprint, to, m)
  }

  ghost predicate OtherIsPending(b: Broker, k: Key, to: string, m: Message) {
    exists d :: Pending(b, k, d) && !IsSame(b.pending[d].fingerprint, to, m)
  }

  /** Another message has been sent under this id, and it is remembered or on its way. */
  ghost predicate Clashes(b: Broker, k: Key, to: string, m: Message, now: int) {
    OtherIsRemembered(b, k, to, m, now) || OtherIsPending(b, k, to, m)
  }

  /** The message was delivered as `first`, and its sender may still reach its recipient. */
  predicate WasDelivered(b: Broker, host: Host, k: Key, to: string, m: Message, first: DeliveryId, now: int) {
    && Remembered(b, k, now) && IsSame(b.recent[k].fingerprint, to, m)
    && var r := b.recent[k];
       r.response == Delivered(first) && MayStillReach(b, host, k.from, r.to, r.action, r.fromGeneration, r.toGeneration, now)
  }

  /** The message is on its way as `d`, and its sender may still reach its recipient. */
  predicate OnItsWay(b: Broker, host: Host, k: Key, to: string, m: Message, d: DeliveryId, now: int) {
    && Pending(b, k, d) && IsSame(b.pending[d].fingerprint, to, m)
    && var p := b.pending[d]; MayStillReach(b, host, p.from, p.to, p.action, p.fromGeneration, p.toGeneration, now)
  }

  /** No record answers the message. */
  ghost predicate Open(b: Broker, host: Host, k: Key, to: string, m: Message, now: int) {
    && !Clashes(b, k, to, m, now)
    && (forall d :: !WasDelivered(b, host, k, to, m, d, now))
    && (forall d :: !OnItsWay(b, host, k, to, m, d, now))
  }

  // ---------- What has to hold for a message to go out ----------

  /** The pending deliveries of all other messages. */
  function Others(pending: map<DeliveryId, Delivery>, k: Key): map<DeliveryId, Delivery> {
    map d | d in pending && pending[d].key != k :: pending[d]
  }

  /** The asks without the one that an overtaken delivery of this message carried. */
  ghost function OtherAsks(b: Broker, k: Key, m: Message): map<Key, AskEdge> {
    if m.expectsReply == Some(true) && exists d :: Pending(b, k, d) then b.edges - {k} else b.edges
  }

  predicate HasRoom(pending: map<DeliveryId, Delivery>, from: Id) {
    |pending| < 1024 && |set d | d in pending && pending[d].from == from| < 64
  }

  /** No session fits the name or id better, and the sender may reach this one. */
  ghost predicate Reaches(b: Broker, host: Host, from: Id, to: string, m: Message, target: Id, now: int) {
    && target in b.sessions && Fit(b, host, to, target) < 3
    && (forall x :: x in b.sessions ==> Fit(b, host, to, target) <= Fit(b, host, to, x))
    && MayReach(b, host, from, Kind(m), target, now)
  }

  ghost predicate ReachesOnly(b: Broker, host: Host, from: Id, to: string, m: Message, target: Id, now: int) {
    forall x :: Reaches(b, host, from, to, m, x, now) <==> x == target
  }

  /** A reply answers an ask, blocking or deferred, that the target put to the sender. */
  predicate ReplyFits(edges: map<Key, AskEdge>, from: Id, target: Id, m: Message) {
    m.replyTo.Some? ==>
      var ask := Key(target, m.replyTo.value); ask in edges && edges[ask].to == from
  }

  ghost predicate Asks(edges: map<Key, AskEdge>, from: Id, target: Id) {
    exists k :: k in edges && edges[k].from == from && edges[k].to == target
  }

  /** The target waits for the sender, and not for this reply. */
  ghost predicate WaitsOtherwise(edges: map<Key, AskEdge>, from: Id, target: Id, m: Message) {
    exists k :: k in edges && edges[k].state == Blocking && edges[k].from == target && edges[k].to == from && m.replyTo != Some(k.messageId)
  }

  predicate MayAskMore(edges: map<Key, AskEdge>, from: Id) {
    |set k | k in edges && edges[k].from == from| < 64
  }

  ghost predicate AskFits(edges: map<Key, AskEdge>, from: Id, target: Id, m: Message) {
    m.expectsReply == Some(true) ==> !Asks(edges, from, target) && !WaitsOtherwise(edges, from, target, m) && MayAskMore(edges, from)
  }

  // ---------- The records decide ----------

  lemma SameExactly(f: Fingerprint, to: string, m: Message)
    ensures f == FingerprintOf(to, m) <==> IsSame(f, to, m)
  {}

  lemma PendingExactly(b: Broker, k: Key, d: DeliveryId)
    requires Indexed(b.pending, b.pendingKeys)
    ensures Pending(b, k, d) <==> k in b.pendingKeys && b.pendingKeys[k] == d
  {}

  lemma PendingIsDescribed(b: Broker, d: DeliveryId)
    requires Inv(b) && d in b.pending
    ensures WellDescribed(b.pending[d])
  {
    hide TablesHold, AsksHold, Mirrors, CacheSound;
  }

  lemma RememberedIsSound(b: Broker, k: Key)
    requires Inv(b) && k in b.recent
    ensures k in b.pendingKeys ==> b.recent[k].retryable
    ensures b.recent[k].retryable <==> b.recent[k].response.DeliveryFailed?
  {
    hide TablesHold, AsksHold, Mirrors, Accounted;
    if !b.recent[k].retryable { assert IsAnswerTo(b.recent[k], k, b.history.accepted, b.history.delivered); }
  }

  /** The cache answers exactly the messages that were delivered. */
  lemma CacheDecides(b: Broker, host: Host, from: Id, to: string, m: Message, now: int, first: DeliveryId)
    requires Inv(b)
    ensures var k := Key(from, m.id);
            Remembered(b, k, now) ==>
              && (b.recent[k].fingerprint == FingerprintOf(to, m) <==> IsSame(b.recent[k].fingerprint, to, m))
              && (IsSame(b.recent[k].fingerprint, to, m) ==>
                (WasDelivered(b, host, k, to, m, first, now) <==>
                  !b.recent[k].retryable && RecentHolds(b, host, from, k, now) && b.recent[k].response == Delivered(first)))
  {
    var k := Key(from, m.id);
    if Remembered(b, k, now) {
      var r := b.recent[k];
      SameExactly(r.fingerprint, to, m);
      RememberedIsSound(b, k);
      StillReachExactly(b, host, from, r.to, r.action, r.fromGeneration, r.toGeneration, now);
      hide Inv, StillAuthorized, MayStillReach;
    }
  }

  /** The pending table knows at most one delivery of a message. */
  lemma OnePending(b: Broker, k: Key, to: string, m: Message)
    requires Inv(b)
    ensures (exists d :: Pending(b, k, d)) <==> k in b.pendingKeys
    ensures k in b.pendingKeys ==> Pending(b, k, b.pendingKeys[k])
    ensures forall d :: Pending(b, k, d) ==> b.pendingKeys[k] == d
    ensures OtherIsPending(b, k, to, m) <==> k in b.pendingKeys && b.pending[b.pendingKeys[k]].fingerprint != FingerprintOf(to, m)
  {
    TablesOf(b);
    forall d ensures Pending(b, k, d) <==> k in b.pendingKeys && b.pendingKeys[k] == d { PendingExactly(b, k, d); }
    hide Inv, Indexed, IsSame, FingerprintOf;
    if k in b.pendingKeys {
      assert Pending(b, k, b.pendingKeys[k]);
      SameExactly(b.pending[b.pendingKeys[k]].fingerprint, to, m);
    }
  }

  /** What the pending table answers, once the cache has nothing to say. */
  lemma PendingDecides(b: Broker, host: Host, from: Id, to: string, m: Message, now: int, d: DeliveryId)
    requires Inv(b)
    ensures var k := Key(from, m.id); var answer := AnswerPending(b, host, k, FingerprintOf(to, m), now).1;
            && (answer == Some(Refused(DuplicateMessageId)) <==> OtherIsPending(b, k, to, m))
            && (answer == Some(BrokerModel.StillPending(d)) <==> OnItsWay(b, host, k, to, m, d, now))
            && (answer.None? || answer == Some(Refused(DuplicateMessageId)) ||
              (answer.value.StillPending? && OnItsWay(b, host, k, to, m, answer.value.deliveryId, now)))
  {
    var k := Key(from, m.id);
    OnePending(b, k, to, m);
    hide Inv, IsSame, FingerprintOf, FailAll, StillAuthorized, MayStillReach, Pending, OtherIsPending;
    if k in b.pendingKeys {
      var p := b.pending[b.pendingKeys[k]];
      SameExactly(p.fingerprint, to, m);
      StillReachExactly(b, host, p.from, p.to, p.action, p.fromGeneration, p.toGeneration, now);
    }
  }

  lemma CacheDoesNotMatter(b: Broker, recent: map<Key, Recent>, host: Host, k: Key, fingerprint: Fingerprint, now: int)
    ensures AnswerPending(b.(recent := recent), host, k, fingerprint, now).1 == AnswerPending(b, host, k, fingerprint, now).1
  {
    hide FailAll, Validate;
  }

  /** The cache is asked first and the pending table after it, both as they are before the send. */
  lemma CacheThenPending(b: Broker, host: Host, from: Id, to: string, m: Message, now: int)
    ensures var k := Key(from, m.id); var answer := Deduplicate(b, host, from, to, m, now).1;
            if Remembered(b, k, now) && b.recent[k].fingerprint != FingerprintOf(to, m) then answer == Some(Refused(DuplicateMessageId))
            else if Remembered(b, k, now) && !b.recent[k].retryable && RecentHolds(b, host, from, k, now) then
              answer == Some(Replayed(b.recent[k].response))
            else answer == AnswerPending(b, host, k, FingerprintOf(to, m), now).1
  {
    var k := Key(from, m.id);
    if Remembered(b, k, now) { RecentHoldsWhenPruned(b, host, from, k, now); }
    hide AnswerPending, RecentHolds, FingerprintOf;
    CacheDoesNotMatter(b, Prune(b, now).recent - {k}, host, k, FingerprintOf(to, m), now);
  }

  lemma DuplicatesAreRefused(b: Broker, host: Host, from: Id, to: string, m: Message, now: int)
    requires Inv(b)
    ensures Deduplicate(b, host, from, to, m, now).1 == Some(Refused(DuplicateMessageId)) <==> Clashes(b, Key(from, m.id), to, m, now)
  {
    var k := Key(from, m.id);
    CacheThenPending(b, host, from, to, m, now);
    CacheDecides(b, host, from, to, m, now, "");
    PendingDecides(b, host, from, to, m, now, "");
    OnePending(b, k, to, m);
    if k in b.recent { RememberedIsSound(b, k); }
    hide Inv, Deduplicate, AnswerPending, IsSame, FingerprintOf, RecentHolds, WasDelivered, OnItsWay, Pending, OtherIsPending;
  }

  lemma DeliveredAreReplayed(b: Broker, host: Host, from: Id, to: string, m: Message, now: int, answer: Response)
    requires Inv(b)
    ensures Deduplicate(b, host, from, to, m, now).1 == Some(Replayed(answer)) <==>
            answer.Delivered? && WasDelivered(b, host, Key(from, m.id), to, m, answer.deliveryId, now)
  {
    var k := Key(from, m.id);
    CacheThenPending(b, host, from, to, m, now);
    CacheDecides(b, host, from, to, m, now, if answer.Delivered? then answer.deliveryId else "");
    PendingDecides(b, host, from, to, m, now, "");
    if k in b.recent { RememberedIsSound(b, k); }
    hide Inv, Deduplicate, AnswerPending, IsSame, FingerprintOf, RecentHolds, MayStillReach, OnItsWay, Pending, OtherIsPending;
  }

  lemma PendingStayPending(b: Broker, host: Host, from: Id, to: string, m: Message, now: int, d: DeliveryId)
    requires Inv(b)
    ensures Deduplicate(b, host, from, to, m, now).1 == Some(BrokerModel.StillPending(d)) <==>
            OnItsWay(b, host, Key(from, m.id), to, m, d, now) && !Clashes(b, Key(from, m.id), to, m, now)
  {
    var k := Key(from, m.id);
    CacheThenPending(b, host, from, to, m, now);
    CacheDecides(b, host, from, to, m, now, "");
    PendingDecides(b, host, from, to, m, now, d);
    OnePending(b, k, to, m);
    if k in b.recent { RememberedIsSound(b, k); }
    hide Inv, Deduplicate, AnswerPending, IsSame, FingerprintOf, RecentHolds, MayStillReach, WasDelivered, OtherIsPending;
  }

  lemma OnlyThreeAnswers(b: Broker, host: Host, from: Id, to: string, m: Message, now: int)
    ensures var answer := Deduplicate(b, host, from, to, m, now).1;
            answer.Some? ==> answer == Some(Refused(DuplicateMessageId)) || answer.value.Replayed? || answer.value.StillPending?
  {
    hide RecentHolds, StillAuthorized, FailAll, FingerprintOf;
  }

  lemma OpenIsRouted(b: Broker, host: Host, from: Id, to: string, m: Message, now: int)
    requires Inv(b)
    ensures Deduplicate(b, host, from, to, m, now).1.None? <==> Open(b, host, Key(from, m.id), to, m, now)
  {
    hide Inv, Deduplicate, Clashes, WasDelivered, OnItsWay;
    var k, answer := Key(from, m.id), Deduplicate(b, host, from, to, m, now).1;
    DuplicatesAreRefused(b, host, from, to, m, now);
    OnlyThreeAnswers(b, host, from, to, m, now);
    forall d ensures answer == Some(Replayed(Delivered(d))) <==> WasDelivered(b, host, k, to, m, d, now) {
      DeliveredAreReplayed(b, host, from, to, m, now, Delivered(d));
    }
    forall d ensures answer == Some(BrokerModel.StillPending(d)) <==> OnItsWay(b, host, k, to, m, d, now) && !Clashes(b, k, to, m, now) {
      PendingStayPending(b, host, from, to, m, now, d);
    }
    if answer.Some? && answer.value.Replayed? { DeliveredAreReplayed(b, host, from, to, m, now, answer.value.response); }
  }

  // ---------- What an open message leaves to be decided ----------

  /** The state in which an open message is routed: a pending delivery of the message whose sender
      may no longer reach its recipient has failed. */
  ghost predicate IsCleared(b: Broker, k: Key, m: Message, now: int, b': Broker) {
    && SamePeople(b, b') && b'.pending == Others(b.pending, k) && b'.pendingKeys == b.pendingKeys - {k}
    && b'.edges == OtherAsks(b, k, m) && b'.disk == b'.edges && b'.history.accepted == b.history.accepted
    && (forall x :: x in b'.recent && x != k <==> Remembered(b, x, now) && x != k)
    && (forall x :: x in b'.recent && x != k ==> b'.recent[x] == b.recent[x])
    && (k in b'.recent <==> exists d :: Pending(b, k, d))
    && (forall d :: Pending(b, k, d) ==> b'.recent[k] == Remembrance(b.pending[d], true, DeliveryFailed(SessionNotFound), now))
  }

  lemma OthersWithoutPending(b: Broker, k: Key, m: Message)
    requires Inv(b)
    ensures k !in b.pendingKeys ==> Others(b.pending, k) == b.pending && b.pendingKeys - {k} == b.pendingKeys && OtherAsks(b, k, m) == b.edges
    ensures k in b.pendingKeys ==> Others(b.pending, k) == b.pending - {b.pendingKeys[k]}
  {
    hide Inv, OtherIsPending;
    OnePending(b, k, "", m);
    assert forall d :: d in b.pending && b.pending[d].key == k ==> Pending(b, k, d);
  }

  lemma RecentIsBeside(b: Broker, recent: map<Key, Recent>, host: Host, p: Delivery, now: int)
    ensures StillAuthorized(b.(recent := recent), host, p.from, p.to, p.action, p.fromGeneration, p.toGeneration, now) ==
            StillAuthorized(b, host, p.from, p.to, p.action, p.fromGeneration, p.toGeneration, now)
  {
    hide Validate;
  }

  lemma OvertakenIsFailed(b: Broker, recent: map<Key, Recent>, host: Host, k: Key, to: string, m: Message, now: int)
    requires Inv(b.(recent := recent)) && AnswerPending(b.(recent := recent), host, k, FingerprintOf(to, m), now).1.None?
    ensures var b', cleared := AnswerPending(b.(recent := recent), host, k, FingerprintOf(to, m), now).0, b.(recent := recent);
            if k in b.pendingKeys then
              && b.pendingKeys[k] in b.pending && b.pending[b.pendingKeys[k]].fingerprint == FingerprintOf(to, m)
              && HasFailed(cleared, b.pendingKeys[k], SessionNotFound, now, b')
            else b' == cleared
  {
    hide Inv, FailAll, StillAuthorized, HasFailed;
    if k in b.pendingKeys && b.pendingKeys[k] in b.pending {
      FailingOne(b.(recent := recent), b.pendingKeys[k], SessionNotFound, now);
    }
  }

  /** An open message is routed in the state that `IsCleared` describes. */
  lemma OpenIsCleared(b: Broker, host: Host, from: Id, to: string, m: Message, now: int)
    requires Inv(b) && Deduplicate(b, host, from, to, m, now).1.None?
    ensures IsCleared(b, Key(from, m.id), m, now, Deduplicate(b, host, from, to, m, now).0)
  {
    hide Inv, AnswerPending, HasFailed, RecentHolds, IsCleared;
    var k := Key(from, m.id);
    var recent := Prune(b, now).recent - {k};
    FewerRecentKeep(b, recent);
    OvertakenIsFailed(b, recent, host, k, to, m, now);
    ClearedByFailing(b, recent, k, to, m, now, Deduplicate(b, host, from, to, m, now).0);
  }

  lemma ClearedByFailing(b: Broker, recent: map<Key, Recent>, k: Key, to: string, m: Message, now: int, b': Broker)
    requires Inv(b) && recent == Prune(b, now).recent - {k}
    requires k in b.pendingKeys ==> b.pendingKeys[k] in b.pending && b.pending[b.pendingKeys[k]].fingerprint == FingerprintOf(to, m)
    requires if k in b.pendingKeys then HasFailed(b.(recent := recent), b.pendingKeys[k], SessionNotFound, now, b') else b' == b.(recent := recent)
    ensures IsCleared(b, k, m, now, b')
  {
    hide Inv, OtherIsPending, Remembrance, Others, OtherAsks, Pending;
    OthersWithoutPending(b, k, m);
    OnePending(b, k, to, m);
    TablesOf(b);
    hide Indexed, Mirrors;
    if k in b.pendingKeys {
      OvertakenAsk(b, k, to, m);
    }
  }

  lemma OvertakenAsk(b: Broker, k: Key, to: string, m: Message)
    requires Inv(b) && k in b.pendingKeys && b.pendingKeys[k] in b.pending && b.pending[b.pendingKeys[k]].fingerprint == FingerprintOf(to, m)
    ensures var p := b.pending[b.pendingKeys[k]];
            p.key == k && OtherAsks(b, k, m) == if p.message.expectsReply == Some(true) then b.edges - {p.key} else b.edges
  {
    hide Inv, OtherIsPending;
    OnePending(b, k, to, m);
    PendingIsDescribed(b, b.pendingKeys[k]);
  }

  // ---------- Routing ----------

  lemma AsksDecide(edges: map<Key, AskEdge>, from: Id, target: Id, m: Message)
    requires EdgesShaped(edges)
    ensures var refusal := AskRefusal(edges, from, target, m); var asks := m.expectsReply == Some(true);
            && (refusal == Some(InvalidReplyTarget) <==> !ReplyFits(edges, from, target, m))
            && (refusal == Some(AskAlreadyPending) <==> ReplyFits(edges, from, target, m) && asks && Asks(edges, from, target))
            && (refusal == Some(MutualAsk) <==>
              ReplyFits(edges, from, target, m) && asks && !Asks(edges, from, target) && WaitsOtherwise(edges, from, target, m))
            && (refusal == Some(TooManyPendingAsks) <==>
              && ReplyFits(edges, from, target, m) && asks && !Asks(edges, from, target) && !WaitsOtherwise(edges, from, target, m)
              && !MayAskMore(edges, from))
            && (refusal.None? <==> ReplyFits(edges, from, target, m) && AskFits(edges, from, target, m))
            && (refusal.Some? ==> refusal.value in {InvalidReplyTarget, AskAlreadyPending, MutualAsk, TooManyPendingAsks})
  {
    assert EdgesFrom(edges, from) == set k | k in edges && edges[k].from == from;
    assert forall k :: k in edges ==> k == Key(edges[k].from, edges[k].messageId);
    hide EdgesShaped, EdgesFrom;
    assert WaitsOtherwise(edges, from, target, m) <==> exists k :: k in edges && IsReverseWait(edges[k], from, target, m);
  }

  lemma TargetsExactly(b: Broker, host: Host, from: Id, to: string, m: Message, x: Id, now: int)
    ensures x in Targets(b, host, from, to, ActionOf(m), now) <==> Reaches(b, host, from, to, m, x, now)
  {
    hide FindSessions, Fit, IsAuthorized, MayReach, ActionOf, Kind;
    FoundSessionsFitBest(b, host, to, x);
    ReachExactly(b, host, from, ActionOf(m), x, now);
    KindExactly(m);
  }

  lemma TargetsDecide(b: Broker, host: Host, from: Id, to: string, m: Message, target: Id, now: int)
    ensures var targets := Targets(b, host, from, to, ActionOf(m), now);
            && (|targets| == 0 <==> forall x :: !Reaches(b, host, from, to, m, x, now))
            && (|targets| > 1 <==> exists x, y :: x != y && Reaches(b, host, from, to, m, x, now) && Reaches(b, host, from, to, m, y, now))
            && (|targets| == 1 && Only(targets) == target <==> ReachesOnly(b, host, from, to, m, target, now))
  {
    hide Targets, Reaches;
    var targets := Targets(b, host, from, to, ActionOf(m), now);
    forall x ensures x in targets <==> Reaches(b, host, from, to, m, x, now) { TargetsExactly(b, host, from, to, m, x, now); }
    OnlyOfOne(targets, target);
    if |targets| > 1 {
      var x :| x in targets;
      assert targets != {x};
    }
    if x, y :| x != y && x in targets && y in targets { Sets.SubsetIsSmaller({x, y}, targets); }
    if ReachesOnly(b, host, from, to, m, target, now) { assert targets == {target}; }
  }

  /** Who is connected decides who can be reached. */
  lemma SameReach(b: Broker, b': Broker, host: Host, from: Id, to: string, m: Message, x: Id, now: int)
    requires SamePeople(b, b')
    ensures Reaches(b', host, from, to, m, x, now) <==> Reaches(b, host, from, to, m, x, now)
  {
    assert MayReach(b', host, from, Kind(m), x, now) == MayReach(b, host, from, Kind(m), x, now);
    hide MayReach;
  }

  lemma SameReachOnly(b: Broker, b': Broker, host: Host, from: Id, to: string, m: Message, target: Id, now: int)
    requires SamePeople(b, b')
    ensures ReachesOnly(b', host, from, to, m, target, now) <==> ReachesOnly(b, host, from, to, m, target, now)
  {
    hide Reaches;
    forall x ensures Reaches(b', host, from, to, m, x, now) <==> Reaches(b, host, from, to, m, x, now) { SameReach(b, b', host, from, to, m, x, now); }
  }

  /** All that is asked of a message that no record answers, if it is to go to `target`. */
  ghost predicate MayGoOut(b: Broker, host: Host, socket: Socket, from: Id, to: string, m: Message, target: Id, now: int) {
    var asks := OtherAsks(b, Key(from, m.id), m);
    && HasRoom(Others(b.pending, Key(from, m.id)), from)
    && ReachesOnly(b, host, from, to, m, target, now)
    && from in b.sessions && b.sessions[from].socket == socket
    && ReplyFits(asks, from, target, m) && AskFits(asks, from, target, m)
  }

  /** What is written to the recipient's socket and kept until it answers. */
  predicate IsDeliveryOf(b: Broker, socket: Socket, from: Id, to: string, m: Message, target: Id, p: Delivery) {
    && p.key == Key(from, m.id) && p.message == m && p.from == from && p.to == target && p.action == Kind(m)
    && IsSame(p.fingerprint, to, m) && p.senderSocket == socket
    && target in b.sessions && p.recipientSocket == b.sessions[target].socket
    && HasGeneration(b, from, p.fromGeneration) && HasGeneration(b, target, p.toGeneration)
  }

  /** An accepted message is pending, and an ask among the asks on disk. */
  ghost predicate IsSentOut(b: Broker, host: Host, socket: Socket, from: Id, to: string, m: Message, target: Id, d: DeliveryId, now: int,
                            b': Broker) {
    && SamePeople(b, b') && b'.recent == b.recent
    && d in b'.pending && IsDeliveryOf(b, socket, from, to, m, target, b'.pending[d])
    && b'.pending == b.pending[d := b'.pending[d]] && b'.pendingKeys == b.pendingKeys[Key(from, m.id) := d]
    && b'.edges == (if m.expectsReply == Some(true)
                    then b.edges[Key(from, m.id) := AskEdge(m.id, from, target, now, now + host.askTimeoutMs, Blocking)] else b.edges)
    && b'.disk == b'.edges && b'.history.accepted == b.history.accepted[d := b'.pending[d]]
  }

  lemma DeliveryIsOfMessage(b: Broker, socket: Socket, from: Id, to: string, m: Message, target: Id)
    requires from in b.sessions && target in b.sessions
    ensures IsDeliveryOf(b, socket, from, to, m, target, DeliveryFor(b, socket, from, target, to, m))
  {
    KindExactly(m);
    hide ActionOf, Kind;
  }

  lemma AcceptSendsOut(b: Broker, host: Host, socket: Socket, from: Id, to: string, m: Message, target: Id, d: DeliveryId, now: int)
    requires from in b.sessions && target in b.sessions && b.disk == b.edges
    ensures IsSentOut(b, host, socket, from, to, m, target, d, now, Accept(b, host, d, DeliveryFor(b, socket, from, target, to, m), now))
  {
    var p := DeliveryFor(b, socket, from, target, to, m);
    DeliveryIsOfMessage(b, socket, from, to, m, target);
    assert p.key == Key(from, m.id) && p.from == from && p.to == target && p.message == m;
    hide IsDeliveryOf, DeliveryFor;
  }

  /** Why a message to this one session is refused, if it is. */
  ghost predicate RefusesOne(asks: map<Key, AskEdge>, from: Id, target: Id, m: Message, code: FailureCode) {
    if !ReplyFits(asks, from, target, m) then code == InvalidReplyTarget
    else
      m.expectsReply == Some(true) &&
      if Asks(asks, from, target) then code == AskAlreadyPending
      else if WaitsOtherwise(asks, from, target, m) then code == MutualAsk
      else code == TooManyPendingAsks && !MayAskMore(asks, from)
  }

  /** Why a message that no record answers is refused, if it is. */
  ghost predicate Refuses(b: Broker, host: Host, socket: Socket, from: Id, to: string, m: Message, pending: map<DeliveryId, Delivery>,
                          asks: map<Key, AskEdge>, now: int, code: FailureCode) {
    if !HasRoom(pending, from) then code == TooManyPendingDeliveries
    else
      || (code == AmbiguousTarget && exists x, y :: x != y && Reaches(b, host, from, to, m, x, now) && Reaches(b, host, from, to, m, y, now))
      || (code == SessionNotFound && forall x :: !Reaches(b, host, from, to, m, x, now))
      || exists target :: ReachesOnly(b, host, from, to, m, target, now) &&
           if from in b.sessions && b.sessions[from].socket == socket then RefusesOne(asks, from, target, m, code) else code == SenderNotFound
  }

  lemma AsksRefuse(edges: map<Key, AskEdge>, from: Id, target: Id, m: Message, code: FailureCode)
    requires EdgesShaped(edges)
    ensures AskRefusal(edges, from, target, m) == Some(code) <==> RefusesOne(edges, from, target, m, code)
  {
    AsksDecide(edges, from, target, m);
    hide EdgesShaped, AskRefusal, ReplyFits, Asks, WaitsOtherwise, MayAskMore;
  }

  lemma RoomExactly(pending: map<DeliveryId, Delivery>, from: Id)
    ensures HasRoom(pending, from) <==> |pending| < MAX_PENDING_DELIVERIES && |PendingFrom(pending, from)| < MAX_PENDING_DELIVERIES_PER_SESSION
  {
    assert PendingFrom(pending, from) == set d | d in pending && pending[d].from == from;
  }

  lemma RouteAccepts(b: Broker, host: Host, socket: Socket, from: Id, to: string, m: Message, d: DeliveryId, now: int, target: Id)
    requires from in b.sessions && EdgesShaped(b.edges) && b.disk == b.edges
    ensures var (b', outcome) := Route(b, host, socket, from, to, m, d, now);
            && (outcome == Accepted(d, target) <==>
              && HasRoom(b.pending, from) && ReachesOnly(b, host, from, to, m, target, now) && b.sessions[from].socket == socket
              && ReplyFits(b.edges, from, target, m) && AskFits(b.edges, from, target, m))
            && (outcome == Accepted(d, target) ==> IsSentOut(b, host, socket, from, to, m, target, d, now, b'))
            && (outcome.Accepted? ==> outcome.deliveryId == d) && (!outcome.Accepted? ==> b' == b)
  {
    hide Targets, PendingFrom, AskRefusal, EdgesShaped, HasRoom, ReachesOnly, Reaches, ReplyFits, AskFits, Accept, DeliveryFor, IsSentOut;
    RoomExactly(b.pending, from);
    TargetsAreLive(b, host, from, to, ActionOf(m), now);
    TargetsDecide(b, host, from, to, m, target, now);
    AsksDecide(b.edges, from, target, m);
    if target in b.sessions { AcceptSendsOut(b, host, socket, from, to, m, target, d, now); }
  }

  lemma RouteRefuses(b: Broker, host: Host, socket: Socket, from: Id, to: string, m: Message, d: DeliveryId, now: int, code: FailureCode)
    requires from in b.sessions && EdgesShaped(b.edges)
    ensures Route(b, host, socket, from, to, m, d, now).1 == Refused(code) <==> Refuses(b, host, socket, from, to, m, b.pending, b.edges, now, code)
  {
    hide Targets, PendingFrom, AskRefusal, EdgesShaped, HasRoom, ReachesOnly, Reaches, RefusesOne,
      Accept, DeliveryFor;
    var targets := Targets(b, host, from, to, ActionOf(m), now);
    RoomExactly(b.pending, from);
    TargetsAreLive(b, host, from, to, ActionOf(m), now);
    forall target
      ensures |targets| == 1 && Only(targets) == target <==> ReachesOnly(b, host, from, to, m, target, now)
    {
      TargetsDecide(b, host, from, to, m, target, now);
    }
    TargetsDecide(b, host, from, to, m, from, now);
    if |targets| == 1 {
      assert Only(targets) in targets && ReachesOnly(b, host, from, to, m, Only(targets), now);
      AsksRefuse(b.edges, from, Only(targets), m, code);
    }
  }

  // ---------- The decision ----------

  /** What is answered to a session's own send, for every answer there is. */
  ghost predicate IsDecision(b: Broker, host: Host, socket: Socket, from: Id, to: string, m: Message, d: DeliveryId, now: int, outcome: SendOutcome) {
    var k := Key(from, m.id);
    match outcome
    case Denied => false
    case Replayed(answer) => answer.Delivered? && WasDelivered(b, host, k, to, m, answer.deliveryId, now)
    case StillPending(x) => OnItsWay(b, host, k, to, m, x, now) && !Clashes(b, k, to, m, now)
    case Refused(code) =>
      || (code == DuplicateMessageId && Clashes(b, k, to, m, now))
      || (Open(b, host, k, to, m, now) && Refuses(b, host, socket, from, to, m, Others(b.pending, k), OtherAsks(b, k, m), now, code))
    case Accepted(x, target) => x == d && Open(b, host, k, to, m, now) && MayGoOut(b, host, socket, from, to, m, target, now)
  }

  lemma OpenDecides(b: Broker, cleared: Broker, host: Host, socket: Socket, from: Id, to: string, m: Message, d: DeliveryId, now: int,
                    outcome: SendOutcome)
    requires Inv(cleared) && IsCleared(b, Key(from, m.id), m, now, cleared) && from in b.sessions
    requires outcome.Refused? || outcome.Accepted?
    ensures Route(cleared, host, socket, from, to, m, d, now).1 == outcome <==>
            match outcome
            case Refused(code) =>
              Refuses(b, host, socket, from, to, m, Others(b.pending, Key(from, m.id)), OtherAsks(b, Key(from, m.id), m), now, code)
            case Accepted(x, target) => x == d && MayGoOut(b, host, socket, from, to, m, target, now)
            case _ => false
  {
    hide Inv, Route, Reaches, ReachesOnly, RefusesOne, HasRoom, ReplyFits, AskFits, Others, OtherAsks, IsSentOut;
    AsksAreShaped(cleared);
    if outcome.Accepted? {
      RouteAccepts(cleared, host, socket, from, to, m, d, now, outcome.recipient);
      SameReachOnly(b, cleared, host, from, to, m, outcome.recipient, now);
    } else {
      RouteRefuses(cleared, host, socket, from, to, m, d, now, outcome.code);
      forall x { SameReach(b, cleared, host, from, to, m, x, now); }
      forall x { SameReachOnly(b, cleared, host, from, to, m, x, now); }
    }
  }

  lemma AsksAreShaped(b: Broker)
    requires Inv(b)
    ensures EdgesShaped(b.edges) && b.disk == b.edges
  {
    hide EdgesShaped, TablesHold, RecordsHold, Mirrors;
  }

  lemma OnlyTwoRoutes(b: Broker, host: Host, socket: Socket, from: Id, to: string, m: Message, d: DeliveryId, now: int)
    requires from in b.sessions
    ensures var outcome := Route(b, host, socket, from, to, m, d, now).1; outcome.Refused? || outcome.Accepted?
  {
    hide Targets, PendingFrom, AskRefusal, Accept, DeliveryFor;
    TargetsAreLive(b, host, from, to, ActionOf(m), now);
  }

  /** The broker's answer to a send of the session that speaks on the socket is the one that the
      records, the limits, the policy and the asks decide, and no other. */
  lemma SendDecides(b: Broker, host: Host, socket: Socket, from: Id, to: string, m: Message, d: DeliveryId, now: int, outcome: SendOutcome)
    requires Inv(b) && Speaks(b, socket, from, now)
    ensures Send(b, host, socket, to, m, d, now).1 == outcome <==> IsDecision(b, host, socket, from, to, m, d, now, outcome)
  {
    hide Inv, Speaks, Speaker, Deduplicate, Route, IsCleared, Open, Clashes, WasDelivered, OnItsWay, Refuses, MayGoOut;
    var k := Key(from, m.id);
    var (cleared, answer) := Deduplicate(b, host, from, to, m, now);
    SpeakerExactly(b, socket, from, now);
    SpeakerIsLive(b, socket, from, now);
    DeduplicateKeeps(b, host, from, to, m, now);
    OpenIsRouted(b, host, from, to, m, now);
    OnlyThreeAnswers(b, host, from, to, m, now);
    DuplicatesAreRefused(b, host, from, to, m, now);
    if outcome.Replayed? { DeliveredAreReplayed(b, host, from, to, m, now, outcome.response); }
    if outcome.StillPending? { PendingStayPending(b, host, from, to, m, now, outcome.deliveryId); }
    if answer.None? {
      OpenIsCleared(b, host, from, to, m, now);
      OnlyTwoRoutes(cleared, host, socket, from, to, m, d, now);
      if outcome.Refused? || outcome.Accepted? { OpenDecides(b, cleared, host, socket, from, to, m, d, now, outcome); }
    }
  }

  lemma SpeakerIsLive(b: Broker, socket: Socket, from: Id, now: int)
    requires Speaks(b, socket, from, now)
    ensures from in b.sessions
  {}

  /** Nobody else is answered, and nothing changes for them. */
  lemma StrangersAreDenied(b: Broker, host: Host, socket: Socket, to: string, m: Message, d: DeliveryId, now: int)
    ensures Send(b, host, socket, to, m, d, now).1 == Denied <==> forall id :: !Speaks(b, socket, id, now)
    ensures Send(b, host, socket, to, m, d, now).1 == Denied ==> Send(b, host, socket, to, m, d, now).0 == b
  {
    hide Speaks, Speaker, Deduplicate, Route;
    var speaker := Speaker(b, socket, now);
    forall id { SpeakerExactly(b, socket, id, now); }
    if speaker.Some? {
      SpeakerIsLive(b, socket, speaker.value, now);
      OnlyThreeAnswers(b, host, speaker.value, to, m, now);
      var (cleared, answer) := Deduplicate(b, host, speaker.value, to, m, now);
      DeduplicateIsCalm(b, host, speaker.value, to, m, now);
      if answer.None? { OnlyTwoRoutes(cleared, host, socket, speaker.value, to, m, d, now); }
    }
  }

  // ---------- What a send changes ----------

  /** A message that the records answer changes nothing but the cache, which forgets what is older
      than ten minutes, and what it had under this key if that did not give the answer. */
  ghost predicate IsOnlyAnswered(b: Broker, k: Key, byCache: bool, now: int, b': Broker) {
    && SamePeople(b, b') && b'.pending == b.pending && b'.pendingKeys == b.pendingKeys && b'.edges == b.edges && b'.disk == b.disk
    && (forall x :: x in b'.recent <==> Remembered(b, x, now) && (x == k ==> byCache))
    && (forall x :: x in b'.recent ==> b'.recent[x] == b.recent[x])
  }

  lemma AnsweredPending(b: Broker, host: Host, k: Key, fingerprint: Fingerprint, now: int)
    ensures var (b', answer) := AnswerPending(b, host, k, fingerprint, now); answer.Some? ==> b' == b && !answer.value.Replayed?
  {
    hide StillAuthorized, FailAll;
  }

  lemma AnsweringChanges(b: Broker, host: Host, from: Id, to: string, m: Message, now: int)
    ensures var (b', answer) := Deduplicate(b, host, from, to, m, now);
            answer.Some? ==> IsOnlyAnswered(b, Key(from, m.id), answer.value.Replayed? || OtherIsRemembered(b, Key(from, m.id), to, m, now), now, b')
  {
    hide StillAuthorized, RecentHolds, FailAll, FingerprintOf, IsSame, Pending;
    var k := Key(from, m.id);
    if Remembered(b, k, now) { SameExactly(b.recent[k].fingerprint, to, m); }
    AnsweredPending(b.(recent := Prune(b, now).recent - {k}), host, k, FingerprintOf(to, m), now);
    hide AnswerPending;
  }

  /** An accepted message is pending, for exactly the session the outcome names, and an ask is on
      disk; a refused one leaves at most its own overtaken delivery failed; one that the records
      answer leaves everything as it was. */
  lemma SendChanges(b: Broker, host: Host, socket: Socket, from: Id, to: string, m: Message, d: DeliveryId, now: int)
    returns (cleared: Broker)
    requires Inv(b) && Speaks(b, socket, from, now)
    ensures var k := Key(from, m.id); var (b', outcome) := Send(b, host, socket, to, m, d, now);
            && (Open(b, host, k, to, m, now) ==> IsCleared(b, k, m, now, cleared) && (outcome.Accepted? || outcome.Refused?))
            && (Open(b, host, k, to, m, now) && outcome.Accepted? ==>
              IsSentOut(cleared, host, socket, from, to, m, outcome.recipient, d, now, b'))
            && (Open(b, host, k, to, m, now) && outcome.Refused? ==> b' == cleared)
            && (!Open(b, host, k, to, m, now) ==>
              IsOnlyAnswered(b, k, outcome.Replayed? || OtherIsRemembered(b, k, to, m, now), now, b'))
  {
    hide Inv, Speaks, Speaker, Deduplicate, Route, IsCleared, Open, IsSentOut, OtherIsRemembered, IsOnlyAnswered, Reaches, ReachesOnly, HasRoom,
      ReplyFits, AskFits, EdgesShaped;
    cleared := Deduplicate(b, host, from, to, m, now).0;
    SpeakerExactly(b, socket, from, now);
    SpeakerIsLive(b, socket, from, now);
    DeduplicateKeeps(b, host, from, to, m, now);
    OpenIsRouted(b, host, from, to, m, now);
    AnsweringChanges(b, host, from, to, m, now);
    if Deduplicate(b, host, from, to, m, now).1.None? {
      OpenIsCleared(b, host, from, to, m, now);
      OnlyTwoRoutes(cleared, host, socket, from, to, m, d, now);
      AsksAreShaped(cleared);
      var outcome := Route(cleared, host, socket, from, to, m, d, now).1;
      RouteAccepts(cleared, host, socket, from, to, m, d, now, if outcome.Accepted? then outcome.recipient else from);
    }
  }

  // ---------- Replies ----------

  lemma AskingReply(edges: map<Key, AskEdge>, from: Id, target: Id, m: Message)
    requires m.replyTo.Some? && EdgesShaped(edges)
    ensures m.expectsReply != Some(true) ==> AskFits(edges, from, target, m)
    ensures m.expectsReply == Some(true) ==>
      (AskFits(edges, from, target, m) <==>
        && (forall k :: k in edges && edges[k].from == from ==> edges[k].to != target)
        && (forall k :: k in edges && edges[k].state == Blocking && edges[k].from == target && edges[k].to == from ==>
          k == Key(target, m.replyTo.value))
        && |set k | k in edges && edges[k].from == from| < 64)
  {
    assert forall k :: k in edges ==> k == Key(edges[k].from, edges[k].messageId);
    hide EdgesShaped;
  }

  /** When one session is reached and there is room, only the asks can make a reply invalid. */
  lemma NotRefusedOtherwise(b: Broker, host: Host, from: Id, to: string, m: Message, target: Id, now: int)
    requires ReachesOnly(b, host, from, to, m, target, now)
    ensures Reaches(b, host, from, to, m, target, now)
    ensures forall x :: ReachesOnly(b, host, from, to, m, x, now) ==> x == target
  {
    hide Reaches;
  }

  /** A reply goes out if and only if the session it is for has put the ask to the sender and the
      ask is still known. Whether that ask is blocking or deferred makes no difference; a reply
      that asks in turn must be the only ask to that session, and the other may wait for nothing
      else from the sender. */
  lemma ReplyGoesOut(b: Broker, host: Host, socket: Socket, from: Id, to: string, m: Message, d: DeliveryId, now: int, target: Id)
    requires Inv(b) && Speaks(b, socket, from, now) && b.sessions[from].socket == socket && m.replyTo.Some?
    requires ReachesOnly(b, host, from, to, m, target, now) && HasRoom(b.pending, from)
    requires Open(b, host, Key(from, m.id), to, m, now) && forall x :: !Pending(b, Key(from, m.id), x)
    ensures var outcome := Send(b, host, socket, to, m, d, now).1; var ask := Key(target, m.replyTo.value);
            && (m.expectsReply != Some(true) ==>
              if ask in b.edges && b.edges[ask].to == from then outcome == Accepted(d, target) else outcome == Refused(InvalidReplyTarget))
            && (m.expectsReply == Some(true) ==>
              (outcome == Accepted(d, target) <==>
                && ask in b.edges && b.edges[ask].to == from
                && (forall k :: k in b.edges && b.edges[k].from == from ==> b.edges[k].to != target)
                && (forall k :: k in b.edges && b.edges[k].state == Blocking && b.edges[k].from == target && b.edges[k].to == from ==> k == ask)
                && |set k | k in b.edges && b.edges[k].from == from| < 64))
  {
    hide Inv, Speaks, Send, Open, Clashes, Others, OtherAsks, HasRoom, Reaches, ReachesOnly, AskFits, Pending;
    var k := Key(from, m.id);
    OnePending(b, k, to, m);
    OthersWithoutPending(b, k, m);
    AsksAreShaped(b);
    SendDecides(b, host, socket, from, to, m, d, now, Accepted(d, target));
    SendDecides(b, host, socket, from, to, m, d, now, Refused(InvalidReplyTarget));
    AskingReply(b.edges, from, target, m);
    assert ReachesOnly(b, host, from, to, m, target, now);
    NotRefusedOtherwise(b, host, from, to, m, target, now);
    SpeakerIsLive(b, socket, from, now);
  }
}
