/** A receiver's durable inbound store (opencode/inbound-store.ts) as a value, and what every
    run of its operations, reloads after a crash included, promises. */
module InboundModel {

  import opened Wrappers
  import opened Messages

  const MAX_DELIVERED_IDS: nat := 1000

  /** The sender of a message as the receiver knows it. */
  datatype Peer = Peer(id: string, name: Option<string>)

  datatype Entry = Entry(from: Peer, message: Message, deliveryId: DeliveryId, receivedAt: int)

  datatype Record = Record(entry: Entry, injected: bool)

  datatype Inbound = Inbound(records: map<MessageId, Record>, delivered: seq<MessageId>)

  datatype Disposition = New | StillPending | AlreadyInjected | AlreadyDelivered

  const EMPTY := Inbound(map[], [])

  // ---------- Operations ----------

  function Last<T>(s: seq<T>, n: nat): seq<T> {
    if |s| <= n then s else s[|s| - n..]
  }

  function Without(ids: seq<MessageId>, id: MessageId): seq<MessageId> {
    if ids == [] then []
    else Without(ids[..|ids| - 1], id) + if ids[|ids| - 1] == id then [] else [ids[|ids| - 1]]
  }

  function Remember(delivered: seq<MessageId>, id: MessageId): seq<MessageId> {
    Last(Without(delivered, id) + [id], MAX_DELIVERED_IDS)
  }

  /** What a store makes of its file; `None` is a file that is absent or not a store. */
  function Loaded(file: Option<Inbound>): Inbound {
    if file.None? then EMPTY else file.value.(delivered := Last(file.value.delivered, MAX_DELIVERED_IDS))
  }

  function Enqueue(s: Inbound, e: Entry): (Inbound, Disposition) {
    var id := e.message.id;
    if id in s.delivered then (s, AlreadyDelivered)
    else if id in s.records then (s, if s.records[id].injected then AlreadyInjected else StillPending)
    else (s.(records := s.records[id := Record(e, false)]), New)
  }

  /** An injected ask stays until it is replied to; any other message is done. */
  function MarkInjected(s: Inbound, id: MessageId): Inbound {
    if id !in s.records then s
    else if s.records[id].entry.message.IsAsk() then s.(records := s.records[id := s.records[id].(injected := true)])
    else Inbound(s.records - {id}, Remember(s.delivered, id))
  }

  /** Remembers the id even when no such message is stored. */
  function MarkReplied(s: Inbound, id: MessageId): Inbound {
    Inbound(s.records - {id}, Remember(s.delivered, id))
  }

  function UnresolvedAsks(s: Inbound): set<MessageId> {
    set id | id in s.records && s.records[id].entry.message.IsAsk()
  }

  // ---------- Order of last use ----------

  /** The ids of `h`, each once, in the order of their last occurrences. */
  function ByLastUse(h: seq<MessageId>): seq<MessageId> {
    if h == [] then []
    else if h[0] in h[1..] then ByLastUse(h[1..])
    else [h[0]] + ByLastUse(h[1..])
  }

  ghost predicate Distinct(ids: seq<MessageId>) {
    forall i, j :: 0 <= i < j < |ids| ==> ids[i] != ids[j]
  }

  lemma {:induction false} ByLastUseListsOnce(h: seq<MessageId>)
    ensures Distinct(ByLastUse(h))
    ensures forall id :: id in ByLastUse(h) <==> id in h
  {
    if h != [] { ByLastUseListsOnce(h[1..]); }
  }

  lemma {:induction false} WithoutIsRest(ids: seq<MessageId>, id: MessageId)
    ensures forall x :: x in Without(ids, id) <==> x in ids && x != id
    ensures Distinct(ids) ==> Distinct(Without(ids, id))
    ensures Distinct(ids) ==> |Without(ids, id)| == if id in ids then |ids| - 1 else |ids|
    ensures id !in ids ==> Without(ids, id) == ids
  {
    if ids != [] {
      var init, last := ids[..|ids| - 1], ids[|ids| - 1];
      assert ids == init + [last];
      WithoutIsRest(init, id);
      assert Distinct(ids) ==> Distinct(init) && last !in init;
    }
  }

  lemma {:induction false} WithoutDistributes(a: seq<MessageId>, b: seq<MessageId>, id: MessageId)
    ensures Without(a + b, id) == Without(a, id) + Without(b, id)
    decreases |b|
  {
    if b == [] {
      assert a + b == a;
    } else {
      var init := b[..|b| - 1];
      assert (a + b)[..|a + b| - 1] == a + init;
      WithoutDistributes(a, init, id);
    }
  }

  /** One more use moves the id to the end. */
  lemma {:induction false} OneMoreUse(h: seq<MessageId>, id: MessageId)
    ensures ByLastUse(h + [id]) == Without(ByLastUse(h), id) + [id]
  {
    if h == [] {
      assert h + [id] == [id];
    } else {
      var rest := h[1..];
      assert (h + [id])[1..] == rest + [id];
      OneMoreUse(rest, id);
      if h[0] !in rest {
        WithoutDistributes([h[0]], ByLastUse(rest), id);
        assert [h[0]][..0] == [];
        if h[0] == id {
          ByLastUseListsOnce(rest);
          WithoutIsRest(ByLastUse(rest), id);
        }
      }
    }
  }

  lemma LastOfMore<T>(dropped: seq<T>, s: seq<T>, n: nat)
    requires n <= |s|
    ensures Last(dropped + s, n) == Last(s, n)
  {}

  /** Cutting off the oldest ids first makes no difference to the newest ones. */
  lemma CutThenRemember(s: seq<MessageId>, id: MessageId)
    requires Distinct(s)
    ensures Remember(Last(s, MAX_DELIVERED_IDS), id) == Last(Without(s, id) + [id], MAX_DELIVERED_IDS)
  {
    if |s| > MAX_DELIVERED_IDS {
      var k := |s| - MAX_DELIVERED_IDS;
      var oldest, recent := s[..k], s[k..];
      assert s == oldest + recent && Distinct(recent);
      WithoutDistributes(oldest, recent, id);
      WithoutIsRest(recent, id);
      assert Without(s, id) + [id] == Without(oldest, id) + (Without(recent, id) + [id]);
      LastOfMore(Without(oldest, id), Without(recent, id) + [id], MAX_DELIVERED_IDS);
    }
  }

  lemma RememberKeepsOrder(h: seq<MessageId>, id: MessageId)
    ensures Remember(Last(ByLastUse(h), MAX_DELIVERED_IDS), id) == Last(ByLastUse(h + [id]), MAX_DELIVERED_IDS)
  {
    ByLastUseListsOnce(h);
    CutThenRemember(ByLastUse(h), id);
    OneMoreUse(h, id);
  }

  // ---------- Runs ----------

  datatype Op = EnqueueOp(entry: Entry) | InjectOp(id: MessageId) | ReplyOp(id: MessageId) | ReloadOp

  /** A store with every id it ever remembered as delivered, oldest first. */
  datatype Log = Log(store: Inbound, remembered: seq<MessageId>)

  function Apply(s: Inbound, op: Op): Inbound {
    match op
    case EnqueueOp(entry) => Enqueue(s, entry).0
    case InjectOp(id) => MarkInjected(s, id)
    case ReplyOp(id) => MarkReplied(s, id)
    case ReloadOp => Loaded(Some(s))
  }

  function Remembers(s: Inbound, op: Op): seq<MessageId> {
    match op
    case InjectOp(id) => if id in s.records && !s.records[id].entry.message.IsAsk() then [id] else []
    case ReplyOp(id) => [id]
    case _ => []
  }

  function Next(l: Log, op: Op): Log {
    Log(Apply(l.store, op), l.remembered + Remembers(l.store, op))
  }

  function Run(ops: seq<Op>): Log {
    if ops == [] then Log(EMPTY, []) else Next(Run(ops[..|ops| - 1]), ops[|ops| - 1])
  }

  /** Stored messages sit under their own id and are not among the delivered ones; those are
      the last thousand distinct ids by most recent use. */
  ghost predicate Kept(l: Log) {
    && (forall id :: id in l.store.records ==> l.store.records[id].entry.message.id == id && id !in l.store.delivered)
    && l.store.delivered == Last(ByLastUse(l.remembered), MAX_DELIVERED_IDS)
  }

  lemma RememberedIsThere(delivered: seq<MessageId>, id: MessageId)
    ensures id in Remember(delivered, id)
    ensures forall x :: x in Remember(delivered, id) ==> x in delivered || x == id
    ensures |Remember(delivered, id)| <= MAX_DELIVERED_IDS
  {
    WithoutIsRest(delivered, id);
    var all := Without(delivered, id) + [id];
    assert Last(all, MAX_DELIVERED_IDS)[|Last(all, MAX_DELIVERED_IDS)| - 1] == id;
    hide Without;
  }

  lemma RememberingKeeps(l: Log, op: Op, id: MessageId)
    requires Kept(l) && (op == InjectOp(id) || op == ReplyOp(id))
    ensures Kept(Next(l, op))
  {
    hide Remember, ByLastUse, Last;
    RememberKeepsOrder(l.remembered, id);
    RememberedIsThere(l.store.delivered, id);
    assert l.remembered + [] == l.remembered;
  }

  lemma StepKeeps(l: Log, op: Op)
    requires Kept(l)
    ensures Kept(Next(l, op))
  {
    hide Remember, ByLastUse;
    match op
    case InjectOp(id) => RememberingKeeps(l, op, id);
    case ReplyOp(id) => RememberingKeeps(l, op, id);
    case _ => assert l.remembered + [] == l.remembered;
  }

  /** In every run, reloads included: records and delivered ids are disjoint, no id is listed
      twice, and the list is the last thousand distinct ids by most recent use. */
  lemma {:induction false} RunsKeepOrder(ops: seq<Op>)
    ensures Kept(Run(ops)) && Distinct(Run(ops).store.delivered)
    decreases |ops|
  {
    if ops != [] {
      RunsKeepOrder(ops[..|ops| - 1]);
      StepKeeps(Run(ops[..|ops| - 1]), ops[|ops| - 1]);
    }
    ByLastUseListsOnce(Run(ops).remembered);
  }

  /** A store reads back exactly what it wrote. */
  lemma ReloadIsIdentity(ops: seq<Op>)
    ensures Loaded(Some(Run(ops).store)) == Run(ops).store
  {
    RunsKeepOrder(ops);
  }

  /** A stored ask leaves the store only by a reply to it, and its entry never changes. */
  lemma AskLeavesOnlyByReply(ops: seq<Op>, op: Op, id: MessageId)
    requires id in UnresolvedAsks(Run(ops).store)
    ensures var s, s' := Run(ops).store, Run(ops + [op]).store;
            && (id !in UnresolvedAsks(s') <==> op == ReplyOp(id))
            && (op != ReplyOp(id) ==> s'.records[id].entry == s.records[id].entry)
  {
    assert (ops + [op])[..|ops|] == ops;
    RunsKeepOrder(ops);
    hide Remember, ByLastUse;
  }

  // ---------- New at most once ----------

  /** The use of a suffix of the history comes last. */
  lemma {:induction false} SuffixComesLast(p: seq<MessageId>, q: seq<MessageId>)
    ensures |ByLastUse(q)| <= |ByLastUse(p + q)|
    ensures Last(ByLastUse(p + q), |ByLastUse(q)|) == ByLastUse(q)
    decreases |p|
  {
    if p == [] {
      assert p + q == q;
    } else {
      assert (p + q)[1..] == p[1..] + q;
      SuffixComesLast(p[1..], q);
    }
  }

  /** The ids of a stretch of history. */
  function Ids(h: seq<MessageId>): set<MessageId> {
    set id | id in h
  }

  lemma LongerTail(h: seq<MessageId>, m: nat, n: nat)
    ensures m <= n <= |h| ==> forall id :: id in h[n..] ==> id in h[m..]
  {
    if m <= n <= |h| { assert h[n..] == h[m..][n - m..]; }
  }

  lemma {:induction false} DistinctCount(ids: seq<MessageId>)
    requires Distinct(ids)
    ensures |Ids(ids)| == |ids|
  {
    if ids != [] {
      var init, last := ids[..|ids| - 1], ids[|ids| - 1];
      DistinctCount(init);
      assert ids == init + [last];
      assert Ids(ids) == Ids(init) + {last};
    }
  }

  lemma {:induction false} LastUse(h: seq<MessageId>, id: MessageId) returns (m: nat)
    requires id in h
    ensures m < |h| && h[m] == id && id !in h[m + 1..]
    decreases |h|
  {
    var n := |h| - 1;
    if h[n] == id { return n; }
    assert h == h[..n] + [h[n]];
    m := LastUse(h[..n], id);
    assert h[m + 1..] == h[..n][m + 1..] + [h[n]];
  }

  /** An id that was remembered and is no longer listed has been followed by a thousand others. */
  lemma ForgottenAfterAThousand(h: seq<MessageId>, id: MessageId) returns (m: nat)
    requires id in h && id !in Last(ByLastUse(h), MAX_DELIVERED_IDS)
    ensures m < |h| && h[m] == id && id !in h[m + 1..]
    ensures |Ids(h[m + 1..])| >= MAX_DELIVERED_IDS
  {
    m := LastUse(h, id);
    var since := h[m + 1..];
    assert h == h[..m] + ([id] + since) && ([id] + since)[1..] == since;
    SuffixComesLast(h[..m], [id] + since);
    var order, tail := ByLastUse(h), ByLastUse([id] + since);
    assert tail == [id] + ByLastUse(since);
    ByLastUseListsOnce(since);
    DistinctCount(ByLastUse(since));
    assert Ids(ByLastUse(since)) == Ids(since);
    assert order[|order| - |tail|] == Last(order, |tail|)[0];
  }

  ghost predicate IsNew(ops: seq<Op>, i: nat, id: MessageId)
    requires i < |ops|
  {
    ops[i].EnqueueOp? && ops[i].entry.message.id == id && Enqueue(Run(ops[..i]).store, ops[i].entry).1 == New
  }

  lemma RunOneMore(ops: seq<Op>, i: nat)
    requires i < |ops|
    ensures Run(ops[..i + 1]) == Next(Run(ops[..i]), ops[i])
  {
    assert ops[..i + 1][..i] == ops[..i];
  }

  /** The message is stored, or has been remembered since the history had length `n`. */
  predicate StoredOrRemembered(l: Log, n: nat, id: MessageId) {
    n <= |l.remembered| && (id in l.store.records || id in l.remembered[n..])
  }

  lemma StoredOneStep(l: Log, op: Op, id: MessageId, n: nat)
    requires StoredOrRemembered(l, n, id)
    ensures StoredOrRemembered(Next(l, op), n, id)
  {
    hide Remember;
    var more := Remembers(l.store, op);
    assert (l.remembered + more)[n..] == l.remembered[n..] + more;
  }

  /** Once new, a message is stored until it has been remembered. */
  lemma {:induction false} StoredUntilRemembered(ops: seq<Op>, i: nat, j: nat, id: MessageId)
    requires i < j <= |ops| && IsNew(ops, i, id)
    ensures StoredOrRemembered(Run(ops[..j]), |Run(ops[..i]).remembered|, id)
    decreases j
  {
    RunOneMore(ops, j - 1);
    if i < j - 1 {
      hide Run, Next, StoredOrRemembered, IsNew;
      StoredUntilRemembered(ops, i, j - 1, id);
      StoredOneStep(Run(ops[..j - 1]), ops[j - 1], id, |Run(ops[..i]).remembered|);
    } else {
      hide Run;
    }
  }

  /** A message is new twice only if, since it was remembered in between, at least a thousand
      other ids have been remembered. */
  lemma NewAgainAfterAThousandOthers(ops: seq<Op>, i: nat, j: nat, id: MessageId) returns (m: nat)
    requires i < j < |ops| && IsNew(ops, i, id) && IsNew(ops, j, id)
    ensures var h := Run(ops[..j]).remembered;
            && |Run(ops[..i]).remembered| <= m < |h| && h[m] == id
            && id !in h[m + 1..] && |Ids(h[m + 1..])| >= MAX_DELIVERED_IDS
  {
    StoredUntilRemembered(ops, i, j, id);
    RunsKeepOrder(ops[..j]);
    var first, h := Run(ops[..i]).remembered, Run(ops[..j]).remembered;
    hide Run, ByLastUse;
    assert id in h[|first|..] && h == h[..|first|] + h[|first|..];
    m := ForgottenAfterAThousand(h, id);
    LongerTail(h, m + 1, |first|);
  }
}
