/** A receiving session (opencode/runtime.ts) as a value: who waits for a reply, what is stored,
    and which asks are still to be answered. */
module RuntimeModel {

  import opened Wrappers
  import opened Messages
  import opened InboundModel

  /** `log` is the durable store; `asks` and `waiters` are in memory only. */
  datatype Runtime = Runtime(log: Log, asks: map<MessageId, Entry>, waiters: map<MessageId, string>)

  datatype Arrival = ToWaiter | Duplicate | Stored

  function DisplayName(from: Peer): string {
    if from.name.Some? && from.name.value != "" then from.name.value else from.id
  }

  /** Some local call waits for this very reply. */
  predicate Awaited(waiters: map<MessageId, string>, lower: string -> string, from: Peer, m: Message) {
    var key := m.replyTo.GetOr("");
    key in waiters && (lower(DisplayName(from)) == lower(waiters[key]) || from.id == waiters[key])
  }

  /** Every arrival is acknowledged, in all three cases, if there is a client to do it. */
  function Arrive(r: Runtime, lower: string -> string, e: Entry): (Runtime, Arrival) {
    if Awaited(r.waiters, lower, e.from, e.message) then (r.(waiters := r.waiters - {e.message.replyTo.GetOr("")}), ToWaiter)
    else
      var log := InboundModel.Next(r.log, EnqueueOp(e));
      if Enqueue(r.log.store, e).1 != New then (r.(log := log), Duplicate)
      else (r.(log := log, asks := if e.message.IsAsk() then r.asks[e.message.id := e] else r.asks), Stored)
  }

  function AsksOf(s: Inbound): map<MessageId, Entry> {
    map id | id in s.records && s.records[id].entry.message.IsAsk() :: s.records[id].entry
  }

  function Replied(r: Runtime, id: MessageId): Runtime {
    r.(log := InboundModel.Next(r.log, ReplyOp(id)), asks := r.asks - {id})
  }

  /** A new process: only the store is left. */
  function Restarted(r: Runtime): Runtime {
    var log := InboundModel.Next(r.log, ReloadOp);
    Runtime(log, AsksOf(log.store), map[])
  }

  // ---------- Runs ----------

  datatype Event =
    | ArriveE(entry: Entry)
    | InjectedE(id: MessageId)
    | RepliedE(id: MessageId)
    | AskE(id: MessageId, of: string)
    | GiveUpE(id: MessageId)
    | DisconnectedE
    | RestartE

  function Step(r: Runtime, lower: string -> string, e: Event): Runtime {
    match e
    case ArriveE(entry) => Arrive(r, lower, entry).0
    case InjectedE(id) => r.(log := InboundModel.Next(r.log, InjectOp(id)))
    case RepliedE(id) => Replied(r, id)
    case AskE(id, of) => r.(waiters := r.waiters[id := of])
    case GiveUpE(id) => r.(waiters := r.waiters - {id})
    case DisconnectedE => r.(waiters := map[])
    case RestartE => Restarted(r)
  }

  const START := Runtime(Log(EMPTY, []), map[], map[])

  function Run(lower: string -> string, events: seq<Event>): Runtime {
    if events == [] then START else Step(Run(lower, events[..|events| - 1]), lower, events[|events| - 1])
  }

  /** The asks in memory are exactly the stored ones, and the store keeps its order. */
  ghost predicate Agrees(r: Runtime) {
    Kept(r.log) && r.asks == AsksOf(r.log.store)
  }

  lemma AsksOfEnqueued(s: Inbound, e: Entry)
    ensures AsksOf(Enqueue(s, e).0) ==
            if Enqueue(s, e).1 == New && e.message.IsAsk() then AsksOf(s)[e.message.id := e] else AsksOf(s)
  {}

  lemma ArriveAgrees(r: Runtime, lower: string -> string, e: Entry)
    requires Agrees(r)
    ensures Agrees(Arrive(r, lower, e).0)
  {
    hide Awaited, Kept, AsksOf;
    StepKeeps(r.log, EnqueueOp(e));
    AsksOfEnqueued(r.log.store, e);
  }

  lemma StepAgrees(r: Runtime, lower: string -> string, e: Event)
    requires Agrees(r)
    ensures Agrees(Step(r, lower, e))
  {
    hide Kept, Remember;
    match e
    case ArriveE(entry) => ArriveAgrees(r, lower, entry);
    case InjectedE(id) => StepKeeps(r.log, InjectOp(id));
    case RepliedE(id) => StepKeeps(r.log, ReplyOp(id));
    case RestartE => StepKeeps(r.log, ReloadOp);
    case _ =>
  }

  /** In every run, restarts included, the asks a session has to answer are exactly those in
      its store, with the messages as they arrived. */
  lemma {:induction false} AsksAreTheStoredOnes(lower: string -> string, events: seq<Event>)
    ensures var r := Run(lower, events);
            && Agrees(r) && r.asks.Keys == UnresolvedAsks(r.log.store)
            && forall id :: id in r.asks ==> r.asks[id].message.id == id && r.asks[id].message.IsAsk()
    decreases |events|
  {
    if events != [] {
      AsksAreTheStoredOnes(lower, events[..|events| - 1]);
      hide Agrees, Step;
      StepAgrees(Run(lower, events[..|events| - 1]), lower, events[|events| - 1]);
    }
  }

  predicate Durable(s: Inbound, id: MessageId) {
    id in s.records || id in s.delivered
  }

  /** What is acknowledged is on disk first, unless a local call was waiting for that reply. */
  lemma StoredBeforeAcknowledged(r: Runtime, lower: string -> string, e: Entry)
    requires Agrees(r)
    ensures var (r', arrival) := Arrive(r, lower, e);
            && Loaded(Some(r'.log.store)) == r'.log.store
            && (arrival.ToWaiter? ==> e.message.replyTo.GetOr("") in r.waiters && r'.log == r.log)
            && (!arrival.ToWaiter? ==> Durable(r'.log.store, e.message.id))
            && (arrival.Stored? <==> !Awaited(r.waiters, lower, e.from, e.message) && !Durable(r.log.store, e.message.id))
            && (arrival.Stored? ==> r'.log.store.records[e.message.id] == Record(e, false))
  {
    StepKeeps(r.log, EnqueueOp(e));
    hide Awaited;
    assert r.log.remembered + [] == r.log.remembered;
  }

  // ---------- Handed over at most once ----------

  /** The step hands the message with this id to the session as a new one. */
  predicate HandsOver(lower: string -> string, events: seq<Event>, i: nat, id: MessageId)
    requires i < |events|
  {
    events[i].ArriveE? && events[i].entry.message.id == id && Arrive(Run(lower, events[..i]), lower, events[i].entry).1.Stored?
  }

  lemma StepKeepsStored(r: Runtime, lower: string -> string, e: Event, id: MessageId, n: nat)
    requires StoredOrRemembered(r.log, n, id)
    ensures StoredOrRemembered(Step(r, lower, e).log, n, id)
  {
    hide StoredOrRemembered, Awaited, InboundModel.Next;
    match e
    case ArriveE(entry) => StoredOneStep(r.log, EnqueueOp(entry), id, n);
    case InjectedE(x) => StoredOneStep(r.log, InjectOp(x), id, n);
    case RepliedE(x) => StoredOneStep(r.log, ReplyOp(x), id, n);
    case RestartE => StoredOneStep(r.log, ReloadOp, id, n);
    case _ =>
  }

  lemma {:induction false} StoredSinceHandedOver(lower: string -> string, events: seq<Event>, i: nat, j: nat, id: MessageId)
    requires i < j <= |events| && HandsOver(lower, events, i, id)
    ensures StoredOrRemembered(Run(lower, events[..j]).log, |Run(lower, events[..i]).log.remembered|, id)
    decreases j
  {
    assert events[..j][..j - 1] == events[..j - 1];
    if i < j - 1 {
      hide HandsOver, Step, StoredOrRemembered;
      StoredSinceHandedOver(lower, events, i, j - 1, id);
      StepKeepsStored(Run(lower, events[..j - 1]), lower, events[j - 1], id, |Run(lower, events[..i]).log.remembered|);
    } else {
      hide StoredOrRemembered, Arrive;
    }
  }

  /** However often the process restarts and the message arrives, it is handed over again only
      if at least a thousand other messages have been remembered since it was. */
  lemma HandedOverAgainAfterAThousandOthers(lower: string -> string, events: seq<Event>, i: nat, j: nat, id: MessageId) returns (m: nat)
    requires i < j < |events| && HandsOver(lower, events, i, id) && HandsOver(lower, events, j, id)
    ensures var h := Run(lower, events[..j]).log.remembered;
            && |Run(lower, events[..i]).log.remembered| <= m < |h| && h[m] == id
            && id !in h[m + 1..] && |Ids(h[m + 1..])| >= MAX_DELIVERED_IDS
  {
    StoredSinceHandedOver(lower, events, i, j, id);
    AsksAreTheStoredOnes(lower, events[..j]);
    var n, l := |Run(lower, events[..i]).log.remembered|, Run(lower, events[..j]).log;
    NewAgain(l, events[j].entry, n, id);
    hide Run, HandsOver;
    m := InboundModel.ForgottenAfterAThousand(l.remembered, id);
    LongerTail(l.remembered, m + 1, n);
  }

  /** What is new to a store that had it must have been remembered and forgotten. */
  lemma NewAgain(l: Log, e: Entry, n: nat, id: MessageId)
    requires Kept(l) && StoredOrRemembered(l, n, id) && e.message.id == id
    ensures Enqueue(l.store, e).1 == New ==>
            id in l.remembered[n..] && id in l.remembered && id !in Last(ByLastUse(l.remembered), MAX_DELIVERED_IDS)
  {
    hide ByLastUse, Last;
    assert l.remembered == l.remembered[..n] + l.remembered[n..];
  }
}
