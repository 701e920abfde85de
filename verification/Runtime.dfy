/** A receiving session as it runs (opencode/runtime.ts). */
module OpenCode {

  import opened Wrappers
  import opened Messages
  import opened InboundModel
  import opened InboundStore
  import opened RuntimeModel

  /** The entries under their message ids. */
  function Listed(asks: seq<Entry>): map<MessageId, Entry> {
    if asks == [] then map[] else Listed(asks[..|asks| - 1])[asks[|asks| - 1].message.id := asks[|asks| - 1]]
  }

  lemma {:induction false} ListedAreStored(records: map<MessageId, Record>, asks: seq<Entry>, ids: seq<MessageId>)
    requires |asks| == |ids| && forall id :: id in records ==> records[id].entry.message.id == id
    requires forall i :: 0 <= i < |ids| ==> ids[i] in records && asks[i] == records[ids[i]].entry
    ensures Listed(asks) == map id | id in ids :: records[id].entry
    decreases |asks|
  {
    if asks != [] {
      var n := |asks| - 1;
      assert ids == ids[..n] + [ids[n]];
      ListedAreStored(records, asks[..n], ids[..n]);
    }
  }

  lemma ListedAreAll(s: Inbound, asks: seq<Entry>, ids: seq<MessageId>)
    requires |asks| == |ids| && forall id :: id in s.records ==> s.records[id].entry.message.id == id
    requires forall i :: 0 <= i < |ids| ==> ids[i] in s.records && asks[i] == s.records[ids[i]].entry
    requires forall id :: id in ids <==> id in UnresolvedAsks(s)
    ensures Listed(asks) == AsksOf(s)
  {
    ListedAreStored(s.records, asks, ids);
  }

  class OpenCodeRuntime {
    const inboundStore: DurableInboundStore
    const lower: string -> string
    var unresolvedAsks: map<MessageId, Entry>
    var replyWaiters: map<MessageId, string>
    var hasClient: bool    // set once a connection is up, gone with it
    var acknowledged: seq<DeliveryId>    // what was written back to the broker

    ghost function State(): Runtime
      reads this, inboundStore
    {
      Runtime(inboundStore.History(), unresolvedAsks, replyWaiters)
    }

    ghost predicate Valid()
      reads this, inboundStore
    {
      inboundStore.Valid() && Agrees(State())
    }

    /** Starts on a store that was just opened: the asks in it are to be answered again. */
    constructor (store: DurableInboundStore, lower: string -> string)
      requires store.Valid() && Kept(store.History())
      ensures inboundStore == store && this.lower == lower && acknowledged == [] && !hasClient
      ensures Valid() && State() == Runtime(store.History(), AsksOf(store.State()), map[])
    {
      hide Listed, AsksOf, UnresolvedAsks, Last, ByLastUse;
      inboundStore, this.lower := store, lower;
      unresolvedAsks, replyWaiters, hasClient, acknowledged := map[], map[], false, [];
      new;
      ghost var ids;
      var asks;
      asks, ids := inboundStore.ListUnresolvedAsks();
      ListedAreAll(store.State(), asks, ids);
      hide Kept;
      LoadAsks(asks);
    }

    method LoadAsks(asks: seq<Entry>)
      requires unresolvedAsks == map[]
      modifies this`unresolvedAsks
      ensures unresolvedAsks == Listed(asks)
    {
      for i := 0 to |asks|
        invariant unresolvedAsks == Listed(asks[..i])
      {
        assert asks[..i + 1][..i] == asks[..i];
        unresolvedAsks := unresolvedAsks[asks[i].message.id := asks[i]];
      }
      assert asks[..|asks|] == asks;
    }

    /** The connection is up; messages may have arrived on it before. */
    method Connected()
      requires Valid()
      modifies this`hasClient
      ensures Valid() && State() == old(State()) && hasClient
    {
      hasClient := true;
    }

    /** Writes an acknowledgement, if there is a client. */
    method Acknowledge(deliveryId: DeliveryId)
      modifies this`acknowledged
      ensures acknowledged == old(acknowledged) + if hasClient then [deliveryId] else []
    {
      if hasClient { acknowledged := acknowledged + [deliveryId]; }
    }

    method HandleIncomingMessage(from: Peer, message: Message, deliveryId: DeliveryId, now: int) returns (arrival: Arrival)
      requires Valid()
      modifies this`replyWaiters, this`unresolvedAsks, this`acknowledged, inboundStore
      ensures Valid() && (State(), arrival) == Arrive(old(State()), lower, Entry(from, message, deliveryId, now))
      ensures acknowledged == old(acknowledged) + if hasClient then [deliveryId] else []
    {
      ghost var r := State();
      var entry := Entry(from, message, deliveryId, now);
      ArriveAgrees(r, lower, entry);
      hide Agrees, InboundModel.Next;
      var key := message.replyTo.GetOr("");
      if key in replyWaiters {
        var senderTarget := DisplayName(from);
        if lower(senderTarget) == lower(replyWaiters[key]) || from.id == replyWaiters[key] {
          replyWaiters := replyWaiters - {key};
          Acknowledge(deliveryId);
          return ToWaiter;
        }
      }
      arrival := Keep(entry);
    }

    /** Stores what no local call waits for, and acknowledges it only then. */
    method Keep(entry: Entry) returns (arrival: Arrival)
      requires inboundStore.Valid()
      modifies this`unresolvedAsks, this`acknowledged, inboundStore
      ensures inboundStore.Valid() && arrival == if Enqueue(old(inboundStore.State()), entry).1 == New then Stored else Duplicate
      ensures inboundStore.History() == InboundModel.Next(old(inboundStore.History()), EnqueueOp(entry))
      ensures unresolvedAsks == if arrival.Stored? && entry.message.IsAsk() then old(unresolvedAsks)[entry.message.id := entry] else old(unresolvedAsks)
      ensures acknowledged == old(acknowledged) + if hasClient then [entry.deliveryId] else []
    {
      hide InboundModel.Next, InboundModel.Enqueue;
      var disposition := inboundStore.Enqueue(entry);
      if disposition != New {
        Acknowledge(entry.deliveryId);
        return Duplicate;
      }
      if entry.message.IsAsk() {
        unresolvedAsks := unresolvedAsks[entry.message.id := entry];
      }
      Acknowledge(entry.deliveryId);
      return Stored;
    }

    method MarkInboundInjected(messageId: MessageId)
      requires Valid()
      modifies inboundStore
      ensures Valid() && State() == Step(old(State()), lower, InjectedE(messageId))
    {
      StepAgrees(State(), lower, InjectedE(messageId));
      hide Agrees, Kept;
      inboundStore.MarkInjected(messageId);
    }

    method MarkInboundReplied(messageId: MessageId)
      requires Valid()
      modifies this`unresolvedAsks, inboundStore
      ensures Valid() && State() == Step(old(State()), lower, RepliedE(messageId))
    {
      StepAgrees(State(), lower, RepliedE(messageId));
      hide Agrees, Kept;
      inboundStore.MarkReplied(messageId);
      unresolvedAsks := unresolvedAsks - {messageId};
    }

    /** A call that was cancelled before it could wait does not wait. */
    method WaitForReply(from: string, replyTo: MessageId, aborted: bool)
      requires Valid()
      modifies this`replyWaiters
      ensures Valid() && State() == if aborted then old(State()) else Step(old(State()), lower, AskE(replyTo, from))
    {
      if aborted { return; }
      replyWaiters := replyWaiters[replyTo := from];
    }

    /** The time-out or the cancellation of a wait. */
    method StopWaiting(replyTo: MessageId)
      requires Valid()
      modifies this`replyWaiters
      ensures Valid() && State() == Step(old(State()), lower, GiveUpE(replyTo))
    {
      replyWaiters := replyWaiters - {replyTo};
    }

    /** The client on which the connection ended is `current` unless it was replaced before. */
    method Disconnected(current: bool)
      requires Valid()
      modifies this`replyWaiters, this`hasClient
      ensures Valid() && State() == Step(old(State()), lower, DisconnectedE) && hasClient == (old(hasClient) && !current)
    {
      replyWaiters := map[];
      if current { hasClient := false; }
    }
  }
}
