/** The receiver's durable store as it runs (opencode/inbound-store.ts): every change is on
    disk before the operation returns. */
module InboundStore {

  import opened Wrappers
  import opened Messages
  import opened InboundModel

  class DurableInboundStore {
    var records: map<MessageId, Record>
    var delivered: seq<MessageId>
    var disk: Option<Inbound>    // the file; none before the first save
    ghost var remembered: seq<MessageId>

    ghost function State(): Inbound
      reads this
    {
      Inbound(records, delivered)
    }

    ghost function History(): Log
      reads this
    {
      Log(State(), remembered)
    }

    /** What is on disk, read back, is what is in memory. */
    ghost predicate Valid()
      reads this
    {
      |delivered| <= MAX_DELIVERED_IDS && Loaded(disk) == State()
    }

    /** Opens the store, whatever the file holds; `written` is what the stores that wrote it have
        remembered. */
    constructor (file: Option<Inbound>, ghost written: seq<MessageId>)
      ensures Valid() && disk == file && History() == Log(Loaded(file), written)
      ensures (if file.Some? then Kept(Log(file.value, written)) else written == []) ==> Kept(History())
    {
      var loaded := Loaded(file);
      records, delivered, disk, remembered := loaded.records, loaded.delivered, file, written;
    }

    method Save()
      modifies this`disk
      ensures disk == Some(State())
    {
      disk := Some(Inbound(records, delivered));
    }

    method RememberDelivered(messageId: MessageId)
      modifies this`delivered, this`remembered
      ensures delivered == Remember(old(delivered), messageId) && remembered == old(remembered) + [messageId]
      ensures |delivered| <= MAX_DELIVERED_IDS
    {
      delivered := Last(Without(delivered, messageId) + [messageId], MAX_DELIVERED_IDS);
      remembered := remembered + [messageId];
    }

    method Enqueue(entry: Entry) returns (disposition: Disposition)
      requires Valid()
      modifies this
      ensures Valid() && History() == Next(old(History()), EnqueueOp(entry))
      ensures disposition == InboundModel.Enqueue(old(State()), entry).1
    {
      assert remembered + [] == remembered;
      var messageId := entry.message.id;
      if messageId in delivered { return AlreadyDelivered; }
      if messageId in records { return if records[messageId].injected then AlreadyInjected else StillPending; }
      records := records[messageId := Record(entry, false)];
      Save();
      return New;
    }

    method MarkInjected(messageId: MessageId)
      requires Valid()
      modifies this
      ensures Valid() && History() == Next(old(History()), InjectOp(messageId))
    {
      hide Remember;
      assert remembered + [] == remembered;
      if messageId !in records { return; }
      var record := records[messageId];
      if record.entry.message.IsAsk() {
        records := records[messageId := record.(injected := true)];
      } else {
        records := records - {messageId};
        RememberDelivered(messageId);
      }
      Save();
    }

    method MarkReplied(messageId: MessageId)
      requires Valid()
      modifies this
      ensures Valid() && History() == Next(old(History()), ReplyOp(messageId))
    {
      hide Remember;
      records := records - {messageId};
      RememberDelivered(messageId);
      Save();
    }

    /** The stored asks, each once; `ids` says under which id each is stored. */
    method ListUnresolvedAsks() returns (asks: seq<Entry>, ghost ids: seq<MessageId>)
      ensures |asks| == |ids| && InboundModel.Distinct(ids)
      ensures forall id :: id in ids <==> id in UnresolvedAsks(State())
      ensures |asks| == |UnresolvedAsks(State())| && forall e :: e in asks ==> e.message.IsAsk()
      ensures forall i :: 0 <= i < |ids| ==> ids[i] in records && asks[i] == records[ids[i]].entry
    {
      asks, ids := [], [];
      var rest := records.Keys;
      while rest != {}
        invariant rest <= records.Keys && |asks| == |ids| && InboundModel.Distinct(ids)
        invariant forall id :: id in ids <==> id in UnresolvedAsks(State()) && id !in rest
        invariant forall i :: 0 <= i < |ids| ==> ids[i] in records && asks[i] == records[ids[i]].entry && asks[i].message.IsAsk()
        decreases rest
      {
        var id :| id in rest;
        rest := rest - {id};
        if records[id].entry.message.IsAsk() {
          asks, ids := asks + [records[id].entry], ids + [id];
        }
      }
      DistinctCount(ids);
      assert Ids(ids) == UnresolvedAsks(State());
    }
  }
}
