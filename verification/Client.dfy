/** A sending session as it runs (outbound-outbox.ts, broker/client.ts). */
module IntercomClients {

  import opened Wrappers
  import opened Messages
  import opened ClientModel

  class PersistentOutboundOutbox {
    var entries: seq<Queued>
    var disk: Option<seq<Queued>>    // the file; none before the first change

    ghost predicate Valid()
      reads this
    {
      disk.GetOr([]) == entries
    }

    /** Opens the outbox that a file holds; `None` is a file that is absent or not an outbox. */
    constructor (file: Option<seq<Queued>>)
      ensures Valid() && entries == file.GetOr([]) && disk == file
    {
      entries, disk := file.GetOr([]), file;
    }

    method Persist()
      modifies this`disk
      ensures disk == Some(entries)
    {
      disk := Some(entries);
    }

    method Enqueue(to: string, message: Message, now: int) returns (r: EnqueueResult)
      requires Valid()
      modifies this
      ensures Valid() && (entries, r) == ClientModel.Enqueue(old(entries), to, message, now)
      ensures !r.Added? ==> entries == old(entries)
      ensures disk == if entries == old(entries) then old(disk) else Some(entries)
    {
      var known := Find(entries, message.id);
      if known.Some? {
        return if FingerprintOf(known.value.to, known.value.message) != FingerprintOf(to, message) then Conflict else Existing;
      }
      if |entries| >= MAX_OUTBOX_MESSAGES { return Full; }
      entries := entries + [Queued(to, message, now)];
      Persist();
      return Added;
    }

    method Remove(messageId: MessageId)
      requires Valid()
      modifies this
      ensures Valid() && entries == ClientModel.Remove(old(entries), messageId)
      ensures disk == if entries == old(entries) then old(disk) else Some(entries)
    {
      RemoveIsExact(entries, messageId);
      var remaining := ClientModel.Remove(entries, messageId);
      if |remaining| == |entries| { return; }
      entries := remaining;
      Persist();
    }

    method Clear()
      requires Valid()
      modifies this
      ensures Valid() && entries == []
      ensures disk == if entries == old(entries) then old(disk) else Some(entries)
    {
      if |entries| == 0 { return; }
      entries := [];
      Persist();
    }
  }

  class IntercomClient {
    var connected: bool
    var disconnecting: bool
    var sessionId: Option<SessionId>
    var pendingSends: map<MessageId, PendingSend>
    var outbox: PersistentOutboundOutbox?
    var outboxOf: Option<SessionId>               // whose outbox is open
    var shelved: map<SessionId, seq<Queued>>      // the files of the other sessions

    /** The queues on disk, that of the open outbox included. */
    function Files(): map<SessionId, seq<Queued>>
      reads this, outbox
    {
      if outbox != null && outboxOf.Some? && outbox.disk.Some? then shelved[outboxOf.value := outbox.disk.value] else shelved
    }

    ghost function State(): Client
      reads this, outbox
    {
      Client(connected, disconnecting, sessionId, pendingSends, outboxOf, Files())
    }

    ghost predicate Valid()
      reads this, outbox
    {
      && (outbox != null <==> outboxOf.Some?)
      && (outbox != null ==> outbox.Valid() && (outboxOf.value in shelved ==> outbox.disk.Some?))
      && Disciplined(State())
    }

    /** A new process with the queues that earlier ones left on disk. */
    constructor (files: map<SessionId, seq<Queued>>)
      requires forall id :: id in files ==> IsOutbox(files[id])
      ensures Valid() && State() == Fresh(files)
    {
      connected, disconnecting, sessionId, pendingSends := false, false, None, map[];
      outbox, outboxOf, shelved := null, None, files;
    }

    lemma OpenOutbox()
      requires Valid()
      ensures outbox != null ==> outbox.entries == Outbox(State())
      ensures outbox == null ==> Outbox(State()) == []
    {}

    lemma ActiveHasOutbox()
      requires Valid()
      ensures sessionId.Some? ==> outbox != null
    {}

    method Connect()
      requires Valid()
      modifies this
      ensures Valid() && State() == Step(old(State()), ConnectE)
    {
      if connected { return; }
      connected := true;
    }

    method ConnectionFailed()
      requires Valid()
      modifies this
      ensures Valid() && State() == ConnectFailed(old(State()))
    {
      if sessionId.Some? { return; }
      connected := false;
    }

    /** The `registered` message; writing starts to fail after `count` messages. */
    method Registered(id: SessionId, count: nat) returns (written: seq<Queued>)
      requires Valid()
      modifies this
      ensures Valid() && (State(), written) == ClientModel.Registered(old(State()), id, count)
    {
      if !connected || sessionId.Some? { return []; }
      sessionId := Some(id);
      shelved := Files();
      outbox := new PersistentOutboundOutbox(if id in shelved then Some(shelved[id]) else None);
      outboxOf := Some(id);
      assert id in shelved ==> shelved[id := shelved[id]] == shelved;
      assert shelved == old(Files());
      written := ReplayOutbox(count);
    }

    method ReplayOutbox(count: nat) returns (written: seq<Queued>)
      requires outbox != null
      ensures written == Replayed(State(), outbox.entries, count)
    {
      written := [];
      var left := count;
      for i := 0 to |outbox.entries|
        invariant Replayed(State(), outbox.entries, count) == written + Replayed(State(), outbox.entries[i..], left)
      {
        var entry := outbox.entries[i];
        assert outbox.entries[i..][1..] == outbox.entries[i + 1..];
        if entry.message.id in pendingSends { continue; }
        if left == 0 { return; }
        written := written + [entry];
        left := left - 1;
      }
    }

    method Send(to: string, message: Message, now: int, writable: bool, writes: bool) returns (outcome: SendOutcome)
      requires Valid()
      modifies this, outbox
      ensures Valid() && (State(), outcome) == ClientModel.Send(old(State()), to, message, now, writable, writes)
    {
      hide IsOutbox, IdsOf, ClientModel.Enqueue, Disciplined;
      OpenOutbox();
      ActiveHasOutbox();
      SendKeeps(State(), to, message, now, writable, writes);
      if disconnecting || !connected || sessionId.None? || !writable { return NotActive; }
      if message.id in pendingSends { return AlreadyPending; }
      var queued := outbox.Enqueue(to, message, now);
      if queued.Conflict? { return PayloadConflict; }
      if queued.Full? { return OutboxFull; }
      assert Files() == WithOutbox(old(State()), outbox.entries).files;
      pendingSends := pendingSends[message.id := PendingSend(false, None)];
      if !writes {
        pendingSends := pendingSends - {message.id};
        assert pendingSends == old(pendingSends);
        assert Files() == WithOutbox(old(State()), outbox.entries).files;
        return WriteFailed;
      }
      return Written;
    }

    /** The `delivered` and the `delivery_failed` message. */
    method Answered(messageId: MessageId)
      requires Valid()
      modifies this, outbox
      ensures Valid() && State() == ClientModel.Answered(old(State()), messageId)
    {
      hide IsOutbox, IdsOf, ClientModel.Remove, Disciplined;
      OpenOutbox();
      ActiveHasOutbox();
      AnsweredKeeps(State(), messageId);
      if sessionId.None? { return; }
      outbox.Remove(messageId);
      assert Files() == WithOutbox(old(State()), outbox.entries).files;
      pendingSends := pendingSends - {messageId};
    }

    method DeliveryAccepted(messageId: MessageId, deliveryId: DeliveryId)
      requires Valid()
      modifies this
      ensures Valid() && State() == MarkAccepted(old(State()), messageId, deliveryId)
    {
      if sessionId.None? || messageId !in pendingSends { return; }
      pendingSends := pendingSends[messageId := PendingSend(true, Some(deliveryId))];
    }

    method SendTimedOut(messageId: MessageId)
      requires Valid()
      modifies this
      ensures Valid() && State() == Step(old(State()), SendTimeoutE(messageId))
    {
      pendingSends := pendingSends - {messageId};
    }

    method SocketClosed()
      requires Valid()
      modifies this
      ensures Valid() && State() == Closed(old(State()))
    {
      pendingSends := map[];
      connected, disconnecting, sessionId := false, false, None;
    }

    method Disconnect(preserveAsks: bool)
      requires Valid()
      modifies this, outbox
      ensures Valid() && State() == ClientModel.Disconnect(old(State()), preserveAsks)
    {
      OpenOutbox();
      if !connected { return; }
      disconnecting := true;
      pendingSends := map[];
      if !preserveAsks && outbox != null {
        outbox.Clear();
        assert Files() == WithOutbox(old(State()), []).files;
      }
    }
  }
}
