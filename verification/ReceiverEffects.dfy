/** What an arrival, an injection, a reply and the end of a wait do at a receiving session, read
    off its tables. */
module ReceiverEffects {

  import opened Wrappers
  import opened Messages
  import opened InboundModel
  import RuntimeModel

  // ---------- The store ----------

  ghost predicate OthersStay(s: Inbound, id: MessageId, s': Inbound) {
    && (forall x :: x in s'.records && x != id <==> x in s.records && x != id)
    && (forall x :: x in s'.records && x != id ==> s'.records[x] == s.records[x])
  }

  /** The id is the last one delivered; the others keep their order, and only the newest
      thousand are kept. */
  ghost predicate IsLastDelivered(delivered: seq<MessageId>, id: MessageId, delivered': seq<MessageId>) {
    && 0 < |delivered'| <= 1000 && delivered'[|delivered'| - 1] == id
    && (forall x :: x in delivered' ==> x in delivered || x == id)
    && (|delivered| < 1000 ==> forall x :: x in delivered ==> x in delivered')
    && (id !in delivered ==> delivered' == if |delivered| < 1000 then delivered + [id] else delivered[|delivered| - 999..] + [id])
  }

  /** A message is stored, not yet handed over, if neither a record nor the list of delivered
      ids knows its id; a known one changes nothing. */
  lemma EnqueueDecides(s: Inbound, e: Entry)
    ensures var (s', answer) := Enqueue(s, e); var id := e.message.id;
            && (answer == AlreadyDelivered <==> id in s.delivered)
            && (answer == AlreadyInjected <==> id !in s.delivered && id in s.records && s.records[id].injected)
            && (answer == InboundModel.StillPending <==> id !in s.delivered && id in s.records && !s.records[id].injected)
            && (answer == New <==> id !in s.delivered && id !in s.records)
            && (answer != New ==> s' == s)
            && (answer == New ==> s'.delivered == s.delivered && OthersStay(s, id, s') && id in s'.records && s'.records[id] == Record(e, false))
  {}

  lemma {:induction false} RememberingExactly(delivered: seq<MessageId>, id: MessageId)
    ensures IsLastDelivered(delivered, id, Remember(delivered, id))
  {
    WithoutIsRest(delivered, id);
    WithoutIsShorter(delivered, id);
    var all := Without(delivered, id) + [id];
    assert forall x :: x in all <==> x in delivered || x == id;
    var cut := Last(all, MAX_DELIVERED_IDS);
    hide Without;
    assert cut[|cut| - 1] == id;
  }

  lemma {:induction false} WithoutIsShorter(ids: seq<MessageId>, id: MessageId)
    ensures |Without(ids, id)| <= |ids|
  {
    if ids != [] { WithoutIsShorter(ids[..|ids| - 1], id); }
  }

  /** Handing over an ask marks it and keeps it for the reply; anything else is done and counts as
      delivered from then on. Only the message that is handed over is touched. */
  lemma InjectionDecides(s: Inbound, id: MessageId)
    ensures var s' := MarkInjected(s, id);
            if id !in s.records then s' == s
            else if s.records[id].entry.message.expectsReply == Some(true) then
              s'.delivered == s.delivered && OthersStay(s, id, s') && id in s'.records && s'.records[id] == Record(s.records[id].entry, true)
            else IsLastDelivered(s.delivered, id, s'.delivered) && OthersStay(s, id, s') && id !in s'.records
  {
    RememberingExactly(s.delivered, id);
    hide IsLastDelivered, Remember;
  }

  /** A reply takes the ask out of the store, and its id counts as delivered. */
  lemma ReplyDecides(s: Inbound, id: MessageId)
    ensures var s' := MarkReplied(s, id); IsLastDelivered(s.delivered, id, s'.delivered) && OthersStay(s, id, s') && id !in s'.records
  {
    RememberingExactly(s.delivered, id);
    hide IsLastDelivered, Remember;
  }

  /** A file gives its records and the newest thousand of its delivered ids, no file an empty store. */
  lemma LoadDecides(file: Option<Inbound>)
    ensures file.None? ==> Loaded(file) == Inbound(map[], [])
    ensures file.Some? ==>
      var ids := file.value.delivered;
      Loaded(file) == Inbound(file.value.records, if |ids| <= 1000 then ids else ids[|ids| - 1000..])
  {}

  // ---------- Arrivals ----------

  /** Somebody waits for a reply under this id from the session that sends the message: the one it
      waits for is given by id, or by the name that is shown for the sender, in any case. */
  predicate IsWaitedFor(waiters: map<MessageId, string>, lower: string -> string, e: Entry) {
    var question := match e.message.replyTo case Some(id) => id case None => "";
    var shown := match e.from.name case Some(name) => (if name == "" then e.from.id else name) case None => e.from.id;
    question in waiters && (waiters[question] == e.from.id || lower(waiters[question]) == lower(shown))
  }

  /** An arrival wakes the call that waits for it, and then that call waits no longer and nothing
      else changes; otherwise a message that was not known is stored and, if it asks, has to be
      answered; and one that was known changes nothing. */
  lemma ArrivalDecides(r: RuntimeModel.Runtime, lower: string -> string, e: Entry)
    ensures var (r', arrival) := RuntimeModel.Arrive(r, lower, e);
            var id, asks := e.message.id, e.message.expectsReply == Some(true);
            var known := id in r.log.store.records || id in r.log.store.delivered;
            && (arrival == RuntimeModel.ToWaiter <==> IsWaitedFor(r.waiters, lower, e))
            && (arrival == RuntimeModel.Duplicate <==> !IsWaitedFor(r.waiters, lower, e) && known)
            && (arrival == RuntimeModel.Stored <==> !IsWaitedFor(r.waiters, lower, e) && !known)
            && (arrival == RuntimeModel.ToWaiter ==>
              && r'.waiters == r.waiters - {match e.message.replyTo case Some(question) => question case None => ""}
              && r'.log == r.log && r'.asks == r.asks)
            && (arrival == RuntimeModel.Duplicate ==> r' == r)
            && (arrival == RuntimeModel.Stored ==>
              && r'.waiters == r.waiters && r'.log.remembered == r.log.remembered
              && r'.log.store == Inbound(r.log.store.records[id := Record(e, false)], r.log.store.delivered)
              && r'.asks == if asks then r.asks[id := e] else r.asks)
  {
    assert r.log.remembered + [] == r.log.remembered;
  }

  /** A call waits for the session it asked; giving up ends this wait only; the end of the
      connection ends all waits; and no wait outlives the process, while the store does, and
      with it the asks that are to be answered. */
  lemma WaitsAreExact(r: RuntimeModel.Runtime, lower: string -> string, id: MessageId, of: string)
    requires RuntimeModel.Agrees(r)
    ensures RuntimeModel.Step(r, lower, RuntimeModel.AskE(id, of)) == r.(waiters := r.waiters[id := of])
    ensures RuntimeModel.Step(r, lower, RuntimeModel.GiveUpE(id)) == r.(waiters := r.waiters - {id})
    ensures RuntimeModel.Step(r, lower, RuntimeModel.DisconnectedE) == r.(waiters := map[])
    ensures RuntimeModel.Step(r, lower, RuntimeModel.RestartE) == r.(waiters := map[])
    ensures var r' := RuntimeModel.Step(r, lower, RuntimeModel.InjectedE(id));
            r'.waiters == r.waiters && r'.asks == r.asks && r'.log.store == MarkInjected(r.log.store, id)
    ensures var r' := RuntimeModel.Step(r, lower, RuntimeModel.RepliedE(id));
            r'.waiters == r.waiters && r'.asks == r.asks - {id} && r'.log.store == MarkReplied(r.log.store, id)
  {
    hide MarkInjected, MarkReplied, ByLastUse;
    assert r.log.remembered + [] == r.log.remembered;
  }
}
