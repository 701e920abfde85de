/** In a run of the world each part follows a run of its own, so that what was proved of a part
    alone holds of it there. */
module OwnRuns {

  import opened Wrappers
  import opened Messages
  import BrokerModel
  import BrokerSteps
  import BrokerRuns
  import InboundModel
  import RuntimeModel
  import ClientModel
  import opened EndToEnd

  // ---------- The broker ----------

  /** What the broker does in a run of the world is a run of the broker. */
  lemma {:induction false} BrokerFollowsItsOwnRun(at: Setting, events: seq<Timed>) returns (own: seq<BrokerRuns.Timed>)
    requires IsRun(at, events)
    ensures BrokerRuns.IsRun(at.host, own) && BrokerRuns.Run(at.host, own) == Run(at, events).system
    decreases |events|
  {
    own := [];
    if events == [] {
      EmptyBrokerRun(at.host);
    } else {
      var before, last := events[..|events| - 1], events[|events| - 1];
      own := BrokerFollowsItsOwnRun(at, before);
      SystemOneMore(Run(at, before), at, last.event, last.now);
      hide Next, Allowed, BrokerRuns.Run, BrokerRuns.IsRun, BrokerRuns.Next, BrokerSteps.Allowed;
      if last.event.BrokerE? {
        ExtendedBrokerRun(at.host, own, last.event.event, last.now);
        own := own + [BrokerRuns.Timed(last.event.event, last.now)];
      }
    }
  }

  lemma EmptyBrokerRun(host: BrokerModel.Host)
    ensures BrokerRuns.IsRun(host, []) && BrokerRuns.Run(host, []) == BrokerRuns.START
  {
    hide BrokerRuns.Next;
  }

  lemma SystemOneMore(w: World, at: Setting, e: Event, now: int)
    requires Allowed(w, at, e, now)
    ensures Next(w, at, e, now).system == if e.BrokerE? then BrokerRuns.Next(w.system, at.host, e.event, now) else w.system
    ensures e.BrokerE? ==> BrokerSteps.Allowed(w.system, e.event, now)
  {
    hide BrokerSteps.Allowed, BrokerRuns.Next, RuntimeModel.Arrive, RuntimeModel.Step, ClientModel.Step, ReportsOf, Forwarded, WrittenBy;
  }

  lemma ExtendedBrokerRun(host: BrokerModel.Host, events: seq<BrokerRuns.Timed>, e: BrokerSteps.Event, now: int)
    requires BrokerRuns.IsRun(host, events) && BrokerSteps.Allowed(BrokerRuns.Run(host, events), e, now)
    ensures var more := events + [BrokerRuns.Timed(e, now)];
            BrokerRuns.IsRun(host, more) && BrokerRuns.Run(host, more) == BrokerRuns.Next(BrokerRuns.Run(host, events), host, e, now)
  {
    hide BrokerSteps.Allowed, BrokerRuns.Next;
    var more := events + [BrokerRuns.Timed(e, now)];
    assert more[..|events|] == events;
    forall i | 0 <= i < |more| ensures BrokerSteps.Allowed(BrokerRuns.Run(host, more[..i]), more[i].event, more[i].now) {
      assert more[..i] == events[..i];
      if i == |events| { assert events[..i] == events; }
    }
  }

  // ---------- The receivers ----------

  /** What a step does at one receiver, if anything. */
  ghost function ReceiverEvent(w: World, at: Setting, e: Event, now: int, home: Home): seq<RuntimeModel.Event>
    requires Allowed(w, at, e, now)
  {
    match e
    case ArriveE(socket, _, _) => if at.home(socket) == home then [RuntimeModel.ArriveE(ArrivedEntry(w, e, now))] else []
    case ReceiverE(h, change) => if h == home then [change] else []
    case _ => []
  }

  /** The part of a run that happens at one receiver. */
  ghost function AtReceiver(at: Setting, events: seq<Timed>, home: Home): seq<RuntimeModel.Event>
    requires IsRun(at, events)
    decreases |events|
  {
    if events == [] then []
    else
      var before, last := events[..|events| - 1], events[|events| - 1];
      AtReceiver(at, before, home) + ReceiverEvent(Run(at, before), at, last.event, last.now, home)
  }

  /** What a receiver does in a run of the world is a run of that receiver. */
  lemma {:induction false} ReceiverFollowsItsOwnRun(at: Setting, events: seq<Timed>, home: Home)
    requires IsRun(at, events)
    ensures RuntimeModel.Run(at.host.lower, AtReceiver(at, events, home)) == Receiver(Run(at, events), home)
    decreases |events|
  {
    hide Next, Allowed, RuntimeModel.Step;
    if events != [] {
      var before, last := events[..|events| - 1], events[|events| - 1];
      var own, more := AtReceiver(at, before, home), ReceiverEvent(Run(at, before), at, last.event, last.now, home);
      ReceiverFollowsItsOwnRun(at, before, home);
      ReceiverOneMore(Run(at, before), at, last.event, last.now, home);
      hide Run, IsRun, ReceiverEvent;
      if more == [] { assert own + more == own; } else { assert (own + more)[..|own|] == own; }
    }
  }

  lemma ReceiverOneMore(w: World, at: Setting, e: Event, now: int, home: Home)
    requires Allowed(w, at, e, now)
    ensures var more, r := ReceiverEvent(w, at, e, now, home), Receiver(Next(w, at, e, now), home);
            |more| <= 1 && r == if more == [] then Receiver(w, home) else RuntimeModel.Step(Receiver(w, home), at.host.lower, more[0])
  {
    hide BrokerSteps.Allowed, BrokerRuns.Next, RuntimeModel.Arrive, ReportsOf, Forwarded, WrittenBy, ClientModel.Step, ClientModel.Answered;
    if e.ArriveE? { ArrivalIsAStep(Receiver(w, home), at.host.lower, ArrivedEntry(w, e, now)); }
    hide RuntimeModel.Step;
  }

  lemma {:induction false} ReceiverPartsGrow(at: Setting, events: seq<Timed>, n: nat, home: Home)
    requires IsRun(at, events) && n <= |events|
    ensures IsRun(at, events[..n]) && AtReceiver(at, events[..n], home) <= AtReceiver(at, events, home)
    decreases |events|
  {
    hide Allowed, Next, ArrivedEntry;
    PrefixIsRun(at, events, n);
    if n < |events| {
      var before := events[..|events| - 1];
      ReceiverPartsGrow(at, before, n, home);
      assert before[..n] == events[..n];
      assert AtReceiver(at, before, home) <= AtReceiver(at, events, home);
    } else {
      assert events[..n] == events;
    }
  }

  /** In step `i` of the run the session at `home` is handed a message with this id as a new one. */
  ghost predicate HandsOver(at: Setting, events: seq<Timed>, i: nat, home: Home, id: MessageId)
    requires IsRun(at, events) && i < |events| && IsRun(at, events[..i])
  {
    var w, e, now := Run(at, events[..i]), events[i].event, events[i].now;
    && e.ArriveE? && at.home(e.socket) == home && Allowed(w, at, e, now)
    && ArrivedEntry(w, e, now).message.id == id
    && RuntimeModel.Arrive(Receiver(w, home), at.host.lower, ArrivedEntry(w, e, now)).1.Stored?
  }

  /** A hand-over of the world is one of the receiver's own run. */
  lemma HandsOverInOwnRun(at: Setting, events: seq<Timed>, i: nat, home: Home, id: MessageId) returns (k: nat)
    requires IsRun(at, events) && i < |events| && IsRun(at, events[..i]) && HandsOver(at, events, i, home, id)
    ensures var own := AtReceiver(at, events, home);
            && k == |AtReceiver(at, events[..i], home)| < |own| && own[..k] == AtReceiver(at, events[..i], home)
            && RuntimeModel.HandsOver(at.host.lower, own, k, id)
  {
    var part, own := AtReceiver(at, events[..i], home), AtReceiver(at, events, home);
    k := |part|;
    ReceiverPartsGrow(at, events, i, home);
    ReceiverPartsGrow(at, events, i + 1, home);
    assert events[..i + 1][..i] == events[..i];
    var entry := RuntimeModel.ArriveE(ArrivedEntry(Run(at, events[..i]), events[i].event, events[i].now));
    assert AtReceiver(at, events[..i + 1], home) == part + [entry];
    ReceiverFollowsItsOwnRun(at, events[..i], home);
    hide Run, IsRun, Allowed, RuntimeModel.Run, RuntimeModel.Arrive, AtReceiver;
    assert own[..k] == part && own[k] == entry;
  }

  /** In a run of the world a session is handed the same message again only if at least a
      thousand other messages have been remembered there since it was. */
  lemma HandedOverAgainAfterAThousandOthers(at: Setting, events: seq<Timed>, i: nat, j: nat, home: Home, id: MessageId) returns (m: nat)
    requires IsRun(at, events) && i < j < |events| && IsRun(at, events[..i]) && IsRun(at, events[..j])
    requires HandsOver(at, events, i, home, id) && HandsOver(at, events, j, home, id)
    ensures var h := Receiver(Run(at, events[..j]), home).log.remembered;
            && |Receiver(Run(at, events[..i]), home).log.remembered| <= m < |h| && h[m] == id
            && id !in h[m + 1..] && |InboundModel.Ids(h[m + 1..])| >= InboundModel.MAX_DELIVERED_IDS
  {
    var first := HandsOverInOwnRun(at, events, i, home, id);
    var second := HandsOverInOwnRun(at, events, j, home, id);
    ReceiverFollowsItsOwnRun(at, events[..i], home);
    ReceiverFollowsItsOwnRun(at, events[..j], home);
    OneArrivalMore(at, events, i, j, home, id);
    hide Run, IsRun, HandsOver, AtReceiver, RuntimeModel.Run, RuntimeModel.HandsOver;
    m := RuntimeModel.HandedOverAgainAfterAThousandOthers(at.host.lower, AtReceiver(at, events, home), first, second, id);
  }

  lemma OneArrivalMore(at: Setting, events: seq<Timed>, i: nat, j: nat, home: Home, id: MessageId)
    requires IsRun(at, events) && i < j < |events| && IsRun(at, events[..i]) && IsRun(at, events[..j]) && HandsOver(at, events, i, home, id)
    ensures |AtReceiver(at, events[..i], home)| < |AtReceiver(at, events[..j], home)|
  {
    assert events[..j][..i] == events[..i] && events[..j][i] == events[i];
    assert HandsOver(at, events[..j], i, home, id);
    var _ := HandsOverInOwnRun(at, events[..j], i, home, id);
  }
}
