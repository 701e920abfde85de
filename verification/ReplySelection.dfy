/** Which pending ask a reply goes to (opencode/runtime.ts), and what the list of pending asks
    promises about it. */
module ReplySelection {

  import opened Wrappers
  import opened Messages
  import opened InboundModel

  datatype Which = Oldest | Latest

  datatype SelectionError = NothingPending | NoAskFrom | ManySenders | ManyAsks

  datatype Selector = OnlyOne | OldestOf | LatestOf | Queued

  // ---------- Sorting and filtering ----------

  /** Behind everything that did not arrive later. */
  function Insert(s: seq<Entry>, e: Entry): seq<Entry> {
    if s == [] || s[|s| - 1].receivedAt <= e.receivedAt then s + [e]
    else Insert(s[..|s| - 1], e) + [s[|s| - 1]]
  }

  function ByArrival(entries: seq<Entry>): seq<Entry> {
    if entries == [] then [] else Insert(ByArrival(entries[..|entries| - 1]), entries[|entries| - 1])
  }

  function Filter(fits: Entry -> bool, s: seq<Entry>): seq<Entry> {
    if s == [] then []
    else Filter(fits, s[..|s| - 1]) + if fits(s[|s| - 1]) then [s[|s| - 1]] else []
  }

  predicate MatchesSender(lower: string -> string, e: Entry, to: string) {
    || e.from.id == to
    || (e.from.name.Some? && lower(e.from.name.value) == lower(to))
    || to <= e.from.id
  }

  /** An empty recipient counts as none. */
  predicate Fits(lower: string -> string, e: Entry, to: Option<string>) {
    to.None? || to.value == "" || MatchesSender(lower, e, to.value)
  }

  predicate SameSender(s: seq<Entry>) {
    forall e, f :: e in s && f in s ==> e.from.id == f.from.id
  }

  function Matching(lower: string -> string, s: seq<Entry>, to: Option<string>): seq<Entry> {
    Filter(e => Fits(lower, e, to), s)
  }

  function Select(lower: string -> string, entries: seq<Entry>, to: Option<string>, which: Option<Which>): Result<Entry, SelectionError> {
    var matches := Matching(lower, ByArrival(entries), to);
    if ByArrival(entries) == [] then Err(NothingPending)
    else if matches == [] then Err(NoAskFrom)
    else if |matches| == 1 then Ok(matches[0])
    else if (to.None? || to.value == "") && !SameSender(matches) then Err(ManySenders)
    else match which
      case None => Err(ManyAsks)
      case Some(Oldest) => Ok(matches[0])
      case Some(Latest) => Ok(matches[|matches| - 1])
  }

  // ---------- What sorting and filtering promise ----------

  ghost predicate Ordered(s: seq<Entry>) {
    forall i, j :: 0 <= i < j < |s| ==> s[i].receivedAt <= s[j].receivedAt
  }

  lemma {:induction false} InsertAddsOne(s: seq<Entry>, e: Entry)
    ensures multiset(Insert(s, e)) == multiset(s) + multiset{e}
    ensures forall x :: x in Insert(s, e) <==> x in s || x == e
  {
    if s != [] && s[|s| - 1].receivedAt > e.receivedAt {
      assert s == s[..|s| - 1] + [s[|s| - 1]];
      InsertAddsOne(s[..|s| - 1], e);
    }
  }

  lemma {:induction false} InsertKeepsOrder(s: seq<Entry>, e: Entry)
    requires Ordered(s)
    ensures Ordered(Insert(s, e))
  {
    if s != [] && s[|s| - 1].receivedAt > e.receivedAt {
      var init := s[..|s| - 1];
      InsertKeepsOrder(init, e);
      InsertAddsOne(init, e);
      forall x | x in Insert(init, e) ensures x.receivedAt <= s[|s| - 1].receivedAt {
        assert x in init || x == e;
      }
    }
  }

  lemma {:induction false} ByArrivalIsOrdered(entries: seq<Entry>)
    ensures Ordered(ByArrival(entries)) && multiset(ByArrival(entries)) == multiset(entries)
  {
    if entries != [] {
      var init := entries[..|entries| - 1];
      assert entries == init + [entries[|entries| - 1]];
      ByArrivalIsOrdered(init);
      hide Insert, Ordered;
      InsertKeepsOrder(ByArrival(init), entries[|entries| - 1]);
      InsertAddsOne(ByArrival(init), entries[|entries| - 1]);
    }
  }

  lemma {:induction false} FilterMembers(fits: Entry -> bool, s: seq<Entry>)
    ensures forall e :: e in Filter(fits, s) <==> e in s && fits(e)
  {
    if s != [] {
      assert s == s[..|s| - 1] + [s[|s| - 1]];
      FilterMembers(fits, s[..|s| - 1]);
    }
  }

  lemma {:induction false} FilterCounts(fits: Entry -> bool, s: seq<Entry>, e: Entry)
    ensures multiset(Filter(fits, s))[e] == if fits(e) then multiset(s)[e] else 0
  {
    if s != [] {
      assert s == s[..|s| - 1] + [s[|s| - 1]];
      FilterCounts(fits, s[..|s| - 1], e);
    }
  }

  lemma {:induction false} FilterKeepsOrder(fits: Entry -> bool, s: seq<Entry>)
    requires Ordered(s)
    ensures Ordered(Filter(fits, s))
  {
    if s != [] {
      var init := s[..|s| - 1];
      FilterKeepsOrder(fits, init);
      FilterMembers(fits, init);
      forall x | x in Filter(fits, init) ensures x.receivedAt <= s[|s| - 1].receivedAt {
        assert x in init;
      }
    }
  }

  /** What fits, and how much of it, does not depend on the order. */
  lemma SameCount(fits: Entry -> bool, s: seq<Entry>, t: seq<Entry>)
    requires multiset(s) == multiset(t)
    ensures |Filter(fits, s)| == |Filter(fits, t)|
    ensures forall e :: e in Filter(fits, s) <==> e in Filter(fits, t)
  {
    forall e ensures multiset(Filter(fits, s))[e] == multiset(Filter(fits, t))[e] {
      FilterCounts(fits, s, e);
      FilterCounts(fits, t, e);
    }
    hide Filter;
    SameSize(Filter(fits, s), Filter(fits, t));
  }

  lemma SameSize(s: seq<Entry>, t: seq<Entry>)
    requires forall e :: multiset(s)[e] == multiset(t)[e]
    ensures |s| == |t|
    ensures forall e :: e in s <==> e in t
  {
    assert multiset(s) == multiset(t);
    assert |s| == |multiset(s)| && |t| == |multiset(t)|;
    forall e ensures e in s <==> e in t {
      assert e in s <==> e in multiset(s);
    }
  }

  ghost predicate Earliest(e: Entry, s: seq<Entry>) {
    e in s && forall f :: f in s ==> e.receivedAt <= f.receivedAt
  }

  ghost predicate Newest(e: Entry, s: seq<Entry>) {
    e in s && forall f :: f in s ==> f.receivedAt <= e.receivedAt
  }

  /** When a reply is refused and why, and which ask it answers otherwise. */
  lemma SelectionIsRight(lower: string -> string, entries: seq<Entry>, to: Option<string>, which: Option<Which>)
    ensures var fitting := Matching(lower, entries, to);
            var open := to.None? || to.value == "";
            match Select(lower, entries, to, which)
            case Err(NothingPending) => entries == []
            case Err(NoAskFrom) => entries != [] && fitting == []
            case Err(ManySenders) => open && !SameSender(fitting)
            case Err(ManyAsks) => which.None? && |fitting| > 1 && (open ==> SameSender(fitting))
            case Ok(e) =>
              && fitting != [] && (open && |fitting| > 1 ==> SameSender(fitting))
              && (if |fitting| == 1 then fitting == [e]
                  else which.Some? && if which.value.Oldest? then Earliest(e, fitting) else Newest(e, fitting))
  {
    MatchingByArrival(lower, entries, to);
    hide Matching, ByArrival, Ordered, Earliest, Newest, SameSender;
    EndsAreExtremes(Matching(lower, ByArrival(entries), to), Matching(lower, entries, to));
  }

  lemma MatchingByArrival(lower: string -> string, entries: seq<Entry>, to: Option<string>)
    ensures var matches, fitting := Matching(lower, ByArrival(entries), to), Matching(lower, entries, to);
            && Ordered(matches) && |matches| == |fitting| && (forall e :: e in matches <==> e in fitting)
            && |ByArrival(entries)| == |entries|
  {
    var sorted := ByArrival(entries);
    ByArrivalIsOrdered(entries);
    FilterKeepsOrder(e => Fits(lower, e, to), sorted);
    SameCount(e => Fits(lower, e, to), sorted, entries);
    SameSize(sorted, entries);
    hide Fits, Filter, ByArrival, Ordered;
  }

  lemma EndsAreExtremes(matches: seq<Entry>, fitting: seq<Entry>)
    requires Ordered(matches) && |matches| == |fitting| && forall e :: e in matches <==> e in fitting
    ensures SameSender(matches) == SameSender(fitting)
    ensures |matches| == 1 ==> fitting == [matches[0]]
    ensures matches != [] ==> Earliest(matches[0], fitting) && Newest(matches[|matches| - 1], fitting)
  {
    if matches != [] {
      assert matches[0] in matches && matches[|matches| - 1] in matches;
      assert fitting[0] in fitting;
      forall f | f in fitting ensures matches[0].receivedAt <= f.receivedAt <= matches[|matches| - 1].receivedAt {
        assert f in matches;
      }
    }
  }

  // ---------- The list of pending asks ----------

  function IndexOfId(s: seq<Entry>, id: MessageId): nat {
    if s == [] || s[0].message.id == id then 0 else 1 + IndexOfId(s[1..], id)
  }

  function FromSender(s: seq<Entry>, id: string): seq<Entry> {
    Filter((e: Entry) => e.from.id == id, s)
  }

  /** The word shown next to an ask in the list of pending asks, `listed`. */
  function SelectorFor(listed: seq<Entry>, entry: Entry): Selector {
    var same := FromSender(listed, entry.from.id);
    if |same| <= 1 then OnlyOne
    else
      var index := IndexOfId(same, entry.message.id);
      if index == 0 then OldestOf else if index == |same| - 1 then LatestOf else Queued
  }

  lemma {:induction false} IndexFinds(s: seq<Entry>, k: nat)
    requires k < |s| && forall i, j :: 0 <= i < j < |s| ==> s[i].message.id != s[j].message.id
    ensures IndexOfId(s, s[k].message.id) == k
  {
    if k > 0 { IndexFinds(s[1..], k - 1); }
  }

  lemma {:induction false} SameFilter(p: Entry -> bool, q: Entry -> bool, s: seq<Entry>)
    requires forall e :: e in s ==> p(e) == q(e)
    ensures Filter(p, s) == Filter(q, s)
  {
    if s != [] {
      assert s == s[..|s| - 1] + [s[|s| - 1]];
      SameFilter(p, q, s[..|s| - 1]);
    }
  }

  ghost predicate DistinctIds(s: seq<Entry>) {
    forall i, j :: 0 <= i < j < |s| ==> s[i].message.id != s[j].message.id
  }

  lemma {:induction false} FilterKeepsDistinct(fits: Entry -> bool, s: seq<Entry>)
    requires DistinctIds(s)
    ensures DistinctIds(Filter(fits, s))
  {
    if s != [] {
      var init := s[..|s| - 1];
      FilterKeepsDistinct(fits, init);
      FilterMembers(fits, init);
      forall x | x in Filter(fits, init) ensures x.message.id != s[|s| - 1].message.id {
        assert x in init;
      }
    }
  }

  lemma PickedFrom(matches: seq<Entry>, entry: Entry)
    requires entry in matches && DistinctIds(matches)
    ensures var k := IndexOfId(matches, entry.message.id); k < |matches| && matches[k] == entry
    ensures forall i :: 0 <= i < |matches| && matches[i] == entry ==> i == IndexOfId(matches, entry.message.id)
  {
    forall k | 0 <= k < |matches| && matches[k] == entry ensures k == IndexOfId(matches, entry.message.id) {
      IndexFinds(matches, k);
    }
  }

  lemma FromSenderKeepsDistinct(s: seq<Entry>, id: string)
    requires DistinctIds(s)
    ensures DistinctIds(FromSender(s, id))
  {
    FilterKeepsDistinct((e: Entry) => e.from.id == id, s);
  }

  lemma NamingTheSender(lower: string -> string, entries: seq<Entry>, entry: Entry, which: Option<Which>)
    requires entry in entries && entry.from.id != ""
    requires forall e :: e in entries && MatchesSender(lower, e, entry.from.id) ==> e.from.id == entry.from.id
    ensures var matches := FromSender(ByArrival(entries), entry.from.id);
            && entry in matches
            && Select(lower, entries, Some(entry.from.id), which) ==
               if |matches| == 1 then Ok(matches[0]) else if which.None? then Err(ManyAsks)
               else if which.value.Oldest? then Ok(matches[0]) else Ok(matches[|matches| - 1])
  {
    var sorted := ByArrival(entries);
    ByArrivalIsOrdered(entries);
    SameSize(sorted, entries);
    var same := (e: Entry) => e.from.id == entry.from.id;
    SameFilter(e => Fits(lower, e, Some(entry.from.id)), same, sorted);
    FilterMembers(same, sorted);
    hide Fits, Filter, ByArrival, Ordered;
  }

  /** A reply that names the sender and repeats the word shown next to an ask answers that very
      ask, unless the sender's id also matches somebody else. */
  lemma ShownSelectorPicks(lower: string -> string, entries: seq<Entry>, entry: Entry)
    requires entry in entries && DistinctIds(ByArrival(entries)) && entry.from.id != ""
    requires forall e :: e in entries && MatchesSender(lower, e, entry.from.id) ==> e.from.id == entry.from.id
    ensures var sender := Some(entry.from.id);
            match SelectorFor(ByArrival(entries), entry)
            case OnlyOne => Select(lower, entries, sender, None) == Ok(entry)
            case OldestOf => Select(lower, entries, sender, Some(Oldest)) == Ok(entry)
            case LatestOf => Select(lower, entries, sender, Some(Latest)) == Ok(entry)
            case Queued => Select(lower, entries, sender, Some(Oldest)) != Ok(entry) && Select(lower, entries, sender, Some(Latest)) != Ok(entry)
  {
    hide Select, FromSender, ByArrival, DistinctIds, MatchesSender;
    NamingTheSender(lower, entries, entry, None);
    NamingTheSender(lower, entries, entry, Some(Oldest));
    NamingTheSender(lower, entries, entry, Some(Latest));
    FromSenderKeepsDistinct(ByArrival(entries), entry.from.id);
    PickedFrom(FromSender(ByArrival(entries), entry.from.id), entry);
  }

  // ---------- The selection, ask by ask ----------

  /** The ask came from the session that `to` names: by its id, its name in any case, or how its
      id starts; without a recipient every ask is meant. */
  predicate IsMeant(lower: string -> string, e: Entry, to: Option<string>) {
    match to
    case None => true
    case Some(wanted) =>
      wanted == "" || e.from.id == wanted || wanted <= e.from.id || match e.from.name case Some(name) => lower(name) == lower(wanted) case None => false
  }

  /** The asks of two different places in the list are meant. */
  ghost predicate SeveralMeant(lower: string -> string, entries: seq<Entry>, to: Option<string>) {
    exists i, j :: 0 <= i < j < |entries| && IsMeant(lower, entries[i], to) && IsMeant(lower, entries[j], to)
  }

  lemma {:induction false} FilterSize(fits: Entry -> bool, s: seq<Entry>)
    ensures |Filter(fits, s)| > 1 <==> exists i, j :: 0 <= i < j < |s| && fits(s[i]) && fits(s[j])
    ensures |Filter(fits, s)| > 0 <==> exists i :: 0 <= i < |s| && fits(s[i])
  {
    if s != [] {
      var n := |s| - 1;
      FilterSize(fits, s[..n]);
      if |Filter(fits, s)| > 1 && |Filter(fits, s[..n])| <= 1 {
        assert fits(s[n]) && |Filter(fits, s[..n])| == 1;
        var i :| 0 <= i < n && fits(s[..n][i]);
        assert fits(s[i]);
      }
      if i, j :| 0 <= i < j < |s| && fits(s[i]) && fits(s[j]) { assert fits(s[..n][i]) && (j < n ==> fits(s[..n][j])); }
      if i :| 0 <= i < |s| && fits(s[i]) { assert i < n ==> fits(s[..n][i]); }
    }
  }

  lemma MeantExactly(lower: string -> string, e: Entry, to: Option<string>)
    ensures Fits(lower, e, to) <==> IsMeant(lower, e, to)
  {}

  lemma MatchingExactly(lower: string -> string, entries: seq<Entry>, to: Option<string>)
    ensures var fitting := Matching(lower, entries, to);
            && (forall e :: e in fitting <==> e in entries && IsMeant(lower, e, to))
            && (|fitting| > 1 <==> SeveralMeant(lower, entries, to))
  {
    var fits := e => Fits(lower, e, to);
    FilterMembers(fits, entries);
    FilterSize(fits, entries);
    forall e ensures Fits(lower, e, to) <==> IsMeant(lower, e, to) { MeantExactly(lower, e, to); }
    hide Fits, IsMeant, Filter;
    assert SeveralMeant(lower, entries, to) <==> exists i, j :: 0 <= i < j < |entries| && fits(entries[i]) && fits(entries[j]) by {
      if i, j :| 0 <= i < j < |entries| && fits(entries[i]) && fits(entries[j]) {
        assert IsMeant(lower, entries[i], to) && IsMeant(lower, entries[j], to);
      }
      if i, j :| 0 <= i < j < |entries| && IsMeant(lower, entries[i], to) && IsMeant(lower, entries[j], to) {
        assert fits(entries[i]) && fits(entries[j]);
      }
    }
  }

  /** A reply goes to an ask that is meant: the only one, or the earliest or the newest of several,
      as it says. It is refused when nothing is to be answered, when nothing is meant, when it
      names nobody and several sessions ask, and when it does not say which of several it means. */
  lemma SelectionDecides(lower: string -> string, entries: seq<Entry>, to: Option<string>, which: Option<Which>)
    ensures var answer := Select(lower, entries, to, which);
            var mixed := (to == None || to == Some("")) && exists e, f :: e in entries && f in entries && e.from.id != f.from.id;
            && (answer == Err(NothingPending) <==> entries == [])
            && (answer == Err(NoAskFrom) <==> entries != [] && forall e :: e in entries ==> !IsMeant(lower, e, to))
            && (answer == Err(ManySenders) <==> mixed)
            && (answer == Err(ManyAsks) <==> SeveralMeant(lower, entries, to) && !mixed && which == None)
            && (answer.Ok? ==>
              && answer.value in entries && IsMeant(lower, answer.value, to)
              && (which == Some(Oldest) ==> forall e :: e in entries && IsMeant(lower, e, to) ==> answer.value.receivedAt <= e.receivedAt)
              && (which == Some(Latest) ==> forall e :: e in entries && IsMeant(lower, e, to) ==> e.receivedAt <= answer.value.receivedAt)
              && (which == None ==> forall e :: e in entries && IsMeant(lower, e, to) ==> e == answer.value))
  {
    SelectionIsRight(lower, entries, to, which);
    MatchingExactly(lower, entries, to);
    OpenMeansAll(lower, entries, to);
    if to == None || to == Some("") { OneSenderOnly(lower, entries, to); }
    var fitting := Matching(lower, entries, to);
    TwoSenders(fitting);
    hide Select, Matching, IsMeant, SeveralMeant, SameSender;
    assert fitting != [] ==> fitting[0] in fitting;
  }

  lemma TwoSenders(s: seq<Entry>)
    ensures !SameSender(s) ==> |s| > 1
  {}

  lemma OpenMeansAll(lower: string -> string, entries: seq<Entry>, to: Option<string>)
    ensures to == None || to == Some("") ==> forall e :: IsMeant(lower, e, to)
  {}

  lemma OneSenderOnly(lower: string -> string, entries: seq<Entry>, to: Option<string>)
    requires to == None || to == Some("")
    ensures SameSender(Matching(lower, entries, to)) <==> forall e, f :: e in entries && f in entries ==> e.from.id == f.from.id
  {
    MatchingExactly(lower, entries, to);
    OpenMeansAll(lower, entries, to);
    hide Matching, IsMeant;
  }
}

/** The session a name or an id stands for, on the sender's side (opencode/runtime.ts). */
module TargetResolution {

  import opened Wrappers
  import opened Forest
  import Sets
  import opened InboundModel
  import opened BrokerModel

  datatype Ambiguity = ManyNamed | ManyPrefixed

  function Named(lower: string -> string, sessions: set<Peer>, name: string): set<Peer> {
    set s | s in sessions && s.name.Some? && lower(s.name.value) == lower(name)
  }

  function Prefixed(sessions: set<Peer>, prefix: string): set<Peer> {
    set s | s in sessions && StartsWith(s.id, prefix)
  }

  /** Ids of the listed sessions are distinct, so the list is a set. */
  ghost function ResolveSessionTarget(lower: string -> string, sessions: set<Peer>, nameOrId: string): Result<Option<Id>, Ambiguity> {
    var named, prefixed := Named(lower, sessions, nameOrId), Prefixed(sessions, nameOrId);
    if exists s :: s in sessions && s.id == nameOrId then Ok(Some(nameOrId))
    else if |named| > 1 then Err(ManyNamed)
    else if |named| == 1 then Ok(Some(Only(named).id))
    else if |nameOrId| < 4 then Ok(None)
    else if |prefixed| > 1 then Err(ManyPrefixed)
    else if |prefixed| == 1 then Ok(Some(Only(prefixed).id))
    else Ok(None)
  }

  /** The list is what the broker has: each session once, by id and name. */
  ghost predicate Lists(sessions: set<Peer>, b: Broker) {
    && (forall s :: s in sessions ==> s.id in b.sessions && b.sessions[s.id].name == s.name)
    && (forall id :: id in b.sessions ==> Peer(id, b.sessions[id].name) in sessions)
  }

  lemma IdsOf(peers: set<Peer>, b: Broker, ids: set<Id>)
    requires ids <= b.sessions.Keys
    requires forall s :: s in peers ==> s.id in ids && s == Peer(s.id, b.sessions[s.id].name)
    requires forall id :: id in ids ==> Peer(id, b.sessions[id].name) in peers
    ensures |peers| == |ids|
    ensures |peers| == 1 ==> ids == {Only(peers).id}
    decreases |peers|
  {
    if peers == {} {
      assert ids == {};
    } else {
      var s :| s in peers;
      IdsOf(peers - {s}, b, ids - {s.id});
      if |peers| == 1 {
        assert peers - {s} == {} && Only(peers) in peers;
        assert ids - {s.id} == {};
      }
    }
  }

  /** On the same sessions the sender and the broker resolve a name alike: a target the sender
      finds is the only one the broker finds, an ambiguous name is ambiguous to the broker, and
      a name the sender does not know is unknown to the broker or a prefix of under four
      characters. */
  lemma ResolutionAgreesWithBroker(host: Host, b: Broker, sessions: set<Peer>, nameOrId: string)
    requires Lists(sessions, b)
    ensures var found := FindSessions(b, host, nameOrId);
            match ResolveSessionTarget(host.lower, sessions, nameOrId)
            case Ok(Some(id)) => found == {id}
            case Err(_) => |found| > 1
            case Ok(None) => found == {} || (|nameOrId| < 4 && forall id :: id in found ==> StartsWith(id, nameOrId))
  {
    var named, prefixed := Named(host.lower, sessions, nameOrId), Prefixed(sessions, nameOrId);
    var byName := set id | id in b.sessions && b.sessions[id].name.Some? && host.lower(b.sessions[id].name.value) == host.lower(nameOrId);
    var byPrefix := set id | id in b.sessions && StartsWith(id, nameOrId);
    IdsOf(named, b, byName);
    IdsOf(prefixed, b, byPrefix);
    hide StartsWith;
    if nameOrId in b.sessions {
      assert Peer(nameOrId, b.sessions[nameOrId].name) in sessions;
    } else {
      assert FindSessions(b, host, nameOrId) == if byName != {} then byName else byPrefix;
    }
  }

  /** Two different listed sessions are of a kind. */
  ghost predicate Two(sessions: set<Peer>, kind: Peer -> bool) {
    exists s, t :: s in sessions && t in sessions && s != t && kind(s) && kind(t)
  }

  ghost predicate OnlyOne(sessions: set<Peer>, kind: Peer -> bool, id: Id) {
    exists s :: s in sessions && kind(s) && s.id == id && forall t :: t in sessions && kind(t) ==> t == s
  }

  lemma CountOfKind(sessions: set<Peer>, kind: Peer -> bool, some: set<Peer>, id: Id)
    requires forall s :: s in some <==> s in sessions && kind(s)
    ensures |some| > 1 <==> Two(sessions, kind)
    ensures |some| == 1 && Only(some).id == id <==> OnlyOne(sessions, kind, id)
    ensures |some| == 0 <==> forall s :: s in sessions ==> !kind(s)
  {
    if |some| > 1 {
      var s :| s in some;
      assert some != {s};
      var t :| t in some && t != s;
    }
    if Two(sessions, kind) {
      var s, t :| s in sessions && t in sessions && s != t && kind(s) && kind(t);
      Sets.SubsetIsSmaller({s, t}, some);
    }
    if |some| == 1 {
      var only := Only(some);
      forall t | t in some ensures t == only { if t != only { Sets.SubsetIsSmaller({t, only}, some); } }
      assert OnlyOne(sessions, kind, only.id);
    }
    if OnlyOne(sessions, kind, id) {
      var s :| s in sessions && kind(s) && s.id == id && forall t :: t in sessions && kind(t) ==> t == s;
      assert some == {s};
    }
  }

  /** A sender finds the session with that very id; else the only one with that name, in any case;
      else, if at least four characters are given, the only one whose id starts with them. */
  lemma ResolutionDecides(lower: string -> string, sessions: set<Peer>, nameOrId: string, id: Id)
    ensures var answer := ResolveSessionTarget(lower, sessions, nameOrId);
            var known := exists s :: s in sessions && s.id == nameOrId;
            var named := (s: Peer) => match s.name case Some(name) => lower(name) == lower(nameOrId) case None => false;
            var prefixed := (s: Peer) => nameOrId <= s.id;
            var unnamed := !known && forall s :: s in sessions ==> !named(s);
            && (answer == Ok(Some(id)) <==>
              || (known && id == nameOrId) || (!known && OnlyOne(sessions, named, id))
              || (unnamed && |nameOrId| >= 4 && OnlyOne(sessions, prefixed, id)))
            && (answer == Err(ManyNamed) <==> !known && Two(sessions, named))
            && (answer == Err(ManyPrefixed) <==> unnamed && |nameOrId| >= 4 && Two(sessions, prefixed))
  {
    var named := (s: Peer) => match s.name case Some(name) => lower(name) == lower(nameOrId) case None => false;
    var prefixed := (s: Peer) => nameOrId <= s.id;
    CountOfKind(sessions, named, Named(lower, sessions, nameOrId), id);
    CountOfKind(sessions, prefixed, Prefixed(sessions, nameOrId), id);
    hide Two, OnlyOne, Named, Prefixed;
  }
}
