/** The per-connection rate limiter of broker/broker.ts. Tokens are counted in thousandths,
    so that a refill of `elapsedMs * refillPerSecond / 1000` tokens is exact. */
module TokenBucket {

  datatype Origin = Local | Remote

  const RATE_LIMIT_CAPACITY: nat := 240
  const RATE_LIMIT_REFILL_PER_SECOND: nat := 120
  const REMOTE_RATE_LIMIT_CAPACITY: nat := 60
  const REMOTE_RATE_LIMIT_REFILL_PER_SECOND: nat := 30

  /** The capacity in thousandths of a token. */
  function Capacity(origin: Origin): nat {
    1000 * if origin.Remote? then REMOTE_RATE_LIMIT_CAPACITY else RATE_LIMIT_CAPACITY
  }

  /** Tokens per second, that is, thousandths of a token per millisecond. */
  function Rate(origin: Origin): nat {
    if origin.Remote? then REMOTE_RATE_LIMIT_REFILL_PER_SECOND else RATE_LIMIT_REFILL_PER_SECOND
  }

  datatype Call = Call(now: int, cost: nat)

  // ---------- The reference: a limiter that remembers every call ----------

  /** The clock as the limiter sees it: it never goes back, even when the host's does. */
  function Clock(start: int, calls: seq<Call>): int {
    if calls == [] then start
    else
      var earlier := Clock(start, calls[..|calls| - 1]);
      var now := calls[|calls| - 1].now;
      if now > earlier then now else earlier
  }

  function Sum(amounts: seq<nat>): nat {
    if amounts == [] then 0 else Sum(amounts[..|amounts| - 1]) + amounts[|amounts| - 1]
  }

  /** What a window that starts at the `k`-th past call and ends at clock time `now` admits. */
  function WindowLimit(origin: Origin, start: int, past: seq<Call>, k: nat, now: int): int
    requires k < |past|
  {
    Capacity(origin) + Rate(origin) * (now - Clock(start, past[..k + 1]))
  }

  /** A call fits when it stays within capacity by itself and together with every window of
      past calls that ends now. */
  ghost predicate Fits(origin: Origin, start: int, past: seq<Call>, spent: seq<nat>, call: Call)
    requires |spent| == |past|
  {
    var now := Clock(start, past + [call]);
    && 1000 * call.cost <= Capacity(origin)
    && forall k :: 0 <= k < |past| ==>
      Sum(spent[k..]) + 1000 * call.cost <= WindowLimit(origin, start, past, k, now)
  }

  /** What each call of a history spent under the reference limiter: its whole cost when it
      fitted the windows before it, nothing when it did not. */
  ghost function Spent(origin: Origin, start: int, calls: seq<Call>): (spent: seq<nat>)
    ensures |spent| == |calls|
  {
    if calls == [] then []
    else
      var past, call := calls[..|calls| - 1], calls[|calls| - 1];
      var before := Spent(origin, start, past);
      before + [if Fits(origin, start, past, before, call) then 1000 * call.cost else 0]
  }

  // ---------- The bucket ----------

  datatype Bucket = Bucket(tokens: int, lastRefillAt: int)

  function Refill(origin: Origin, b: Bucket, now: int): Bucket {
    if now - b.lastRefillAt > 0 then
      var filled := b.tokens + (now - b.lastRefillAt) * Rate(origin);
      Bucket(if filled < Capacity(origin) then filled else Capacity(origin), now)
    else b
  }

  function Consume(origin: Origin, b: Bucket, call: Call): (Bucket, bool) {
    var filled := Refill(origin, b, call.now);
    if filled.tokens < 1000 * call.cost then (filled, false)
    else (filled.(tokens := filled.tokens - 1000 * call.cost), true)
  }

  function After(origin: Origin, start: int, calls: seq<Call>): Bucket {
    if calls == [] then Bucket(Capacity(origin), start)
    else Consume(origin, After(origin, start, calls[..|calls| - 1]), calls[|calls| - 1]).0
  }

  /** `tokens` is the least slack of all windows that end at clock time `now`. */
  ghost predicate LeastSlackAt(origin: Origin, start: int, past: seq<Call>, spent: seq<nat>, tokens: int, now: int)
    requires |spent| == |past|
  {
    && 0 <= tokens <= Capacity(origin)
    && (forall k :: 0 <= k < |past| ==> tokens + Sum(spent[k..]) <= WindowLimit(origin, start, past, k, now))
    && (tokens == Capacity(origin) ||
      exists k :: 0 <= k < |past| && tokens + Sum(spent[k..]) == WindowLimit(origin, start, past, k, now))
  }

  /** The bucket's level is the least slack of all windows that end at its last refill. */
  ghost predicate IsLeastSlack(origin: Origin, start: int, past: seq<Call>, spent: seq<nat>, b: Bucket)
    requires |spent| == |past|
  {
    && b.lastRefillAt == Clock(start, past)
    && LeastSlackAt(origin, start, past, spent, b.tokens, b.lastRefillAt)
  }

  lemma SumOfExtension(spent: seq<nat>, amount: nat, k: nat)
    requires k <= |spent|
    ensures Sum((spent + [amount])[k..]) == Sum(spent[k..]) + amount
  {
    assert (spent + [amount])[k..] == spent[k..] + [amount];
    var s := spent[k..] + [amount];
    assert s[..|s| - 1] == spent[k..];
  }

  lemma WindowOfExtension(origin: Origin, start: int, past: seq<Call>, call: Call, k: nat, now: int)
    requires k < |past|
    ensures WindowLimit(origin, start, past + [call], k, now) == WindowLimit(origin, start, past, k, now)
  {
    assert (past + [call])[..k + 1] == past[..k + 1];
  }

  lemma SpendKeepsLeastSlack(origin: Origin, start: int, past: seq<Call>, spent: seq<nat>, level: int, call: Call, amount: nat)
    requires |spent| == |past|
    requires LeastSlackAt(origin, start, past, spent, level, Clock(start, past + [call])) && amount <= level
    ensures LeastSlackAt(origin, start, past + [call], spent + [amount], level - amount, Clock(start, past + [call]))
  {
    var all, spent', now := past + [call], spent + [amount], Clock(start, past + [call]);
    assert all[..|past| + 1] == all;
    forall k | 0 <= k < |all|
      ensures level - amount + Sum(spent'[k..]) <= WindowLimit(origin, start, all, k, now)
      ensures Sum(spent'[k..]) == Sum(spent[k..]) + amount
    {
      SumOfExtension(spent, amount, k);
      if k < |past| { WindowOfExtension(origin, start, past, call, k, now); }
    }
    if level == Capacity(origin) {
      assert level - amount + Sum(spent'[|past|..]) == WindowLimit(origin, start, all, |past|, now);
    } else {
      var k :| 0 <= k < |past| && level + Sum(spent[k..]) == WindowLimit(origin, start, past, k, now);
      WindowOfExtension(origin, start, past, call, k, now);
      assert level - amount + Sum(spent'[k..]) == WindowLimit(origin, start, all, k, now);
    }
  }

  /** One call: the bucket's answer is the reference's, and its level stays the least slack. */
  lemma ConsumeMatchesWindows(origin: Origin, start: int, past: seq<Call>, spent: seq<nat>, b: Bucket, call: Call)
    requires |spent| == |past| && IsLeastSlack(origin, start, past, spent, b)
    ensures var (next, accepted) := Consume(origin, b, call);
            && accepted == Fits(origin, start, past, spent, call)
            && IsLeastSlack(origin, start, past + [call], spent + [if accepted then 1000 * call.cost else 0], next)
  {
    var filled := Refill(origin, b, call.now);
    assert (past + [call])[..|past|] == past;
    assert filled.lastRefillAt == Clock(start, past + [call]);
    var amount := if filled.tokens < 1000 * call.cost then 0 else 1000 * call.cost;
    SpendKeepsLeastSlack(origin, start, past, spent, filled.tokens, call, amount);
  }

  lemma {:induction false} BucketIsLeastSlack(origin: Origin, start: int, calls: seq<Call>)
    ensures IsLeastSlack(origin, start, calls, Spent(origin, start, calls), After(origin, start, calls))
  {
    if calls != [] {
      var past, call := calls[..|calls| - 1], calls[|calls| - 1];
      BucketIsLeastSlack(origin, start, past);
      ConsumeMatchesWindows(origin, start, past, Spent(origin, start, past), After(origin, start, past), call);
      assert past + [call] == calls;
    }
  }

  /** For any history of calls, the bucket refuses the next cost exactly when some window of
      past calls that ends now would exceed `capacity + rate * elapsed` once it is added. */
  lemma RefusesExactlyOverspending(origin: Origin, start: int, past: seq<Call>, call: Call)
    ensures Consume(origin, After(origin, start, past), call).1 ==
            Fits(origin, start, past, Spent(origin, start, past), call)
  {
    BucketIsLeastSlack(origin, start, past);
    ConsumeMatchesWindows(origin, start, past, Spent(origin, start, past), After(origin, start, past), call);
  }

  lemma SliceOfPrefix<T>(s: seq<T>, n: nat, i: nat, j: nat)
    requires i <= j <= n <= |s|
    ensures s[..n][i..j] == s[i..j]
  {
    forall k | 0 <= k < j - i ensures s[..n][i..j][k] == s[i..j][k] {}
  }

  /** No window of a history, wherever it starts and ends, spends more than it may. */
  lemma {:induction false} EveryWindowIsBounded(origin: Origin, start: int, calls: seq<Call>, i: nat, j: nat)
    requires i < j <= |calls|
    ensures Sum(Spent(origin, start, calls)[i..j]) <=
            Capacity(origin) + Rate(origin) * (Clock(start, calls[..j]) - Clock(start, calls[..i + 1]))
    decreases |calls|
  {
    var spent := Spent(origin, start, calls);
    if j == |calls| {
      BucketIsLeastSlack(origin, start, calls);
      assert spent[i..j] == spent[i..] && calls[..j] == calls;
    } else {
      var past := calls[..|calls| - 1];
      EveryWindowIsBounded(origin, start, past, i, j);
      assert spent[..|past|] == Spent(origin, start, past);
      SliceOfPrefix(spent, |past|, i, j);
      assert past[..j] == calls[..j] && past[..i + 1] == calls[..i + 1];
    }
  }

  /** A connection that has been quiet for two seconds may spend 240 tokens at once, a remote one
      60, and not one more; and one that has spent everything earns 120 a second, or 30. */
  lemma LimitsAreExact(origin: Origin, start: int, past: seq<Call>, now: int, cost: nat)
    ensures now >= Clock(start, past) + 2000 ==>
      (Consume(origin, After(origin, start, past), Call(now, cost)).1 <==> cost <= if origin == Local then 240 else 60)
    ensures After(origin, start, past).tokens == 0 && Clock(start, past) <= now <= Clock(start, past) + 2000 ==>
      (Consume(origin, After(origin, start, past), Call(now, cost)).1 <==>
        1000 * cost <= (now - Clock(start, past)) * if origin == Local then 120 else 30)
  {
    BucketIsLeastSlack(origin, start, past);
  }

  /** With a clock that does not go back, the limiter's clock is the host's. */
  lemma ClockIsHostClock(start: int, calls: seq<Call>)
    requires calls != []
    requires forall i, j :: 0 <= i <= j < |calls| ==> start <= calls[i].now <= calls[j].now
    ensures Clock(start, calls) == calls[|calls| - 1].now
  {
    var past := calls[..|calls| - 1];
    if past != [] { ClockIsHostClock(start, past); }
  }

  class ConnectionState {
    const origin: Origin
    const refillPerSecond: nat
    var tokens: int
    var lastRefillAt: int
    ghost const createdAt: int
    ghost var past: seq<Call>

    ghost predicate Valid()
      reads this
    {
      && refillPerSecond == Rate(origin)
      && Bucket(tokens, lastRefillAt) == After(origin, createdAt, past)
    }

    constructor (origin: Origin, now: int)
      ensures Valid() && this.origin == origin && createdAt == now && past == []
    {
      this.origin := origin;
      this.refillPerSecond := Rate(origin);
      this.tokens := Capacity(origin);
      this.lastRefillAt := now;
      this.createdAt, this.past := now, [];
    }

    method ConsumeToken(cost: nat, now: int) returns (accepted: bool)
      requires Valid()
      modifies this
      ensures Valid() && past == old(past) + [Call(now, cost)]
      ensures accepted == Fits(origin, createdAt, old(past), Spent(origin, createdAt, old(past)), Call(now, cost))
      ensures 0 <= tokens <= Capacity(origin)
    {
      ghost var call := Call(now, cost);
      RefusesExactlyOverspending(origin, createdAt, past, call);
      BucketIsLeastSlack(origin, createdAt, past + [call]);
      past := past + [call];
      assert past[..|past| - 1] == old(past);
      var elapsedMs := now - lastRefillAt;
      if elapsedMs > 0 {
        var filled := tokens + elapsedMs * refillPerSecond;
        tokens := if filled < Capacity(origin) then filled else Capacity(origin);
        lastRefillAt := now;
      }
      if tokens < 1000 * cost {
        return false;
      }
      tokens := tokens - 1000 * cost;
      return true;
    }
  }
}
