/**
 The sliding-window rate limiter kept in memory: a deque of call times per
 (principal, tool).  Times are integers (microseconds).  Both limiters are compared
 with a reference limiter that never forgets an accepted call.
 */
module RateLimiter {

  datatype Window = Minute | Second

  function Length(w: Window): int {
    match w
    case Minute => 60_000_000
    case Second => 1_000_000
  }

  /** A parsed limit such as "60/minute". */
  datatype RateLimit = RateLimit(count: int, window: Window)

  datatype Key = Key(principalId: string, toolName: string)

  datatype Call = Call(key: Key, at: int)

  /** The registry gives every tool one limit. */
  type Limits = string -> RateLimit

  function LimitOf(limits: Limits, key: Key): RateLimit {
    limits(key.toolName)
  }

  function LengthOf(limits: Limits, key: Key): int {
    Length(LimitOf(limits, key).window)
  }

  /** How many calls of the key a window may hold: none if its limit is negative. */
  function Most(limits: Limits, key: Key): nat {
    if LimitOf(limits, key).count > 0 then LimitOf(limits, key).count else 0
  }

  ghost predicate Nondecreasing(attempts: seq<Call>) {
    forall i, j :: 0 <= i <= j < |attempts| ==> attempts[i].at <= attempts[j].at
  }

  // ---- the reference limiter

  /** How many calls of `key` were made after time `after`. */
  function CountAfter(calls: seq<Call>, key: Key, after: int): nat {
    if |calls| == 0 then 0
    else
      var c := calls[|calls| - 1];
      CountAfter(calls[..|calls| - 1], key, after) + if c.key == key && c.at > after then 1 else 0
  }

  /** How many calls of `key` were made at `lo` or later but before `hi`. */
  ghost function CountBetween(calls: seq<Call>, key: Key, lo: int, hi: int): nat {
    if |calls| == 0 then 0
    else
      var c := calls[|calls| - 1];
      CountBetween(calls[..|calls| - 1], key, lo, hi) + if c.key == key && lo <= c.at < hi then 1 else 0
  }

  /** The seconds of a window. */
  ghost function Seconds(w: Window): int {
    if w == Minute then 60 else 1
  }

  /** Fewer than the limit were accepted within the seconds of the window before the attempt. */
  ghost predicate Admits(limits: Limits, accepted: seq<Call>, c: Call) {
    var limit := LimitOf(limits, c.key);
    CountAfter(accepted, c.key, c.at - Seconds(limit.window) * 1_000_000) < limit.count
  }

  ghost function AfterAttempt(limits: Limits, accepted: seq<Call>, c: Call): seq<Call> {
    if Admits(limits, accepted, c) then accepted + [c] else accepted
  }

  /** The calls accepted out of `attempts`, in order. */
  ghost function Accepted(limits: Limits, attempts: seq<Call>): seq<Call> {
    if |attempts| == 0 then []
    else
      var front, c := attempts[..|attempts| - 1], attempts[|attempts| - 1];
      AfterAttempt(limits, Accepted(limits, front), c)
  }

  lemma {:induction false} BetweenWithinAfter(calls: seq<Call>, key: Key, lo: int, hi: int, after: int)
    requires after < lo
    ensures CountBetween(calls, key, lo, hi) <= CountAfter(calls, key, after)
  {
    if |calls| > 0 {
      BetweenWithinAfter(calls[..|calls| - 1], key, lo, hi, after);
    }
  }

  /** No window of the limit's length ever holds more accepted calls than the limit allows. */
  lemma {:induction false} WindowBound(limits: Limits, attempts: seq<Call>, key: Key, lo: int)
    requires Nondecreasing(attempts)
    ensures CountBetween(Accepted(limits, attempts), key, lo, lo + LengthOf(limits, key)) <= Most(limits, key)
  {
    if |attempts| > 0 {
      var front, c := attempts[..|attempts| - 1], attempts[|attempts| - 1];
      var before := Accepted(limits, front);
      WindowBound(limits, front, key, lo);
      if Admits(limits, before, c) && c.key == key && lo <= c.at < lo + LengthOf(limits, key) {
        BetweenWithinAfter(before, key, lo, lo + LengthOf(limits, key), c.at - LengthOf(limits, key));
        assert (before + [c])[..|before|] == before;
      } else if Admits(limits, before, c) {
        assert (before + [c])[..|before|] == before;
      }
    }
  }

  // ---- the in-memory limiter

  type Deques = map<Key, seq<int>>

  function DequeOf(calls: Deques, key: Key): seq<int> {
    if key in calls then calls[key] else []
  }

  /** Pop from the left while the head is a full window old. */
  function DropExpired(times: seq<int>, window: int, now: int): seq<int> {
    if |times| > 0 && now - times[0] >= window then DropExpired(times[1..], window, now) else times
  }

  function MemoryAccepts(calls: Deques, limit: RateLimit, c: Call): bool {
    |DropExpired(DequeOf(calls, c.key), Length(limit.window), c.at)| < limit.count
  }

  function MemoryCheck(calls: Deques, limit: RateLimit, c: Call): Deques {
    var live := DropExpired(DequeOf(calls, c.key), Length(limit.window), c.at);
    calls[c.key := if |live| < limit.count then live + [c.at] else live]
  }

  class FixedWindowRateLimiter {
    var calls: Deques

    constructor ()
      ensures calls == map[]
    {
      calls := map[];
    }

    /** Returns false where the source raises RateLimitExceeded. */
    method Check(principalId: string, toolName: string, limit: RateLimit, now: int) returns (ok: bool)
      modifies this
      ensures var c := Call(Key(principalId, toolName), now);
        ok == MemoryAccepts(old(calls), limit, c) && calls == MemoryCheck(old(calls), limit, c)
    {
      var key := Key(principalId, toolName);
      var times := DequeOf(calls, key);
      ghost var all := times;
      while |times| > 0 && now - times[0] >= Length(limit.window)
        invariant DropExpired(all, Length(limit.window), now) == DropExpired(times, Length(limit.window), now)
      {
        times := times[1..];
      }
      calls := calls[key := times];
      if |times| >= limit.count {
        return false;
      }
      calls := calls[key := times + [now]];
      return true;
    }
  }

  ghost function MemoryRun(limits: Limits, attempts: seq<Call>): Deques {
    if |attempts| == 0 then map[]
    else
      var c := attempts[|attempts| - 1];
      MemoryCheck(MemoryRun(limits, attempts[..|attempts| - 1]), LimitOf(limits, c.key), c)
  }

  /** The in-memory limiter's answer to the last of `attempts`. */
  ghost predicate MemoryAcceptsLast(limits: Limits, attempts: seq<Call>)
    requires |attempts| > 0
  {
    var c := attempts[|attempts| - 1];
    MemoryAccepts(MemoryRun(limits, attempts[..|attempts| - 1]), LimitOf(limits, c.key), c)
  }

  lemma {:induction false} MemoryRunAppend(limits: Limits, front: seq<Call>, c: Call)
    ensures MemoryRun(limits, front + [c]) == MemoryCheck(MemoryRun(limits, front), LimitOf(limits, c.key), c)
    ensures MemoryAcceptsLast(limits, front + [c]) == MemoryAccepts(MemoryRun(limits, front), LimitOf(limits, c.key), c)
  {
    assert (front + [c])[..|front|] == front;
  }

  ghost predicate AdmitsLast(limits: Limits, attempts: seq<Call>)
    requires |attempts| > 0
  {
    Admits(limits, Accepted(limits, attempts[..|attempts| - 1]), attempts[|attempts| - 1])
  }

  /** The times of the accepted calls of one key. */
  ghost function Times(calls: seq<Call>, key: Key): seq<int> {
    if |calls| == 0 then []
    else
      var c := calls[|calls| - 1];
      var front := Times(calls[..|calls| - 1], key);
      if c.key == key then front + [c.at] else front
  }

  ghost predicate Ordered(times: seq<int>) {
    forall i, j :: 0 <= i <= j < |times| ==> times[i] <= times[j]
  }

  /** The deque is the reference's accepted times with an expired prefix dropped. */
  ghost predicate DequeMatches(deque: seq<int>, times: seq<int>, expired: int) {
    && |deque| <= |times|
    && (forall i :: 0 <= i < |deque| ==> deque[i] == times[|times| - |deque| + i])
    && forall i :: 0 <= i < |times| - |deque| ==> times[i] <= expired
  }

  lemma {:induction false} TimesOrdered(calls: seq<Call>, key: Key, last: int)
    requires Nondecreasing(calls) && forall c :: c in calls ==> c.at <= last
    ensures Ordered(Times(calls, key)) && forall t :: t in Times(calls, key) ==> t <= last
  {
    if |calls| > 0 {
      var n := |calls| - 1;
      var c := calls[n];
      TimesOrdered(calls[..n], key, c.at);
      assert c in calls;
      var front := Times(calls[..n], key);
      assert forall i :: 0 <= i < |front| ==> front[i] in front;
    }
  }

  lemma TimesInOrder(calls: seq<Call>, key: Key, last: int)
    requires Nondecreasing(calls) && forall c :: c in calls ==> c.at <= last
    ensures Ordered(Times(calls, key))
  {
    TimesOrdered(calls, key, last);
  }

  /** On ordered times, dropping expired heads leaves exactly the live times. */
  lemma {:induction false} DropKeepsMatch(deque: seq<int>, times: seq<int>, expired: int, window: int, now: int)
    requires Ordered(times) && DequeMatches(deque, times, expired) && expired <= now - window
    ensures var live := DropExpired(deque, window, now);
      DequeMatches(live, times, now - window) && (|live| > 0 ==> live[0] > now - window)
    decreases |deque|
  {
    if |deque| > 0 && now - deque[0] >= window {
      assert deque[0] == times[|times| - |deque|];
      DropKeepsMatch(deque[1..], times, now - window, window, now);
    }
  }

  /** How many of the times are later than `after`. */
  ghost function LaterThan(times: seq<int>, after: int): nat {
    if |times| == 0 then 0 else LaterThan(times[..|times| - 1], after) + if times[|times| - 1] > after then 1 else 0
  }

  lemma {:induction false} CountIsLaterTimes(calls: seq<Call>, key: Key, after: int)
    ensures CountAfter(calls, key, after) == LaterThan(Times(calls, key), after)
  {
    if |calls| > 0 {
      var front := Times(calls[..|calls| - 1], key);
      CountIsLaterTimes(calls[..|calls| - 1], key, after);
      assert (front + [calls[|calls| - 1].at])[..|front|] == front;
    }
  }

  lemma {:induction false} LaterThanSplits(times: seq<int>, k: nat, after: int)
    requires k <= |times|
    requires forall i :: 0 <= i < |times| ==> (i < k <==> times[i] <= after)
    ensures LaterThan(times, after) == |times| - k
  {
    if |times| > 0 {
      LaterThanSplits(times[..|times| - 1], if k == |times| then k - 1 else k, after);
    }
  }

  ghost predicate MemoryMatches(limits: Limits, calls: Deques, accepted: seq<Call>, last: int) {
    && Nondecreasing(accepted)
    && (forall c :: c in accepted ==> c.at <= last)
    && DequesMatch(limits, calls, accepted, last)
  }

  ghost predicate DequesMatch(limits: Limits, calls: Deques, accepted: seq<Call>, last: int) {
    forall key :: DequeMatches(DequeOf(calls, key), Times(accepted, key), last - LengthOf(limits, key))
  }

  lemma AppendKeepsMatch(live: seq<int>, times: seq<int>, expired: int, now: int)
    requires DequeMatches(live, times, expired)
    ensures DequeMatches(live + [now], times + [now], expired)
  {
  }

  lemma SplitAtLive(live: seq<int>, times: seq<int>, after: int)
    requires Ordered(times) && DequeMatches(live, times, after) && (|live| > 0 ==> live[0] > after)
    ensures LaterThan(times, after) == |live|
  {
    var k := |times| - |live|;
    forall i | 0 <= i < |times|
      ensures i < k <==> times[i] <= after
    {
      if i >= k {
        assert live[0] == times[k] <= times[i];
      }
    }
    LaterThanSplits(times, k, after);
  }

  lemma {:induction false} DroppedDeque(deque: seq<int>, times: seq<int>, expired: int, window: int, now: int)
    requires Ordered(times) && DequeMatches(deque, times, expired) && expired <= now - window
    ensures var live := DropExpired(deque, window, now);
      |live| == LaterThan(times, now - window) && DequeMatches(live, times, now - window)
  {
    DropKeepsMatch(deque, times, expired, window, now);
    SplitAtLive(DropExpired(deque, window, now), times, now - window);
  }

  /** What a check leaves of the deque of the calling key: the accepted calls of the trailing window. */
  lemma {:induction false} CheckedDeque(
    deque: seq<int>, calls: seq<Call>, key: Key, expired: int, window: int, now: int)
    requires Ordered(Times(calls, key)) && DequeMatches(deque, Times(calls, key), expired) && expired <= now - window
    ensures |DropExpired(deque, window, now)| == CountAfter(calls, key, now - window)
    ensures DequeMatches(DropExpired(deque, window, now), Times(calls, key), now - window)
  {
    DroppedDeque(deque, Times(calls, key), expired, window, now);
    CountIsLaterTimes(calls, key, now - window);
  }

  lemma TimesAfterAppend(accepted: seq<Call>, c: Call, key: Key)
    ensures Times(accepted + [c], key) == if c.key == key then Times(accepted, key) + [c.at] else Times(accepted, key)
  {
    assert (accepted + [c])[..|accepted|] == accepted;
  }

  lemma AttemptKeepsOrder(limits: Limits, accepted: seq<Call>, last: int, c: Call)
    requires Nondecreasing(accepted) && (forall d :: d in accepted ==> d.at <= last) && last <= c.at
    ensures var accepted' := AfterAttempt(limits, accepted, c);
      Nondecreasing(accepted') && forall d :: d in accepted' ==> d.at <= c.at
  {
    assert forall i :: 0 <= i < |accepted| ==> accepted[i] in accepted;
  }

  lemma MatchLater(deque: seq<int>, times: seq<int>, expired: int, expired': int)
    requires DequeMatches(deque, times, expired) && expired <= expired'
    ensures DequeMatches(deque, times, expired')
  {
  }

  lemma AcceptanceKeepsMatch(live: seq<int>, accepted: seq<Call>, c: Call, accepts: bool, expired: int)
    requires DequeMatches(live, Times(accepted, c.key), expired)
    ensures DequeMatches(if accepts then live + [c.at] else live,
                         Times(if accepts then accepted + [c] else accepted, c.key), expired)
  {
    if accepts {
      AppendKeepsMatch(live, Times(accepted, c.key), expired, c.at);
      TimesAfterAppend(accepted, c, c.key);
    }
  }

  /** The deque of the calling key decides as the reference does and goes on matching it. */
  lemma {:induction false} CallersDeque(limits: Limits, calls: Deques, accepted: seq<Call>, expired: int, c: Call)
    requires Ordered(Times(accepted, c.key)) && expired <= c.at - LengthOf(limits, c.key)
    requires DequeMatches(DequeOf(calls, c.key), Times(accepted, c.key), expired)
    ensures MemoryAccepts(calls, LimitOf(limits, c.key), c) == Admits(limits, accepted, c)
    ensures DequeMatches(DequeOf(MemoryCheck(calls, LimitOf(limits, c.key), c), c.key),
                         Times(AfterAttempt(limits, accepted, c), c.key), c.at - LengthOf(limits, c.key))
  {
    var live := DropExpired(DequeOf(calls, c.key), LengthOf(limits, c.key), c.at);
    CheckedDeque(DequeOf(calls, c.key), accepted, c.key, expired, LengthOf(limits, c.key), c.at);
    AcceptanceKeepsMatch(live, accepted, c, Admits(limits, accepted, c), c.at - LengthOf(limits, c.key));
  }

  /** A check leaves the deques of the other keys alone. */
  lemma {:induction false} OtherDeque(
    limits: Limits, calls: Deques, accepted: seq<Call>, expired: int, c: Call, key: Key, expired': int)
    requires DequeMatches(DequeOf(calls, key), Times(accepted, key), expired) && expired <= expired' && key != c.key
    ensures DequeMatches(DequeOf(MemoryCheck(calls, LimitOf(limits, c.key), c), key),
                         Times(AfterAttempt(limits, accepted, c), key), expired')
  {
    TimesAfterAppend(accepted, c, key);
    assert DequeOf(MemoryCheck(calls, LimitOf(limits, c.key), c), key) == DequeOf(calls, key);
    MatchLater(DequeOf(calls, key), Times(accepted, key), expired, expired');
  }

  lemma {:induction false} KeyStep(limits: Limits, calls: Deques, accepted: seq<Call>, last: int, c: Call, key: Key)
    requires Ordered(Times(accepted, c.key)) && last <= c.at
    requires DequeMatches(DequeOf(calls, key), Times(accepted, key), last - LengthOf(limits, key))
    ensures DequeMatches(DequeOf(MemoryCheck(calls, LimitOf(limits, c.key), c), key),
                         Times(AfterAttempt(limits, accepted, c), key), c.at - LengthOf(limits, key))
  {
    if key == c.key {
      CallersDeque(limits, calls, accepted, last - LengthOf(limits, key), c);
    } else {
      OtherDeque(limits, calls, accepted, last - LengthOf(limits, key), c, key, c.at - LengthOf(limits, key));
    }
  }

  lemma {:induction false} DequesStep(limits: Limits, calls: Deques, accepted: seq<Call>, last: int, c: Call)
    requires DequesMatch(limits, calls, accepted, last) && Ordered(Times(accepted, c.key)) && last <= c.at
    ensures DequesMatch(limits, MemoryCheck(calls, LimitOf(limits, c.key), c), AfterAttempt(limits, accepted, c), c.at)
  {
    var calls', accepted' := MemoryCheck(calls, LimitOf(limits, c.key), c), AfterAttempt(limits, accepted, c);
    forall key
      ensures DequeMatches(DequeOf(calls', key), Times(accepted', key), c.at - LengthOf(limits, key))
    {
      KeyStep(limits, calls, accepted, last, c, key);
    }
  }

  lemma {:induction false} MemoryStep(limits: Limits, calls: Deques, accepted: seq<Call>, last: int, c: Call)
    requires MemoryMatches(limits, calls, accepted, last) && last <= c.at
    ensures MemoryAccepts(calls, LimitOf(limits, c.key), c) == Admits(limits, accepted, c)
    ensures MemoryMatches(limits, MemoryCheck(calls, LimitOf(limits, c.key), c), AfterAttempt(limits, accepted, c),
      c.at)
  {
    TimesInOrder(accepted, c.key, last);
    DequesStep(limits, calls, accepted, last, c);
    CallersDeque(limits, calls, accepted, last - LengthOf(limits, c.key), c);
    AttemptKeepsOrder(limits, accepted, last, c);
  }

  lemma {:induction false} MemoryRunMatches(limits: Limits, attempts: seq<Call>, last: int)
    requires Nondecreasing(attempts) && forall c :: c in attempts ==> c.at <= last
    ensures MemoryMatches(limits, MemoryRun(limits, attempts), Accepted(limits, attempts), last)
  {
    if |attempts| > 0 {
      var front, c := attempts[..|attempts| - 1], attempts[|attempts| - 1];
      MemoryRunMatches(limits, front, c.at);
      MemoryStep(limits, MemoryRun(limits, front), Accepted(limits, front), c.at, c);
      Later(limits, MemoryRun(limits, attempts), Accepted(limits, attempts), c.at, last);
    }
  }

  lemma Later(limits: Limits, calls: Deques, accepted: seq<Call>, last: int, last': int)
    requires MemoryMatches(limits, calls, accepted, last) && last <= last'
    ensures MemoryMatches(limits, calls, accepted, last')
  {
    forall key
      ensures DequeMatches(DequeOf(calls, key), Times(accepted, key), last' - LengthOf(limits, key))
    {
      assert DequeMatches(DequeOf(calls, key), Times(accepted, key), last - LengthOf(limits, key));
    }
  }

  /** The in-memory limiter rejects a call exactly when the trailing window already holds the limit. */
  lemma MemoryDecidesLikeReference(limits: Limits, attempts: seq<Call>)
    requires |attempts| > 0 && Nondecreasing(attempts)
    ensures MemoryAcceptsLast(limits, attempts) == AdmitsLast(limits, attempts)
  {
    var front, c := attempts[..|attempts| - 1], attempts[|attempts| - 1];
    MemoryRunMatches(limits, front, c.at);
    MemoryStep(limits, MemoryRun(limits, front), Accepted(limits, front), c.at, c);
  }

  /** The calls the in-memory limiter accepts. */
  ghost function MemoryLog(limits: Limits, attempts: seq<Call>): seq<Call> {
    if |attempts| == 0 then []
    else
      var log := MemoryLog(limits, attempts[..|attempts| - 1]);
      if MemoryAcceptsLast(limits, attempts) then log + [attempts[|attempts| - 1]] else log
  }

  lemma {:induction false} MemoryLogIsAccepted(limits: Limits, attempts: seq<Call>)
    requires Nondecreasing(attempts)
    ensures MemoryLog(limits, attempts) == Accepted(limits, attempts)
  {
    if |attempts| > 0 {
      MemoryLogIsAccepted(limits, attempts[..|attempts| - 1]);
      MemoryDecidesLikeReference(limits, attempts);
    }
  }

  /** In every run the in-memory limiter lets at most the limit through in any one window. */
  lemma MemoryWindowBound(limits: Limits, attempts: seq<Call>, key: Key, lo: int)
    requires Nondecreasing(attempts)
    ensures CountBetween(MemoryLog(limits, attempts), key, lo, lo + LengthOf(limits, key)) <= Most(limits, key)
  {
    MemoryLogIsAccepted(limits, attempts);
    WindowBound(limits, attempts, key, lo);
  }
}
