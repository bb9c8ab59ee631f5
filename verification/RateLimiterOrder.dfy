/**
 The rate limit when checks come out of clock order.  A call reads the clock before it is
 checked, so calls that overlap may be checked against the order of their readings.  The
 limit holds all the same exactly when it admits no more than one call, or no reading is
 ever behind an earlier check's.
 */
module RateLimiterOrder {
  import opened RateLimiter

  /** No check's reading is more than `back` behind that of an earlier check. */
  ghost predicate BehindBy(attempts: seq<Call>, back: int) {
    forall i, j :: 0 <= i < j < |attempts| ==> attempts[i].at - attempts[j].at <= back
  }

  /** The window from `lo` on holds no more of the calls than the key's limit. */
  ghost predicate WithinLimit(limits: Limits, key: Key, calls: seq<Call>, lo: int) {
    CountBetween(calls, key, lo, lo + LengthOf(limits, key)) <= Most(limits, key)
  }

  ghost predicate KeepsLimit(limits: Limits, key: Key, attempts: seq<Call>) {
    forall lo: int :: WithinLimit(limits, key, MemoryLog(limits, attempts), lo)
  }

  lemma OrderedKeepsLimit(limits: Limits, key: Key, attempts: seq<Call>)
    requires Nondecreasing(attempts)
    ensures KeepsLimit(limits, key, attempts)
  {
    forall lo: int
      ensures WithinLimit(limits, key, MemoryLog(limits, attempts), lo)
    {
      MemoryWindowBound(limits, attempts, key, lo);
    }
  }

  // ---- a limit of at most one

  /** The deque holds the last accepted call only, and nothing later was accepted. */
  ghost predicate HoldsLast(deque: seq<int>, log: seq<Call>, key: Key) {
    && |deque| <= 1
    && forall c :: c in log && c.key == key ==> |deque| == 1 && c.at <= deque[0]
  }

  lemma {:induction false} NoneBetween(calls: seq<Call>, key: Key, lo: int, hi: int)
    requires forall c :: c in calls && c.key == key ==> c.at < lo
    ensures CountBetween(calls, key, lo, hi) == 0
  {
    if |calls| > 0 {
      NoneBetween(calls[..|calls| - 1], key, lo, hi);
      assert calls[|calls| - 1] in calls;
    }
  }

  lemma CountAppend(calls: seq<Call>, c: Call, key: Key, lo: int, hi: int)
    ensures CountBetween(calls + [c], key, lo, hi)
         == CountBetween(calls, key, lo, hi) + if c.key == key && lo <= c.at < hi then 1 else 0
  {
    assert (calls + [c])[..|calls|] == calls;
  }

  lemma DropOne(deque: seq<int>, window: int, now: int)
    requires |deque| <= 1
    ensures DropExpired(deque, window, now) == if |deque| == 1 && now - deque[0] >= window then [] else deque
  {
    assert |deque| == 1 ==> deque[1..] == [];
  }

  /** A call a window after the last one is alone in its windows. */
  lemma OneMore(limits: Limits, key: Key, deque: seq<int>, log: seq<Call>, c: Call)
    requires LimitOf(limits, key).count == 1 && c.key == key && HoldsLast(deque, log, key)
    requires |deque| == 1 ==> c.at - deque[0] >= LengthOf(limits, key)
    requires forall lo: int :: WithinLimit(limits, key, log, lo)
    ensures HoldsLast([c.at], log + [c], key)
    ensures forall lo: int :: WithinLimit(limits, key, log + [c], lo)
  {
    var window := LengthOf(limits, key);
    forall lo: int
      ensures WithinLimit(limits, key, log + [c], lo)
    {
      assert WithinLimit(limits, key, log, lo);
      CountAppend(log, c, key, lo, lo + window);
      if lo <= c.at < lo + window {
        NoneBetween(log, key, lo, lo + window);
      }
    }
  }

  lemma OtherKeysCall(limits: Limits, key: Key, log: seq<Call>, c: Call)
    requires c.key != key && forall lo: int :: WithinLimit(limits, key, log, lo)
    ensures forall lo: int :: WithinLimit(limits, key, log + [c], lo)
  {
    forall lo: int
      ensures WithinLimit(limits, key, log + [c], lo)
    {
      assert WithinLimit(limits, key, log, lo);
      CountAppend(log, c, key, lo, lo + LengthOf(limits, key));
    }
  }

  /** Whatever the order of the checks, calls accepted one at a time are a window apart. */
  lemma {:induction false} OneAtATime(limits: Limits, key: Key, attempts: seq<Call>)
    requires LimitOf(limits, key).count <= 1
    ensures HoldsLast(DequeOf(MemoryRun(limits, attempts), key), MemoryLog(limits, attempts), key)
    ensures LimitOf(limits, key).count <= 0 ==> DequeOf(MemoryRun(limits, attempts), key) == []
    ensures KeepsLimit(limits, key, attempts)
  {
    if |attempts| > 0 {
      var front, c := attempts[..|attempts| - 1], attempts[|attempts| - 1];
      var deque, log := DequeOf(MemoryRun(limits, front), key), MemoryLog(limits, front);
      OneAtATime(limits, key, front);
      DropOne(deque, LengthOf(limits, key), c.at);
      if c.key != key {
        OtherKeysCall(limits, key, log, c);
      } else if MemoryAcceptsLast(limits, attempts) {
        OneMore(limits, key, deque, log, c);
      }
    }
  }

  // ---- a limit of two or more

  function Zeros(key: Key, n: nat): (r: seq<Call>)
    ensures |r| == n
  {
    if n == 0 then [] else Zeros(key, n - 1) + [Call(key, 0)]
  }

  /** As many checks at time zero as the limit allows, one a window later, and one a little before that. */
  function OutOfOrder(key: Key, n: nat, window: int, back: int): seq<Call> {
    Zeros(key, n) + [Call(key, window)] + [Call(key, window - back)]
  }

  function ZeroTimes(n: nat): (r: seq<int>)
    ensures |r| == n && forall i :: 0 <= i < n ==> r[i] == 0
  {
    if n == 0 then [] else ZeroTimes(n - 1) + [0]
  }

  lemma {:induction false} DropAll(times: seq<int>, window: int, now: int)
    requires forall i :: 0 <= i < |times| ==> now - times[i] >= window
    ensures DropExpired(times, window, now) == []
  {
    if |times| > 0 {
      DropAll(times[1..], window, now);
    }
  }

  lemma HeadIsLive(times: seq<int>, window: int, now: int)
    requires |times| > 0 ==> now - times[0] < window
    ensures DropExpired(times, window, now) == times
  {
  }

  /** One more check, when the deque leaves room for it. */
  lemma CheckAccepted(limits: Limits, key: Key, front: seq<Call>, at: int, live: seq<int>)
    requires live == DropExpired(DequeOf(MemoryRun(limits, front), key), LengthOf(limits, key), at)
    requires |live| < LimitOf(limits, key).count && MemoryLog(limits, front) == front
    ensures MemoryLog(limits, front + [Call(key, at)]) == front + [Call(key, at)]
    ensures DequeOf(MemoryRun(limits, front + [Call(key, at)]), key) == live + [at]
  {
    assert (front + [Call(key, at)])[..|front|] == front;
  }

  lemma {:induction false} ZerosAccepted(limits: Limits, key: Key, n: nat)
    requires n <= LimitOf(limits, key).count
    ensures MemoryLog(limits, Zeros(key, n)) == Zeros(key, n)
    ensures DequeOf(MemoryRun(limits, Zeros(key, n)), key) == ZeroTimes(n)
  {
    if n > 0 {
      ZerosAccepted(limits, key, n - 1);
      HeadIsLive(ZeroTimes(n - 1), LengthOf(limits, key), 0);
      CheckAccepted(limits, key, Zeros(key, n - 1), 0, ZeroTimes(n - 1));
    }
  }

  lemma {:induction false} ZerosCounted(key: Key, n: nat, hi: int)
    requires hi > 0
    ensures CountBetween(Zeros(key, n), key, 0, hi) == n
  {
    if n > 0 {
      var front, c := Zeros(key, n - 1), Call(key, 0);
      ZerosCounted(key, n - 1, hi);
      CountAppend(front, c, key, 0, hi);
      assert Zeros(key, n) == front + [c];
    }
  }

  lemma {:induction false} ZerosAtZero(key: Key, n: nat)
    ensures forall i :: 0 <= i < n ==> Zeros(key, n)[i].at == 0
  {
    if n > 0 {
      ZerosAtZero(key, n - 1);
    }
  }

  lemma OutOfOrderAccepted(limits: Limits, key: Key, back: int)
    requires LimitOf(limits, key).count >= 2 && 0 < back <= LengthOf(limits, key)
    ensures var x := OutOfOrder(key, LimitOf(limits, key).count, LengthOf(limits, key), back);
      MemoryLog(limits, x) == x
  {
    var n, window := LimitOf(limits, key).count, LengthOf(limits, key);
    ZerosAccepted(limits, key, n);
    DropAll(ZeroTimes(n), window, window);
    CheckAccepted(limits, key, Zeros(key, n), window, []);
    DropOne([window], window, window - back);
    CheckAccepted(limits, key, Zeros(key, n) + [Call(key, window)], window - back, [window]);
  }

  lemma OutOfOrderCounted(key: Key, n: nat, window: int, back: int)
    requires 0 < back <= window
    ensures CountBetween(OutOfOrder(key, n, window, back), key, 0, window) == n + 1
  {
    ZerosCounted(key, n, window);
    CountAppend(Zeros(key, n), Call(key, window), key, 0, window);
    CountAppend(Zeros(key, n) + [Call(key, window)], Call(key, window - back), key, 0, window);
  }

  /** All of these checks are let through, one more than the limit in the first window. */
  lemma OutOfOrderExceeds(limits: Limits, key: Key, back: int)
    requires LimitOf(limits, key).count >= 2 && 0 < back <= LengthOf(limits, key)
    ensures var x := OutOfOrder(key, LimitOf(limits, key).count, LengthOf(limits, key), back);
      && MemoryLog(limits, x) == x && BehindBy(x, back)
      && CountBetween(x, key, 0, LengthOf(limits, key)) == LimitOf(limits, key).count + 1
  {
    OutOfOrderAccepted(limits, key, back);
    OutOfOrderCounted(key, LimitOf(limits, key).count, LengthOf(limits, key), back);
    ZerosAtZero(key, LimitOf(limits, key).count);
  }

  /**
   The limit of a key holds on every run of checks in which readings are at most `back`
   behind earlier ones, exactly when it admits at most one call or none is behind at all.
   */
  lemma LimitHoldsIff(limits: Limits, key: Key, back: int)
    ensures (forall attempts :: BehindBy(attempts, back) ==> KeepsLimit(limits, key, attempts))
      <==> LimitOf(limits, key).count <= 1 || back <= 0
  {
    var count := LimitOf(limits, key).count;
    if count <= 1 || back <= 0 {
      forall attempts | BehindBy(attempts, back)
        ensures KeepsLimit(limits, key, attempts)
      {
        if count <= 1 {
          OneAtATime(limits, key, attempts);
        } else {
          OrderedKeepsLimit(limits, key, attempts);
        }
      }
    } else {
      var x := OutOfOrder(key, count, LengthOf(limits, key), 1);
      OutOfOrderExceeds(limits, key, 1);
      assert BehindBy(x, back);
      assert !WithinLimit(limits, key, MemoryLog(limits, x), 0);
    }
  }
}
