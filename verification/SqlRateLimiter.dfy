/**
 The rate limiter over a table of calls.  One check is one transaction: it deletes
 every row older than its own window, whoever made the call, counts the rest, and
 either inserts and commits or rolls the deletion back.
 */
module SqlRateLimiter {
  import opened RateLimiter
  import opened RateLimiterOrder

  function KeepAfter(rows: seq<Call>, after: int): seq<Call> {
    if |rows| == 0 then []
    else
      var front, r := rows[..|rows| - 1], rows[|rows| - 1];
      if r.at > after then KeepAfter(front, after) + [r] else KeepAfter(front, after)
  }

  function SqlAccepts(rows: seq<Call>, limit: RateLimit, c: Call): bool {
    var start := c.at - Length(limit.window);
    CountAfter(KeepAfter(rows, start), c.key, start) < limit.count
  }

  function SqlCheck(rows: seq<Call>, limit: RateLimit, c: Call): seq<Call> {
    if SqlAccepts(rows, limit, c) then KeepAfter(rows, c.at - Length(limit.window)) + [c] else rows
  }

  class SqlFixedWindowRateLimiter {
    var rows: seq<Call>

    constructor ()
      ensures rows == []
    {
      rows := [];
    }

    method Check(principalId: string, toolName: string, limit: RateLimit, now: int) returns (ok: bool)
      modifies this
      ensures var c := Call(Key(principalId, toolName), now);
        ok == SqlAccepts(old(rows), limit, c) && rows == SqlCheck(old(rows), limit, c)
    {
      var committed := rows;
      var windowStart := now - Length(limit.window);
      rows := KeepAfter(rows, windowStart);
      var count := CountAfter(rows, Key(principalId, toolName), windowStart);
      if count >= limit.count {
        rows := committed;  // rollback
        return false;
      }
      rows := rows + [Call(Key(principalId, toolName), now)];
      return true;
    }
  }

  ghost function SqlRun(limits: Limits, attempts: seq<Call>): seq<Call> {
    if |attempts| == 0 then []
    else
      var c := attempts[|attempts| - 1];
      SqlCheck(SqlRun(limits, attempts[..|attempts| - 1]), LimitOf(limits, c.key), c)
  }

  ghost predicate SqlAcceptsLast(limits: Limits, attempts: seq<Call>)
    requires |attempts| > 0
  {
    var c := attempts[|attempts| - 1];
    SqlAccepts(SqlRun(limits, attempts[..|attempts| - 1]), LimitOf(limits, c.key), c)
  }

  /** The two limiters give the same answer to every call of every run on a clock that never goes back. */
  ghost predicate LimitersAgree(limits: Limits) {
    forall attempts :: |attempts| > 0 && Nondecreasing(attempts) ==>
      MemoryAcceptsLast(limits, attempts) == SqlAcceptsLast(limits, attempts)
  }

  /** All tools that allow any call at all share one window length. */
  ghost predicate CommonWindow(limits: Limits) {
    forall a, b :: limits(a).count > 0 && limits(b).count > 0 ==> limits(a).window == limits(b).window
  }

  lemma {:induction false} CountAfterAppend(calls: seq<Call>, c: Call, key: Key, after: int)
    ensures CountAfter(calls + [c], key, after) == CountAfter(calls, key, after) + if c.key == key
      && c.at > after then 1 else 0
  {
    assert (calls + [c])[..|calls|] == calls;
  }

  lemma {:induction false} KeepPreservesCount(rows: seq<Call>, start: int, key: Key, after: int)
    requires start <= after
    ensures CountAfter(KeepAfter(rows, start), key, after) == CountAfter(rows, key, after)
  {
    if |rows| > 0 {
      var front, r := rows[..|rows| - 1], rows[|rows| - 1];
      KeepPreservesCount(front, start, key, after);
      if r.at > start {
        CountAfterAppend(KeepAfter(front, start), r, key, after);
      } else {
        assert KeepAfter(rows, start) == KeepAfter(front, start);
      }
    }
  }

  /** The table still answers every question a later call of an admitting tool can ask. */
  ghost predicate TableMatches(limits: Limits, rows: seq<Call>, accepted: seq<Call>, last: int) {
    forall key, after :: LimitOf(limits, key).count > 0 && after >= last - LengthOf(limits, key) ==>
      CountAfter(rows, key, after) == CountAfter(accepted, key, after)
  }

  lemma SqlDecides(limits: Limits, rows: seq<Call>, accepted: seq<Call>, last: int, c: Call)
    requires TableMatches(limits, rows, accepted, last) && last <= c.at
    ensures SqlAccepts(rows, LimitOf(limits, c.key), c) == Admits(limits, accepted, c)
  {
    var start := c.at - LengthOf(limits, c.key);
    KeepPreservesCount(rows, start, c.key, start);
    if LimitOf(limits, c.key).count > 0 {
      assert CountAfter(rows, c.key, start) == CountAfter(accepted, c.key, start);
    }
  }

  /** Under one window the rows deleted for one key are too old for any other key's question. */
  lemma AcceptedRowsMatch(
    limits: Limits, rows: seq<Call>, accepted: seq<Call>, last: int, c: Call, key: Key, after: int)
    requires CommonWindow(limits) && TableMatches(limits, rows, accepted, last) && last <= c.at
    requires LimitOf(limits, c.key).count > 0 && LimitOf(limits, key).count > 0 && after >= c.at - LengthOf(limits, key)
    ensures CountAfter(KeepAfter(rows, c.at - LengthOf(limits, c.key)) + [c], key, after) ==
      CountAfter(accepted + [c], key, after)
  {
    var start := c.at - LengthOf(limits, c.key);
    KeepPreservesCount(rows, start, key, after);
    CountAfterAppend(KeepAfter(rows, start), c, key, after);
    CountAfterAppend(accepted, c, key, after);
  }

  lemma SqlStep(limits: Limits, rows: seq<Call>, accepted: seq<Call>, last: int, c: Call)
    requires CommonWindow(limits) && TableMatches(limits, rows, accepted, last) && last <= c.at
    ensures SqlAccepts(rows, LimitOf(limits, c.key), c) == Admits(limits, accepted, c)
    ensures TableMatches(limits, SqlCheck(rows, LimitOf(limits, c.key), c),
                         AfterAttempt(limits, accepted, c), c.at)
  {
    SqlDecides(limits, rows, accepted, last, c);
    var rows' := SqlCheck(rows, LimitOf(limits, c.key), c);
    var accepted' := AfterAttempt(limits, accepted, c);
    forall key, after | LimitOf(limits, key).count > 0 && after >= c.at - LengthOf(limits, key)
      ensures CountAfter(rows', key, after) == CountAfter(accepted', key, after)
    {
      if Admits(limits, accepted, c) {
        AcceptedRowsMatch(limits, rows, accepted, last, c, key, after);
      }
    }
  }

  lemma {:induction false} SqlRunMatches(limits: Limits, attempts: seq<Call>, last: int)
    requires CommonWindow(limits)
    requires Nondecreasing(attempts) && forall c :: c in attempts ==> c.at <= last
    ensures TableMatches(limits, SqlRun(limits, attempts), Accepted(limits, attempts), last)
  {
    if |attempts| > 0 {
      var front, c := attempts[..|attempts| - 1], attempts[|attempts| - 1];
      SqlRunMatches(limits, front, c.at);
      SqlStep(limits, SqlRun(limits, front), Accepted(limits, front), c.at, c);
    }
  }

  /** With one window length, both limiters answer every call alike. */
  lemma CommonWindowAgrees(limits: Limits, attempts: seq<Call>)
    requires CommonWindow(limits) && |attempts| > 0 && Nondecreasing(attempts)
    ensures MemoryAcceptsLast(limits, attempts) == SqlAcceptsLast(limits, attempts)
  {
    var front, c := attempts[..|attempts| - 1], attempts[|attempts| - 1];
    MemoryDecidesLikeReference(limits, attempts);
    SqlRunMatches(limits, front, c.at);
    SqlStep(limits, SqlRun(limits, front), Accepted(limits, front), c.at, c);
  }

  // ---- mixed windows

  lemma {:induction false} ZerosKept(key: Key, n: nat, after: int)
    ensures KeepAfter(Zeros(key, n), after) == if after < 0 then Zeros(key, n) else []
    ensures after < 0 ==> CountAfter(Zeros(key, n), key, after) == n
  {
    if n > 0 {
      ZerosKept(key, n - 1, after);
      CountAfterAppend(Zeros(key, n - 1), Call(key, 0), key, after);
      KeepAfterAppend(Zeros(key, n - 1), Call(key, 0), after);
    }
  }

  lemma {:induction false} KeepAfterAppend(rows: seq<Call>, c: Call, after: int)
    ensures KeepAfter(rows + [c], after) ==
      if c.at > after then KeepAfter(rows, after) + [c] else KeepAfter(rows, after)
  {
    assert (rows + [c])[..|rows|] == rows;
  }

  /** The table takes a call that leaves it within its limit, and has lost what is older than its window. */
  lemma {:induction false} TableTakes(limits: Limits, front: seq<Call>, c: Call, kept: seq<Call>)
    requires kept == KeepAfter(SqlRun(limits, front), c.at - LengthOf(limits, c.key))
    requires CountAfter(kept, c.key, c.at - LengthOf(limits, c.key)) < LimitOf(limits, c.key).count
    ensures SqlRun(limits, front + [c]) == kept + [c] && SqlAcceptsLast(limits, front + [c])
  {
    SqlRunAppend(limits, front, c);
    CheckTakes(SqlRun(limits, front), LimitOf(limits, c.key), c, kept);
  }

  lemma CheckTakes(rows: seq<Call>, limit: RateLimit, c: Call, kept: seq<Call>)
    requires kept == KeepAfter(rows, c.at - Length(limit.window))
    requires CountAfter(kept, c.key, c.at - Length(limit.window)) < limit.count
    ensures SqlAccepts(rows, limit, c) && SqlCheck(rows, limit, c) == kept + [c]
  {
  }

  lemma {:induction false} SqlRunAppend(limits: Limits, front: seq<Call>, c: Call)
    ensures SqlRun(limits, front + [c]) == SqlCheck(SqlRun(limits, front), LimitOf(limits, c.key), c)
    ensures SqlAcceptsLast(limits, front + [c]) == SqlAccepts(SqlRun(limits, front), LimitOf(limits, c.key), c)
  {
    assert (front + [c])[..|front|] == front;
  }

  lemma {:induction false} ReferenceTakes(limits: Limits, front: seq<Call>, c: Call)
    requires Admits(limits, Accepted(limits, front), c)
    ensures Accepted(limits, front + [c]) == Accepted(limits, front) + [c]
  {
    assert (front + [c])[..|front|] == front;
  }

  /** Both the reference and the table take a whole burst of calls made at time zero. */
  lemma {:induction false} BurstIsTaken(limits: Limits, key: Key, n: nat)
    requires n <= LimitOf(limits, key).count
    ensures Accepted(limits, Zeros(key, n)) == SqlRun(limits, Zeros(key, n)) == Zeros(key, n)
  {
    if n > 0 {
      var c := Call(key, 0);
      BurstIsTaken(limits, key, n - 1);
      ZerosKept(key, n - 1, 0 - LengthOf(limits, key));
      ReferenceTakes(limits, Zeros(key, n - 1), c);
      TableTakes(limits, Zeros(key, n - 1), c, Zeros(key, n - 1));
    }
  }

  /** A tool's limit is used up at time zero; one other call is checked, and then the tool again at `at`. */
  function Interrupted(limits: Limits, key: Key, other: Call, at: int): seq<Call>
    requires LimitOf(limits, key).count > 0
  {
    Zeros(key, LimitOf(limits, key).count) + [other] + [Call(key, at)]
  }

  /** The table forgets a burst when it takes a call a window later. */
  lemma {:induction false} TableForgetsBurst(limits: Limits, key: Key, n: nat, second: Call)
    requires n <= LimitOf(limits, key).count
    requires second.at == LengthOf(limits, second.key) && LimitOf(limits, second.key).count > 0
    ensures SqlRun(limits, Zeros(key, n) + [second]) == [second]
  {
    BurstIsTaken(limits, key, n);
    ZerosKept(key, n, 0);
    TableTakes(limits, Zeros(key, n), second, []);
  }

  /** A call of another key does not count. */
  lemma {:induction false} TableTakesNext(limits: Limits, front: seq<Call>, second: Call, c: Call)
    requires SqlRun(limits, front) == [second] && second.key != c.key && LimitOf(limits, c.key).count > 0
    requires second.at > c.at - LengthOf(limits, c.key)
    ensures SqlAcceptsLast(limits, front + [c])
  {
    assert [second][..0] == [];
    TableTakes(limits, front, c, [second]);
  }

  /** The deque of the burst's key knows nothing of the other call. */
  lemma {:induction false} MemoryRejectsInterrupted(limits: Limits, key: Key, other: Call, at: int)
    requires LimitOf(limits, key).count > 0 && other.key != key && at < LengthOf(limits, key)
    ensures !MemoryAcceptsLast(limits, Interrupted(limits, key, other, at))
  {
    var n := LimitOf(limits, key).count;
    ZerosAccepted(limits, key, n);
    MemoryRunAppend(limits, Zeros(key, n), other);
    MemoryRunAppend(limits, Zeros(key, n) + [other], Call(key, at));
    HeadIsLive(ZeroTimes(n), LengthOf(limits, key), at);
  }

  /** The table has lost the burst to the other call's check. */
  lemma {:induction false} TableAcceptsInterrupted(limits: Limits, key: Key, other: Call, at: int)
    requires LimitOf(limits, key).count > 0 && other.key != key && LimitOf(limits, other.key).count > 0
    requires other.at == LengthOf(limits, other.key) && other.at > at - LengthOf(limits, key)
    ensures SqlAcceptsLast(limits, Interrupted(limits, key, other, at))
  {
    var n := LimitOf(limits, key).count;
    TableForgetsBurst(limits, key, n, other);
    TableTakesNext(limits, Zeros(key, n) + [other], other, Call(key, at));
  }

  /** A full burst of a per-minute tool, one call of a per-second tool a second later, the first tool again. */
  function MixedRun(limits: Limits, perSecond: string, perMinute: string): seq<Call>
    requires limits(perMinute).count > 0
  {
    Interrupted(limits, Key("p", perMinute), Call(Key("p", perSecond), 1_000_000), 1_000_000)
  }

  /** The in-memory limiter rejects the end of the mixed run; the table accepts it. */
  lemma {:induction false} MixedWindowsDiffer(limits: Limits, perSecond: string, perMinute: string)
    requires limits(perSecond).count > 0 && limits(perSecond).window == Second
    requires limits(perMinute).count > 0 && limits(perMinute).window == Minute
    ensures var run := MixedRun(limits, perSecond, perMinute);
      Nondecreasing(run) && !MemoryAcceptsLast(limits, run) && SqlAcceptsLast(limits, run)
  {
    var key, second := Key("p", perMinute), Call(Key("p", perSecond), 1_000_000);
    ZerosAtZero(key, limits(perMinute).count);
    MemoryRejectsInterrupted(limits, key, second, 1_000_000);
    TableAcceptsInterrupted(limits, key, second, 1_000_000);
  }

  /** The limiters agree on every run exactly when the admitting tools share a window. */
  lemma AgreeIffCommonWindow(limits: Limits)
    ensures LimitersAgree(limits) <==> CommonWindow(limits)
  {
    if CommonWindow(limits) {
      forall attempts | |attempts| > 0 && Nondecreasing(attempts)
        ensures MemoryAcceptsLast(limits, attempts) == SqlAcceptsLast(limits, attempts)
      {
        CommonWindowAgrees(limits, attempts);
      }
    } else {
      var a, b :| limits(a).count > 0 && limits(b).count > 0 && limits(a).window != limits(b).window;
      if limits(a).window == Second {
        MixedWindowsDiffer(limits, a, b);
      } else {
        MixedWindowsDiffer(limits, b, a);
      }
    }
  }

  // ---- checks out of clock order

  /** The limiters answer every run alike in which readings are at most `back` behind earlier ones. */
  ghost predicate AgreeBehindBy(limits: Limits, back: nat) {
    forall attempts :: |attempts| > 0 && BehindBy(attempts, back) ==>
      MemoryAcceptsLast(limits, attempts) == SqlAcceptsLast(limits, attempts)
  }

  ghost predicate NoneAdmits(limits: Limits) {
    forall tool :: limits(tool).count <= 0
  }

  /**
   One principal uses up a tool's limit, another one's call a window later is checked, and
   then a call of the first one that had read the clock just before.
   */
  function Overtaken(limits: Limits, tool: string): seq<Call>
    requires limits(tool).count > 0
  {
    var window := Length(limits(tool).window);
    Interrupted(limits, Key("p", tool), Call(Key("q", tool), window), window - 1)
  }

  /** With any tool that admits a call, one reading behind an earlier one tells the limiters apart. */
  lemma {:induction false} OvertakenDiffers(limits: Limits, tool: string)
    requires limits(tool).count > 0
    ensures var run := Overtaken(limits, tool);
      BehindBy(run, 1) && !MemoryAcceptsLast(limits, run) && SqlAcceptsLast(limits, run)
  {
    var key, window := Key("p", tool), Length(limits(tool).window);
    ZerosAtZero(key, limits(tool).count);
    MemoryRejectsInterrupted(limits, key, Call(Key("q", tool), window), window - 1);
    TableAcceptsInterrupted(limits, key, Call(Key("q", tool), window), window - 1);
  }

  /** Out of clock order the limiters agree on every run only if no tool admits a call at all. */
  lemma AgreeBehindByIff(limits: Limits, back: nat)
    ensures AgreeBehindBy(limits, back) <==> NoneAdmits(limits) || (back == 0 && CommonWindow(limits))
  {
    if NoneAdmits(limits) {
      assert AgreeBehindBy(limits, back);
    } else if !CommonWindow(limits) {
      AgreeIffCommonWindow(limits);
      var run :| |run| > 0 && Nondecreasing(run) && MemoryAcceptsLast(limits, run) != SqlAcceptsLast(limits, run);
      assert BehindBy(run, back);
    } else if back > 0 {
      var tool :| limits(tool).count > 0;
      OvertakenDiffers(limits, tool);
      assert BehindBy(Overtaken(limits, tool), back);
    } else {
      AgreeIffCommonWindow(limits);
      forall attempts | |attempts| > 0 && BehindBy(attempts, back)
        ensures MemoryAcceptsLast(limits, attempts) == SqlAcceptsLast(limits, attempts)
      {
        assert Nondecreasing(attempts);
      }
    }
  }
}
