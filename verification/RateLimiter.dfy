/** The sliding-window-log rate limiter. Clock readings are arguments. */
module RateLimiting {
  datatype Limits = Limits(maxRequests: int, windowMs: int)

  /** retryAfterMs is not a number when a request is refused with nothing in the window. */
  datatype Retry = Millis(ms: int) | NotANumber
  datatype Verdict = Verdict(allowed: bool, retryAfter: Retry)

  type Buckets = map<string, seq<int>>

  datatype Event = Check(key: string, now: int) | Cleanup(now: int)

  // ---- What the operations compute ----

  /** ts.filter(t => t > cutoff) */
  function After(ts: seq<int>, cutoff: int): seq<int> {
    if ts == [] then []
    else (if ts[0] > cutoff then [ts[0]] else []) + After(ts[1..], cutoff)
  }

  function Bucket(b: Buckets, key: string): seq<int> {
    if key in b then b[key] else []
  }

  function CheckVerdict(lim: Limits, b: Buckets, key: string, now: int): Verdict {
    var active := After(Bucket(b, key), now - lim.windowMs);
    if |active| < lim.maxRequests then Verdict(true, Millis(0))
    else if active == [] then Verdict(false, NotANumber)
    else
      var wait := active[0] + lim.windowMs - now;
      Verdict(false, Millis(if wait < 1 then 1 else wait))
  }

  function CheckBuckets(lim: Limits, b: Buckets, key: string, now: int): Buckets {
    var active := After(Bucket(b, key), now - lim.windowMs);
    b[key := if |active| < lim.maxRequests then active + [now] else active]
  }

  function CleanupBuckets(lim: Limits, b: Buckets, now: int): Buckets {
    map k | k in b && After(b[k], now - lim.windowMs) != [] :: After(b[k], now - lim.windowMs)
  }

  // ---- The limiter itself ----

  class RateLimiter {
    var buckets: Buckets
    const limits: Limits

    constructor (limits: Limits)
      ensures this.limits == limits && buckets == map[]
    {
      this.limits := limits;
      buckets := map[];
    }

    method Check(key: string, now: int) returns (verdict: Verdict)
      modifies this
      ensures verdict == CheckVerdict(limits, old(buckets), key, now)
      ensures verdict.allowed ==> verdict.retryAfter == Millis(0)
      ensures buckets == CheckBuckets(limits, old(buckets), key, now)
    {
      var cutoff := now - limits.windowMs;
      if key !in buckets {
        buckets := buckets[key := []];
      }
      var active := After(buckets[key], cutoff);
      buckets := buckets[key := active];
      if |active| >= limits.maxRequests {
        if active == [] {
          return Verdict(false, NotANumber);
        }
        var retryAfterMs := active[0] + limits.windowMs - now;
        return Verdict(false, Millis(if retryAfterMs < 1 then 1 else retryAfterMs));
      }
      buckets := buckets[key := active + [now]];
      verdict := Verdict(true, Millis(0));
    }

    method Cleanup(now: int)
      modifies this
      ensures buckets == CleanupBuckets(limits, old(buckets), now)
    {
      var cutoff := now - limits.windowMs;
      var todo := buckets.Keys;
      ghost var was := buckets;
      while todo != {}
        invariant todo <= buckets.Keys
        invariant forall k :: Tidy(buckets, was, todo, cutoff, k)
        decreases |todo|
      {
        var key :| key in todo;
        var active := After(buckets[key], cutoff);
        ghost var b, before := buckets, todo;
        if active == [] {
          buckets := buckets - {key};
        } else {
          buckets := buckets[key := active];
        }
        todo := todo - {key};
        forall k
          ensures Tidy(buckets, was, todo, cutoff, k)
        {
          assert Tidy(b, was, before, cutoff, k);
        }
      }
      forall k
        ensures k in buckets <==> k in CleanupBuckets(limits, was, now)
        ensures k in buckets ==> buckets[k] == CleanupBuckets(limits, was, now)[k]
      {
        assert Tidy(buckets, was, {}, cutoff, k);
      }
    }
  }

  /** Key k is as it was while it is still to be visited, and pruned or gone afterwards. */
  predicate Tidy(b: Buckets, was: Buckets, todo: set<string>, cutoff: int, k: string) {
    if k in todo then k in b && k in was && b[k] == was[k]
    else
      && (k in b <==> k in was && After(was[k], cutoff) != [])
      && (k in b ==> b[k] == After(was[k], cutoff))
  }

  // ---- Runs ----

  function Apply(lim: Limits, b: Buckets, e: Event): Buckets {
    match e
    case Check(key, now) => CheckBuckets(lim, b, key, now)
    case Cleanup(now) => CleanupBuckets(lim, b, now)
  }

  function Final(lim: Limits, b: Buckets, es: seq<Event>): Buckets
    decreases |es|
  {
    if es == [] then b else Final(lim, Apply(lim, b, es[0]), es[1..])
  }

  /** The verdicts of all checks of a run, in order. */
  function Verdicts(lim: Limits, b: Buckets, es: seq<Event>): seq<Verdict>
    decreases |es|
  {
    if es == [] then []
    else
      (match es[0] case Check(key, now) => [CheckVerdict(lim, b, key, now)] case Cleanup(_) => [])
      + Verdicts(lim, Apply(lim, b, es[0]), es[1..])
  }

  function GrantOf(lim: Limits, b: Buckets, e: Event, key: string): seq<int> {
    if e.Check? && e.key == key && CheckVerdict(lim, b, key, e.now).allowed then [e.now] else []
  }

  /** The times at which a run allowed a request of one key. */
  function Granted(lim: Limits, b: Buckets, es: seq<Event>, key: string): seq<int>
    decreases |es|
  {
    if es == [] then []
    else GrantOf(lim, b, es[0], key) + Granted(lim, Apply(lim, b, es[0]), es[1..], key)
  }

  /** Clock readings never go back and start no earlier than clock. */
  predicate ClockOk(clock: int, es: seq<Event>)
    decreases |es|
  {
    es == [] || (clock <= es[0].now && ClockOk(es[0].now, es[1..]))
  }

  function LastClock(clock: int, es: seq<Event>): int {
    if es == [] then clock else es[|es| - 1].now
  }

  /** How many of ts lie in (x - width, x]. */
  function Within(ts: seq<int>, x: int, width: int): nat {
    if ts == [] then 0
    else (if x - width < ts[0] <= x then 1 else 0) + Within(ts[1..], x, width)
  }

  // ---- Facts about filtered logs ----

  lemma {:induction false} AfterAgain(ts: seq<int>, c: int, d: int)
    requires c <= d
    ensures After(After(ts, c), d) == After(ts, d)
  {
    if ts != [] {
      AfterAgain(ts[1..], c, d);
      var rest := After(ts[1..], c);
      if ts[0] > c {
        assert ([ts[0]] + rest)[1..] == rest;
      } else {
        assert [] + rest == rest;
      }
    }
  }

  lemma {:induction false} AfterConcat(a: seq<int>, b: seq<int>, c: int)
    ensures After(a + b, c) == After(a, c) + After(b, c)
  {
    if a == [] {
      assert a + b == b;
    } else {
      AfterConcat(a[1..], b, c);
      assert (a + b)[1..] == a[1..] + b;
      var head := if a[0] > c then [a[0]] else [];
      var x, y := After(a[1..], c), After(b, c);
      assert head + (x + y) == head + x + y;
    }
  }

  lemma {:induction false} WithinConcat(a: seq<int>, b: seq<int>, x: int, width: int)
    ensures Within(a + b, x, width) == Within(a, x, width) + Within(b, x, width)
  {
    if a == [] {
      assert a + b == b;
    } else {
      WithinConcat(a[1..], b, x, width);
      assert (a + b)[1..] == a[1..] + b;
    }
  }

  /** A window ending at or after now holds no more of a log than is still active at now. */
  lemma {:induction false} WithinActive(ts: seq<int>, x: int, now: int, width: int)
    requires now <= x
    ensures Within(ts, x, width) <= |After(ts, now - width)|
  {
    if ts != [] {
      WithinActive(ts[1..], x, now, width);
    }
  }

  // ---- Safety over runs ----

  /** Two logs that no filter at or after cutoff can tell apart. */
  ghost predicate SameAfter(a: seq<int>, b: seq<int>, cutoff: int) {
    forall c :: c >= cutoff ==> After(a, c) == After(b, c)
  }

  ghost predicate Sparse(lim: Limits, log: seq<int>) {
    forall x :: Within(log, x, lim.windowMs) <= if lim.maxRequests > 0 then lim.maxRequests else 0
  }

  lemma SameAfterPruned(a: seq<int>, b: seq<int>, cutoff: int, pruneAt: int)
    requires SameAfter(a, b, cutoff) && cutoff <= pruneAt
    ensures SameAfter(After(a, pruneAt), b, pruneAt)
    ensures After(a, pruneAt) == After(b, pruneAt)
  {
    forall c | c >= pruneAt
      ensures After(After(a, pruneAt), c) == After(b, c)
    {
      AfterAgain(a, pruneAt, c);
    }
  }

  lemma SameAfterPushed(a: seq<int>, b: seq<int>, cutoff: int, now: int)
    requires SameAfter(a, b, cutoff)
    ensures SameAfter(a + [now], b + [now], cutoff)
  {
    forall c | c >= cutoff
      ensures After(a + [now], c) == After(b + [now], c)
    {
      AfterConcat(a, [now], c);
      AfterConcat(b, [now], c);
    }
  }

  lemma SparsePushed(lim: Limits, log: seq<int>, now: int)
    requires Sparse(lim, log) && |After(log, now - lim.windowMs)| < lim.maxRequests
    ensures Sparse(lim, log + [now])
  {
    forall x
      ensures Within(log + [now], x, lim.windowMs) <= lim.maxRequests
    {
      WithinConcat(log, [now], x, lim.windowMs);
      if now <= x {
        WithinActive(log, x, now, lim.windowMs);
      }
    }
  }

  /**
   The bucket may have forgotten old entries of the whole log of its key, but no
   later check can tell the difference: every event keeps this, for every key.
   */
  lemma LogStep(lim: Limits, b: Buckets, clock: int, key: string, log: seq<int>, e: Event)
    requires SameAfter(Bucket(b, key), log, clock - lim.windowMs) && Sparse(lim, log) && clock <= e.now
    ensures var log' := log + GrantOf(lim, b, e, key);
      SameAfter(Bucket(Apply(lim, b, e), key), log', e.now - lim.windowMs) && Sparse(lim, log')
  {
    assert log + [] == log;
    var cutoff := e.now - lim.windowMs;
    SameAfterPruned(Bucket(b, key), log, clock - lim.windowMs, cutoff);
    if e.Check? && e.key == key {
      LogCheck(lim, b, key, log, e.now);
    } else if e.Cleanup? {
      assert Bucket(Apply(lim, b, e), key) == After(Bucket(b, key), cutoff);
    }
  }

  lemma LogCheck(lim: Limits, b: Buckets, key: string, log: seq<int>, now: int)
    requires var active := After(Bucket(b, key), now - lim.windowMs);
      SameAfter(active, log, now - lim.windowMs) && active == After(log, now - lim.windowMs) && Sparse(lim, log)
    ensures var log' := log + GrantOf(lim, b, Check(key, now), key);
      SameAfter(Bucket(CheckBuckets(lim, b, key, now), key), log', now - lim.windowMs) && Sparse(lim, log')
  {
    var active := After(Bucket(b, key), now - lim.windowMs);
    if |active| < lim.maxRequests {
      SameAfterPushed(active, log, now - lim.windowMs, now);
      SparsePushed(lim, log, now);
      assert GrantOf(lim, b, Check(key, now), key) == [now];
    } else {
      assert log + [] == log;
      assert GrantOf(lim, b, Check(key, now), key) == [];
    }
  }

  lemma GrantedCons(lim: Limits, b: Buckets, key: string, log: seq<int>, es: seq<Event>)
    requires es != []
    ensures log + Granted(lim, b, es, key)
         == (log + GrantOf(lim, b, es[0], key)) + Granted(lim, Apply(lim, b, es[0]), es[1..], key)
  {
    var grant, rest := GrantOf(lim, b, es[0], key), Granted(lim, Apply(lim, b, es[0]), es[1..], key);
    assert Granted(lim, b, es, key) == grant + rest;
    Associate(log, grant, rest);
  }

  lemma Associate(a: seq<int>, b: seq<int>, c: seq<int>)
    ensures a + (b + c) == (a + b) + c
  {
  }

  lemma {:induction false} LogRun(lim: Limits, b: Buckets, clock: int, key: string, log: seq<int>, es: seq<Event>)
    requires SameAfter(Bucket(b, key), log, clock - lim.windowMs) && Sparse(lim, log) && ClockOk(clock, es)
    ensures Sparse(lim, log + Granted(lim, b, es, key))
    decreases |es|
  {
    if es == [] {
      assert log + [] == log;
    } else {
      var b' := Apply(lim, b, es[0]);
      var grant := GrantOf(lim, b, es[0], key);
      LogStep(lim, b, clock, key, log, es[0]);
      LogRun(lim, b', es[0].now, key, log + grant, es[1..]);
      GrantedCons(lim, b, key, log, es);
    }
  }

  /**
   Sliding-window safety: in any run of checks and cleanups, over any keys, no window
   (x - windowMs, x] holds more than maxRequests allowed requests of one key.
   */
  lemma SlidingWindowSafety(lim: Limits, es: seq<Event>, clock: int, key: string, x: int)
    requires ClockOk(clock, es)
    ensures Within(Granted(lim, map[], es, key), x, lim.windowMs) <= if lim.maxRequests > 0 then lim.maxRequests else 0
  {
    LogRun(lim, map[], clock, key, [], es);
    assert [] + Granted(lim, map[], es, key) == Granted(lim, map[], es, key);
  }

  lemma {:induction false} LogKept(lim: Limits, b: Buckets, clock: int, key: string, log: seq<int>, es: seq<Event>,
                                  all: seq<int>)
    requires SameAfter(Bucket(b, key), log, clock - lim.windowMs) && Sparse(lim, log) && ClockOk(clock, es)
    requires all == log + Granted(lim, b, es, key)
    ensures SameAfter(Bucket(Final(lim, b, es), key), all, LastClock(clock, es) - lim.windowMs)
    decreases |es|
  {
    if es == [] {
      assert log + [] == log;
    } else {
      var e := es[0];
      LogStep(lim, b, clock, key, log, e);
      GrantedCons(lim, b, key, log, es);
      LogKept(lim, Apply(lim, b, e), e.now, key, log + GrantOf(lim, b, e, key), es[1..], all);
      FinalStep(lim, b, clock, es);
    }
  }

  lemma FinalStep(lim: Limits, b: Buckets, clock: int, es: seq<Event>)
    requires es != []
    ensures Final(lim, b, es) == Final(lim, Apply(lim, b, es[0]), es[1..])
    ensures LastClock(clock, es) == LastClock(es[0].now, es[1..])
  {
  }

  lemma {:induction false} GrantedBy(lim: Limits, b: Buckets, clock: int, key: string, es: seq<Event>, i: nat)
    requires ClockOk(clock, es) && i < |Granted(lim, b, es, key)|
    ensures clock <= Granted(lim, b, es, key)[i] <= LastClock(clock, es)
    decreases |es|
  {
    var grant := GrantOf(lim, b, es[0], key);
    if i >= |grant| {
      GrantedBy(lim, Apply(lim, b, es[0]), es[0].now, key, es[1..], i - |grant|);
    } else {
      ClockAdvances(es[0].now, es[1..]);
    }
  }

  lemma {:induction false} ClockAdvances(clock: int, es: seq<Event>)
    requires ClockOk(clock, es)
    ensures clock <= LastClock(clock, es)
    decreases |es|
  {
    if es != [] {
      ClockAdvances(es[0].now, es[1..]);
    }
  }

  lemma {:induction false} WithinAll(ts: seq<int>, x: int, width: int)
    requires forall i :: 0 <= i < |ts| ==> ts[i] <= x
    ensures Within(ts, x, width) == |After(ts, x - width)|
  {
    if ts != [] {
      WithinAll(ts[1..], x, width);
    }
  }

  /**
   Exactly which checks are allowed: those that find fewer than maxRequests allowed requests of the key in
   the window (t - windowMs, t], after any run whatsoever; and they advise no delay.
   */
  lemma VerdictExactly(lim: Limits, start: int, es: seq<Event>, key: string, t: int)
    requires ClockOk(start, es) && LastClock(start, es) <= t
    ensures var v := CheckVerdict(lim, Final(lim, map[], es), key, t);
      && (v.allowed <==> Within(Granted(lim, map[], es, key), t, lim.windowMs) < lim.maxRequests)
      && (v.allowed ==> v.retryAfter == Millis(0))
  {
    var log := Granted(lim, map[], es, key);
    assert [] + log == log;
    LogKept(lim, map[], start, key, [], es, log);
    forall i | 0 <= i < |log|
      ensures log[i] <= t
    {
      GrantedBy(lim, map[], start, key, es, i);
    }
    WithinAll(log, t, lim.windowMs);
  }

  // ---- The shape of buckets ----

  /** Ascending from front to back, and nothing later than clock. */
  predicate Ascending(ts: seq<int>, clock: int) {
    ts == [] || (ts[0] <= (if |ts| > 1 then ts[1] else clock) && Ascending(ts[1..], clock))
  }

  lemma {:induction false} AscendingAfter(ts: seq<int>, clock: int, cutoff: int, now: int)
    requires Ascending(ts, clock) && clock <= now
    ensures Ascending(After(ts, cutoff), now)
    ensures |After(ts, cutoff)| <= |ts|
    ensures ts != [] && ts[0] <= cutoff ==> |After(ts, cutoff)| < |ts|
    ensures ts != [] && ts[0] > cutoff ==> After(ts, cutoff) == ts
  {
    if ts != [] {
      AscendingAfter(ts[1..], clock, cutoff, now);
      assert [] + After(ts[1..], cutoff) == After(ts[1..], cutoff);
    }
  }

  lemma {:induction false} AscendingPush(ts: seq<int>, now: int)
    requires Ascending(ts, now)
    ensures Ascending(ts + [now], now)
  {
    if ts != [] {
      AscendingPush(ts[1..], now);
      assert (ts + [now])[1..] == ts[1..] + [now];
    }
  }

  lemma {:induction false} AscendingSorted(ts: seq<int>, clock: int)
    requires Ascending(ts, clock)
    ensures forall i, j :: 0 <= i <= j < |ts| ==> ts[i] <= ts[j] <= clock
  {
    if ts != [] {
      AscendingSorted(ts[1..], clock);
    }
  }

  predicate BucketOk(lim: Limits, bucket: seq<int>, clock: int) {
    Ascending(bucket, clock) && |bucket| <= if lim.maxRequests > 0 then lim.maxRequests else 0
  }

  lemma {:induction false} BucketRun(lim: Limits, b: Buckets, clock: int, key: string, es: seq<Event>)
    requires BucketOk(lim, Bucket(b, key), clock) && ClockOk(clock, es)
    ensures BucketOk(lim, Bucket(Final(lim, b, es), key), LastClock(clock, es))
    decreases |es|
  {
    if es != [] {
      BucketStep(lim, b, clock, key, es[0]);
      BucketRun(lim, Apply(lim, b, es[0]), es[0].now, key, es[1..]);
    }
  }

  lemma BucketStep(lim: Limits, b: Buckets, clock: int, key: string, e: Event)
    requires BucketOk(lim, Bucket(b, key), clock) && clock <= e.now
    ensures BucketOk(lim, Bucket(Apply(lim, b, e), key), e.now)
  {
    var bucket, active := Bucket(b, key), After(Bucket(b, key), e.now - lim.windowMs);
    AscendingAfter(bucket, clock, e.now - lim.windowMs, e.now);
    if e.Cleanup? {
      assert Bucket(Apply(lim, b, e), key) == active;
    } else if e.key == key {
      AscendingPush(active, e.now);
    } else {
      assert Bucket(Apply(lim, b, e), key) == bucket;
      AscendingLater(bucket, clock, e.now);
    }
  }

  lemma {:induction false} AscendingLater(ts: seq<int>, clock: int, now: int)
    requires Ascending(ts, clock) && clock <= now
    ensures Ascending(ts, now)
  {
    if ts != [] {
      AscendingLater(ts[1..], clock, now);
    }
  }

  /** In every run, every bucket is sorted and holds at most maxRequests entries. */
  lemma BucketsStaySorted(lim: Limits, es: seq<Event>, clock: int, key: string)
    requires ClockOk(clock, es)
    ensures var bucket := Bucket(Final(lim, map[], es), key);
      && (forall i, j :: 0 <= i <= j < |bucket| ==> bucket[i] <= bucket[j])
      && |bucket| <= if lim.maxRequests > 0 then lim.maxRequests else 0
  {
    BucketRun(lim, map[], clock, key, es);
    AscendingSorted(Bucket(Final(lim, map[], es), key), LastClock(clock, es));
  }

  // ---- Retry advice ----

  /** While its oldest entry stays in the window, a full bucket refuses everything. */
  lemma {:induction false} DeniedUntil(lim: Limits, b: Buckets, key: string, es: seq<Event>, clock: int)
    requires lim.maxRequests >= 1 && |Bucket(b, key)| == lim.maxRequests
    requires Ascending(Bucket(b, key), clock) && ClockOk(clock, es)
    requires forall i :: 0 <= i < |es| ==> es[i].now < Bucket(b, key)[0] + lim.windowMs
    ensures Bucket(Final(lim, b, es), key) == Bucket(b, key)
    ensures Granted(lim, b, es, key) == []
    decreases |es|
  {
    if es != [] {
      var e := es[0];
      AscendingAfter(Bucket(b, key), clock, e.now - lim.windowMs, e.now);
      assert Bucket(Apply(lim, b, e), key) == Bucket(b, key);
      DeniedUntil(lim, Apply(lim, b, e), key, es[1..], e.now);
    }
  }

  lemma RetryFrom(lim: Limits, b: Buckets, clock: int, key: string, t: int, between: seq<Event>)
    requires lim.maxRequests >= 1 && BucketOk(lim, Bucket(b, key), clock) && clock <= t
    requires ClockOk(t, between)
    requires !CheckVerdict(lim, b, key, t).allowed
    ensures RetryExact(lim, CheckVerdict(lim, b, key, t).retryAfter, CheckBuckets(lim, b, key, t), key, t, between)
  {
    var cutoff := t - lim.windowMs;
    var active := After(Bucket(b, key), cutoff);
    AscendingAfter(Bucket(b, key), clock, cutoff, t);
    assert Bucket(CheckBuckets(lim, b, key, t), key) == active;
    AfterBeyond(Bucket(b, key), cutoff);
    RetryOf(lim, CheckBuckets(lim, b, key, t), active, key, t, between);
  }

  lemma {:induction false} AfterBeyond(ts: seq<int>, cutoff: int)
    ensures forall i :: 0 <= i < |After(ts, cutoff)| ==> After(ts, cutoff)[i] > cutoff
  {
    if ts != [] {
      AfterBeyond(ts[1..], cutoff);
    }
  }

  /** A full bucket whose oldest entry is still in the window. */
  lemma RetryOf(lim: Limits, denied: Buckets, active: seq<int>, key: string, t: int, between: seq<Event>)
    requires 1 <= |active| == lim.maxRequests && Bucket(denied, key) == active
    requires Ascending(active, t) && active[0] > t - lim.windowMs && ClockOk(t, between)
    ensures RetryExact(lim, Millis(active[0] + lim.windowMs - t), denied, key, t, between)
  {
    if Before(between, active[0] + lim.windowMs) {
      DeniedUntil(lim, denied, key, between, t);
      AscendingAfter(active, t, active[0], t);
    }
  }

  predicate Before(es: seq<Event>, t: int) {
    forall i :: 0 <= i < |es| ==> es[i].now < t
  }

  /** The advice is a positive delay; refusals last until it has passed, and then end. */
  predicate RetryExact(lim: Limits, advice: Retry, denied: Buckets, key: string, t: int, between: seq<Event>) {
    && advice.Millis? && advice.ms >= 1
    && (Before(between, t + advice.ms) ==>
      && Granted(lim, denied, between, key) == []
      && CheckVerdict(lim, Final(lim, denied, between), key, t + advice.ms).allowed)
  }

  /**
   In every run the advice of a denial is a number if and only if the limit is at least one; with
   a lower limit every check there is, the very first one included, is denied without one.
   */
  lemma AdviceIsNumber(lim: Limits, start: int, before: seq<Event>, key: string, t: int)
    requires ClockOk(start, before) && LastClock(start, before) <= t
    ensures var v := CheckVerdict(lim, Final(lim, map[], before), key, t);
      && (!v.allowed ==> (v.retryAfter.Millis? <==> lim.maxRequests >= 1))
      && (lim.maxRequests < 1 ==> v == Verdict(false, NotANumber))
  {
    BucketRun(lim, map[], start, key, before);
    AscendingAfter(Bucket(Final(lim, map[], before), key), LastClock(start, before), t - lim.windowMs, t);
  }

  /**
   Exact retry advice, for a limit of at least one and for no other: after any history, a denial at
   time t advising r means that every check on that key before t + r is denied too, whatever else
   happens, and one at t + r is allowed.
   */
  lemma RetryAdviceExact(lim: Limits, start: int, before: seq<Event>, key: string, t: int, between: seq<Event>)
    requires ClockOk(start, before) && LastClock(start, before) <= t && ClockOk(t, between)
    requires !CheckVerdict(lim, Final(lim, map[], before), key, t).allowed
    ensures var b := Final(lim, map[], before);
      RetryExact(lim, CheckVerdict(lim, b, key, t).retryAfter, CheckBuckets(lim, b, key, t), key, t, between)
      <==> lim.maxRequests >= 1
  {
    AdviceIsNumber(lim, start, before, key, t);
    if lim.maxRequests >= 1 {
      BucketRun(lim, map[], start, key, before);
      RetryFrom(lim, Final(lim, map[], before), LastClock(start, before), key, t, between);
    }
  }

  // ---- Cleanup ----

  /** Two bucket maps that no check from clock on can tell apart. */
  ghost predicate Alike(lim: Limits, a: Buckets, b: Buckets, clock: int) {
    forall k :: SameAfter(Bucket(a, k), Bucket(b, k), clock - lim.windowMs)
  }

  lemma AlikeBucket(lim: Limits, a: Buckets, b: Buckets, clock: int, e: Event, k: string)
    requires SameAfter(Bucket(a, k), Bucket(b, k), clock - lim.windowMs) && clock <= e.now
    ensures SameAfter(Bucket(Apply(lim, a, e), k), Bucket(Apply(lim, b, e), k), e.now - lim.windowMs)
    ensures e.Check? && e.key == k ==> CheckVerdict(lim, a, k, e.now) == CheckVerdict(lim, b, k, e.now)
  {
    var cutoff := e.now - lim.windowMs;
    assert After(Bucket(a, k), cutoff) == After(Bucket(b, k), cutoff);
    if e.Cleanup? {
      assert Bucket(Apply(lim, a, e), k) == After(Bucket(a, k), cutoff);
      assert Bucket(Apply(lim, b, e), k) == After(Bucket(b, k), cutoff);
    }
  }

  lemma AlikeStep(lim: Limits, a: Buckets, b: Buckets, clock: int, e: Event)
    requires Alike(lim, a, b, clock) && clock <= e.now
    ensures Alike(lim, Apply(lim, a, e), Apply(lim, b, e), e.now)
    ensures e.Check? ==> CheckVerdict(lim, a, e.key, e.now) == CheckVerdict(lim, b, e.key, e.now)
  {
    forall k
      ensures SameAfter(Bucket(Apply(lim, a, e), k), Bucket(Apply(lim, b, e), k), e.now - lim.windowMs)
      ensures e.Check? && e.key == k ==> CheckVerdict(lim, a, k, e.now) == CheckVerdict(lim, b, k, e.now)
    {
      AlikeBucket(lim, a, b, clock, e, k);
    }
  }

  lemma {:induction false} AlikeVerdicts(lim: Limits, a: Buckets, b: Buckets, clock: int, es: seq<Event>)
    requires Alike(lim, a, b, clock) && ClockOk(clock, es)
    ensures Verdicts(lim, a, es) == Verdicts(lim, b, es)
    decreases |es|
  {
    if es != [] {
      AlikeStep(lim, a, b, clock, es[0]);
      AlikeVerdicts(lim, Apply(lim, a, es[0]), Apply(lim, b, es[0]), es[0].now, es[1..]);
    }
  }

  /** Cleanup is invisible: every later verdict, on every key, is what it would have been without it. */
  lemma CleanupInvisible(lim: Limits, b: Buckets, now: int, es: seq<Event>)
    requires ClockOk(now, es)
    ensures Verdicts(lim, CleanupBuckets(lim, b, now), es) == Verdicts(lim, b, es)
  {
    var cutoff := now - lim.windowMs;
    var a := CleanupBuckets(lim, b, now);
    forall k
      ensures SameAfter(Bucket(a, k), Bucket(b, k), cutoff)
    {
      assert Bucket(a, k) == After(Bucket(b, k), cutoff);
      SameAfterPruned(Bucket(b, k), Bucket(b, k), cutoff, cutoff);
    }
    AlikeVerdicts(lim, a, b, now, es);
  }
}
