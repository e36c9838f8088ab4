/**
 The policy plane's evaluation: a circuit breaker and a decision cache around an asynchronous
 OPA call. A call is two atomic steps, before and after its await; clock readings are arguments.
 */
module PolicyPlane {
  import opened Options

  // ---- Circuit breaker ----

  datatype CircuitState = Closed | Open | HalfOpen
  datatype Breaker = Breaker(threshold: int, recoveryMs: int, state: CircuitState, failureCount: nat,
                             lastFailureTime: int)

  function NewBreaker(threshold: int, recoveryMs: int): Breaker {
    Breaker(threshold, recoveryMs, Closed, 0, 0)
  }

  function Fail(b: Breaker, now: int): Breaker {
    b.(failureCount := b.failureCount + 1, lastFailureTime := now,
       state := if b.failureCount + 1 >= b.threshold then Open else b.state)
  }

  function Succeed(b: Breaker): Breaker {
    b.(failureCount := 0, state := Closed)
  }

  predicate CanExecute(b: Breaker, now: int) {
    b.state == Open ==> now - b.lastFailureTime >= b.recoveryMs
  }

  /** What asking canExecute does to the breaker: an admitted probe half-opens it. */
  function Probe(b: Breaker, now: int): Breaker {
    if b.state == Open && CanExecute(b, now) then b.(state := HalfOpen) else b
  }

  class CircuitBreaker {
    const failureThreshold: int
    const recoveryTimeMs: int
    var state: CircuitState
    var failureCount: nat
    var lastFailureTime: int

    ghost function State(): Breaker
      reads this
    {
      Breaker(failureThreshold, recoveryTimeMs, state, failureCount, lastFailureTime)
    }

    constructor (failureThreshold: int, recoveryTimeMs: int)
      ensures State() == NewBreaker(failureThreshold, recoveryTimeMs)
    {
      this.failureThreshold, this.recoveryTimeMs := failureThreshold, recoveryTimeMs;
      state, failureCount, lastFailureTime := Closed, 0, 0;
    }

    method RecordFailure(now: int)
      modifies this
      ensures State() == Fail(old(State()), now)
    {
      failureCount := failureCount + 1;
      lastFailureTime := now;
      if failureCount >= failureThreshold {
        state := Open;
      }
    }

    method RecordSuccess()
      modifies this
      ensures State() == Succeed(old(State()))
    {
      failureCount := 0;
      state := Closed;
    }

    method Admit(now: int) returns (admitted: bool)
      modifies this
      ensures admitted == CanExecute(old(State()), now)
      ensures State() == Probe(old(State()), now)
    {
      if state == Closed || state == HalfOpen {
        return true;
      }
      if now - lastFailureTime >= recoveryTimeMs {
        state := HalfOpen;
        return true;
      }
      admitted := false;
    }
  }

  datatype BreakerOp = Failed(now: int) | Succeeded | Asked(now: int)

  function ApplyOp(b: Breaker, op: BreakerOp): Breaker {
    match op
    case Failed(now) => Fail(b, now)
    case Succeeded => Succeed(b)
    case Asked(now) => Probe(b, now)
  }

  function ApplyOps(b: Breaker, ops: seq<BreakerOp>): Breaker
    decreases |ops|
  {
    if ops == [] then b else ApplyOps(ApplyOp(b, ops[0]), ops[1..])
  }

  /** Closed exactly when the failures since the last success are below the threshold. */
  predicate ClosedExactly(b: Breaker) {
    b.state == Closed <==> b.failureCount < b.threshold
  }

  lemma ClosedStep(b: Breaker, op: BreakerOp)
    requires ClosedExactly(b) && b.threshold >= 1
    ensures ClosedExactly(ApplyOp(b, op)) && ApplyOp(b, op).threshold == b.threshold
  {
  }

  lemma {:induction false} ClosedRun(b: Breaker, ops: seq<BreakerOp>)
    requires ClosedExactly(b) && b.threshold >= 1
    ensures ClosedExactly(ApplyOps(b, ops)) && ApplyOps(b, ops).threshold == b.threshold
    decreases |ops|
  {
    if ops != [] {
      ClosedStep(b, ops[0]);
      ClosedRun(ApplyOp(b, ops[0]), ops[1..]);
    }
  }

  /**
   Over every run of a breaker, Closed means exactly that failureCount is below the threshold;
   this holds for a threshold of at least one and for no other.
   */
  lemma BreakerClosedExactly(threshold: int, recoveryMs: int)
    ensures (forall ops :: ClosedExactly(ApplyOps(NewBreaker(threshold, recoveryMs), ops))) <==> threshold >= 1
  {
    var b := NewBreaker(threshold, recoveryMs);
    if threshold >= 1 {
      forall ops
        ensures ClosedExactly(ApplyOps(b, ops))
      {
        ClosedRun(b, ops);
      }
    } else {
      assert !ClosedExactly(ApplyOps(b, []));
    }
  }

  /** One failed probe of a half-open breaker opens it again, and it refuses until recoveryMs have passed. */
  lemma FailedProbeReopens(threshold: int, recoveryMs: int, ops: seq<BreakerOp>, now: int, later: int)
    requires threshold >= 1
    ensures var b := ApplyOps(NewBreaker(threshold, recoveryMs), ops);
      b.state == HalfOpen ==>
        && Fail(b, now).state == Open
        && (CanExecute(Fail(b, now), later) <==> later >= now + b.recoveryMs)
  {
    ClosedRun(NewBreaker(threshold, recoveryMs), ops);
  }

  // ---- What a breaker remembers, told from its history ----

  /** Failures since the last success. */
  function FailuresSince(ops: seq<BreakerOp>): nat {
    if ops == [] then 0
    else
      match ops[|ops| - 1]
      case Failed(_) => FailuresSince(ops[..|ops| - 1]) + 1
      case Succeeded => 0
      case Asked(_) => FailuresSince(ops[..|ops| - 1])
  }

  function LastFailure(ops: seq<BreakerOp>): int {
    if ops == [] then 0
    else if ops[|ops| - 1].Failed? then ops[|ops| - 1].now
    else LastFailure(ops[..|ops| - 1])
  }

  /** Since the last failure, a call has come recoveryMs or more after it. */
  predicate Probed(ops: seq<BreakerOp>, recoveryMs: int) {
    ops != [] && ops[|ops| - 1].Asked? &&
    (ops[|ops| - 1].now - LastFailure(ops) >= recoveryMs || Probed(ops[..|ops| - 1], recoveryMs))
  }

  lemma {:induction false} ApplySnoc(b: Breaker, ops: seq<BreakerOp>, op: BreakerOp)
    ensures ApplyOps(b, ops + [op]) == ApplyOp(ApplyOps(b, ops), op)
    decreases |ops|
  {
    if ops == [] {
      assert [] + [op] == [op] && [op][1..] == [];
    } else {
      assert (ops + [op])[1..] == ops[1..] + [op];
      ApplySnoc(ApplyOp(b, ops[0]), ops[1..], op);
    }
  }

  /** The state a breaker of at least one failure is in after that history. */
  predicate Remembers(b: Breaker, threshold: int, recoveryMs: int, ops: seq<BreakerOp>) {
    && b.threshold == threshold && b.recoveryMs == recoveryMs
    && b.failureCount == FailuresSince(ops) && b.lastFailureTime == LastFailure(ops)
    && b.state == (if FailuresSince(ops) < threshold then Closed
                   else if Probed(ops, recoveryMs) then HalfOpen
                   else Open)
  }

  lemma RemembersStep(b: Breaker, threshold: int, recoveryMs: int, ops: seq<BreakerOp>, op: BreakerOp)
    requires threshold >= 1 && Remembers(b, threshold, recoveryMs, ops)
    ensures Remembers(ApplyOp(b, op), threshold, recoveryMs, ops + [op])
  {
    var more := ops + [op];
    assert more[|more| - 1] == op && more[..|more| - 1] == ops;
  }

  lemma {:induction false} RemembersRun(threshold: int, recoveryMs: int, ops: seq<BreakerOp>)
    requires threshold >= 1
    ensures Remembers(ApplyOps(NewBreaker(threshold, recoveryMs), ops), threshold, recoveryMs, ops)
    decreases |ops|
  {
    if ops != [] {
      var before, op := ops[..|ops| - 1], ops[|ops| - 1];
      var b := ApplyOps(NewBreaker(threshold, recoveryMs), before);
      RemembersRun(threshold, recoveryMs, before);
      ApplySnoc(NewBreaker(threshold, recoveryMs), before, op);
      RemembersStep(b, threshold, recoveryMs, before, op);
      assert before + [op] == ops;
    }
  }

  /**
   When a breaker refuses a call, exactly, told from its history alone: threshold failures or more have
   come since the last success, no call has come recoveryMs after the last one of them, and neither
   does this one; whether it opened from Closed or from a failed probe.
   */
  lemma RefusedExactly(threshold: int, recoveryMs: int, ops: seq<BreakerOp>, now: int)
    requires threshold >= 1
    ensures !CanExecute(ApplyOps(NewBreaker(threshold, recoveryMs), ops), now) <==>
      && FailuresSince(ops) >= threshold && !Probed(ops, recoveryMs)
      && now - LastFailure(ops) < recoveryMs
  {
    RemembersRun(threshold, recoveryMs, ops);
  }

  // ---- Decision cache ----

  datatype Reason = NoReason | FromOpa(text: string) | DeniedByOpa | BreakerOpen | CallFailed
  datatype Decision = Decision(allow: bool, reason: Reason)
  datatype Entry = Entry(key: string, decision: Decision, expiresAt: int)
  /** store is the map in insertion order. */
  datatype Cache = Cache(maxSize: int, ttlMs: int, store: seq<Entry>)

  function Find(store: seq<Entry>, key: string): (i: int)
    ensures -1 <= i < |store|
    ensures i >= 0 ==> store[i].key == key
    ensures i < 0 ==> forall j :: 0 <= j < |store| ==> store[j].key != key
  {
    if store == [] then -1
    else if store[0].key == key then 0
    else
      var r := Find(store[1..], key);
      if r < 0 then -1 else r + 1
  }

  function Without(store: seq<Entry>, i: nat): seq<Entry>
    requires i < |store|
  {
    store[..i] + store[i + 1..]
  }

  function Lookup(c: Cache, key: string, now: int): Option<Decision> {
    var i := Find(c.store, key);
    if i < 0 || now > c.store[i].expiresAt then None else Some(c.store[i].decision)
  }

  /** A look-up drops the entry it finds expired. */
  function Looked(c: Cache, key: string, now: int): Cache {
    var i := Find(c.store, key);
    if i >= 0 && now > c.store[i].expiresAt then c.(store := Without(c.store, i)) else c
  }

  /** At capacity the oldest entry goes first, even when the key is already there. */
  function MadeRoom(c: Cache): Cache {
    if |c.store| >= c.maxSize && c.store != [] then c.(store := c.store[1..]) else c
  }

  function Stored(c: Cache, key: string, d: Decision, now: int): Cache {
    var r := MadeRoom(c);
    var entry := Entry(key, d, now + c.ttlMs);
    var i := Find(r.store, key);
    r.(store := if i < 0 then r.store + [entry] else r.store[i := entry])
  }

  function Fresh(store: seq<Entry>, now: int): seq<Entry> {
    if store == [] then []
    else (if now > store[0].expiresAt then [] else [store[0]]) + Fresh(store[1..], now)
  }

  class LRUCache {
    const maxSize: int
    const ttlMs: int
    var store: seq<Entry>

    ghost function State(): Cache
      reads this
    {
      Cache(maxSize, ttlMs, store)
    }

    constructor (maxSize: int, ttlMs: int)
      ensures State() == Cache(maxSize, ttlMs, [])
    {
      this.maxSize, this.ttlMs, store := maxSize, ttlMs, [];
    }

    method Get(key: string, now: int) returns (decision: Option<Decision>)
      modifies this
      ensures decision == Lookup(old(State()), key, now)
      ensures State() == Looked(old(State()), key, now)
    {
      var i := Find(store, key);
      if i < 0 {
        return None;
      }
      if now > store[i].expiresAt {
        store := store[..i] + store[i + 1..];
        return None;
      }
      decision := Some(store[i].decision);
    }

    method Set(key: string, decision: Decision, now: int)
      modifies this
      ensures State() == Stored(old(State()), key, decision, now)
    {
      if |store| >= maxSize && store != [] {
        store := store[1..];
      }
      var i := Find(store, key);
      var entry := Entry(key, decision, now + ttlMs);
      if i < 0 {
        store := store + [entry];
      } else {
        store := store[i := entry];
      }
    }

    method EvictExpired(now: int)
      modifies this
      ensures State() == old(State()).(store := Fresh(old(store), now))
    {
      var i := 0;
      while i < |store|
        invariant 0 <= i <= |store|
        invariant store[..i] + Fresh(store[i..], now) == Fresh(old(store), now)
        decreases |store| - i
      {
        ghost var before, rest := store[..i], Fresh(store[i + 1..], now);
        assert store[i..][1..] == store[i + 1..];
        if now > store[i].expiresAt {
          store := store[..i] + store[i + 1..];
          assert store[..i] == before && Fresh(store[i..], now) == rest;
        } else {
          assert (before + [store[i]]) + rest == before + ([store[i]] + rest);
          i := i + 1;
          assert store[..i] == before + [store[i - 1]];
        }
      }
      assert store[..i] + [] == store;
    }
  }

  predicate DistinctKeys(store: seq<Entry>) {
    forall i, j :: 0 <= i < j < |store| ==> store[i].key != store[j].key
  }

  predicate CacheOk(c: Cache) {
    DistinctKeys(c.store) && |c.store| <= if c.maxSize < 1 then 1 else c.maxSize
  }

  lemma PutKeepsDistinct(store: seq<Entry>, e: Entry)
    requires DistinctKeys(store)
    ensures var i := Find(store, e.key); DistinctKeys(if i < 0 then store + [e] else store[i := e])
  {
  }

  lemma CutKeepsDistinct(store: seq<Entry>, i: nat)
    requires DistinctKeys(store) && i < |store|
    ensures DistinctKeys(Without(store, i)) && DistinctKeys(store[1..])
  {
  }

  lemma LookedBounded(c: Cache, key: string, now: int)
    requires CacheOk(c)
    ensures CacheOk(Looked(c, key, now))
  {
    if Find(c.store, key) >= 0 {
      CutKeepsDistinct(c.store, Find(c.store, key));
    }
  }

  lemma MadeRoomBounded(c: Cache)
    requires CacheOk(c)
    ensures CacheOk(MadeRoom(c)) && |MadeRoom(c).store| < if c.maxSize < 1 then 1 else c.maxSize
  {
    if c.store != [] {
      CutKeepsDistinct(c.store, 0);
    }
  }

  lemma AccessBounded(c: Cache, key: string, d: Decision, now: int)
    requires CacheOk(c)
    ensures CacheOk(Stored(c, key, d, now)) && CacheOk(Looked(c, key, now))
  {
    LookedBounded(c, key, now);
    MadeRoomBounded(c);
    PutKeepsDistinct(MadeRoom(c).store, Entry(key, d, now + c.ttlMs));
  }

  /** With distinct keys, the index found is the only one. */
  lemma FoundAt(store: seq<Entry>, i: nat)
    requires DistinctKeys(store) && i < |store|
    ensures Find(store, store[i].key) == i
  {
  }

  lemma MadeRoomLookup(c: Cache, other: string, now: int)
    requires CacheOk(c)
    ensures DistinctKeys(MadeRoom(c).store)
    ensures Lookup(MadeRoom(c), other, now)
      == if |c.store| >= c.maxSize && c.store != [] && c.store[0].key == other then None else Lookup(c, other, now)
  {
    var r := MadeRoom(c);
    if r.store != c.store {
      var i := Find(c.store, other);
      if i > 0 {
        assert r.store[i - 1] == c.store[i];
        FoundAt(r.store, i - 1);
      }
      var k := Find(r.store, other);
      if k >= 0 {
        assert c.store[k + 1] == r.store[k];
        FoundAt(c.store, k + 1);
      }
    }
  }

  /**
   A stored decision is found until it expires; another key keeps its entry unless it was the oldest
   of a full cache.
   */
  lemma StoredThenFound(c: Cache, key: string, d: Decision, now: int, other: string, later: int)
    requires CacheOk(c)
    ensures Lookup(Stored(c, key, d, now), key, later) == if later <= now + c.ttlMs then Some(d) else None
    ensures other != key ==>
      Lookup(Stored(c, key, d, now), other, later)
      == if |c.store| >= c.maxSize && c.store != [] && c.store[0].key == other then None else Lookup(c, other, later)
  {
    var r, s := MadeRoom(c), Stored(c, key, d, now);
    AccessBounded(c, key, d, now);
    MadeRoomLookup(c, other, later);
    var at := if Find(r.store, key) < 0 then |r.store| else Find(r.store, key);
    assert s.store[at] == Entry(key, d, now + c.ttlMs);
    FoundAt(s.store, at);
    var i := Find(r.store, other);
    if other != key && i >= 0 {
      assert s.store[i] == r.store[i];
      FoundAt(s.store, i);
    }
  }

  lemma {:induction false} FreshFind(store: seq<Entry>, now: int)
    requires DistinctKeys(store)
    ensures forall e :: e in Fresh(store, now) ==> e in store && now <= e.expiresAt
    ensures forall e :: e in store && now <= e.expiresAt ==> e in Fresh(store, now)
    ensures DistinctKeys(Fresh(store, now))
  {
    if store != [] {
      FreshFind(store[1..], now);
      assert forall e :: e in store[1..] ==> e.key != store[0].key;
    }
  }

  lemma {:induction false} FreshShorter(store: seq<Entry>, now: int)
    ensures |Fresh(store, now)| <= |store|
  {
    if store != [] {
      FreshShorter(store[1..], now);
    }
  }

  /** Evicting expired entries is invisible to every later look-up. */
  lemma EvictionInvisible(c: Cache, key: string, now: int, later: int)
    requires CacheOk(c) && now <= later
    ensures Lookup(c.(store := Fresh(c.store, now)), key, later) == Lookup(c, key, later)
  {
    var f := Fresh(c.store, now);
    FreshFind(c.store, now);
    var i, k := Find(c.store, key), Find(f, key);
    assert i >= 0 && now <= c.store[i].expiresAt ==> c.store[i] in f;
    if k >= 0 {
      var j :| 0 <= j < |c.store| && c.store[j] == f[k];
      FoundAt(c.store, j);
    }
  }

  // ---- Evaluation ----

  /** What the HTTP call to OPA can come back with; Unusable covers every way it can throw. */
  datatype Reply = Unusable | Response(status: int, result: Option<OpaResult>)
  /** allow is whether the field is exactly true. */
  datatype OpaResult = OpaResult(allow: bool, reason: Option<string>)

  predicate Usable(r: Reply) {
    r.Response? && 200 <= r.status < 300
  }

  function DecisionOf(r: Reply): Decision
    requires Usable(r)
  {
    var allow := r.result.Some? && r.result.value.allow;
    Decision(allow,
      if allow then NoReason
      else if r.result.Some? && r.result.value.reason.Some? then FromOpa(r.result.value.reason.value)
      else DeniedByOpa)
  }

  /** A call between its two steps. */
  datatype Pending = Pending(path: string, key: string)
  /** A usable reply of OPA, as it arrived. */
  datatype Answer = Answer(call: nat, path: string, key: string, reply: Reply, at: int)
  /** What evaluatePolicy returned, and the breaker as the call found it. */
  datatype Return = Return(call: nat, path: string, key: string, decision: Decision, at: int, begun: int,
                           breaker: Breaker)

  /** admissions remembers, for calls in flight, when and how the breaker let them in. */
  datatype Admission = Admission(at: int, breaker: Breaker)
  datatype Service = Service(
    breaker: Breaker, cache: Cache,
    pending: map<nat, Pending>, admissions: map<nat, Admission>, answers: set<Answer>, results: set<Return>)

  datatype Event =
    | Begin(call: nat, path: string, key: string, now: int)
    | Finish(call: nat, reply: Reply, now: int)
    | Evict(now: int)

  function NewService(threshold: int, recoveryMs: int, maxSize: int, ttlMs: int): Service {
    Service(NewBreaker(threshold, recoveryMs), Cache(maxSize, ttlMs, []), map[], map[], {}, {})
  }

  /** Up to the await: refused by the breaker, answered from the cache, or on the way to OPA. */
  function BeginStep(s: Service, call: nat, path: string, key: string, now: int): Service {
    var b := Probe(s.breaker, now);
    if !CanExecute(s.breaker, now) then
      s.(breaker := b,
         results := s.results + {Return(call, path, key, Decision(false, BreakerOpen), now, now, s.breaker)})
    else
      var hit := Lookup(s.cache, key, now);
      var t := s.(breaker := b, cache := Looked(s.cache, key, now));
      if hit.Some? then t.(results := t.results + {Return(call, path, key, hit.value, now, now, s.breaker)})
      else
        t.(pending := t.pending[call := Pending(path, key)],
           admissions := t.admissions[call := Admission(now, s.breaker)])
  }

  predicate Possible(s: Service, e: Event) {
    match e
    case Begin(call, _, _, _) => call !in s.pending
    case Finish(call, _, _) => call in s.pending && call in s.admissions
    case Evict(_) => true
  }

  /** From the await on: OPA's decision, cached; or a denial, on any error. */
  function FinishStep(s: Service, call: nat, reply: Reply, now: int): Service
    requires Possible(s, Finish(call, reply, now))
  {
    var p, a := s.pending[call], s.admissions[call];
    var d := if Usable(reply) then DecisionOf(reply) else Decision(false, CallFailed);
    var r := Return(call, p.path, p.key, d, now, a.at, a.breaker);
    var t := s.(pending := s.pending - {call}, results := s.results + {r});
    if Usable(reply) then
      t.(breaker := Succeed(s.breaker), cache := Stored(s.cache, p.key, d, now),
         answers := s.answers + {Answer(call, p.path, p.key, reply, now)})
    else t.(breaker := Fail(s.breaker, now))
  }

  function Step(s: Service, e: Event): Service
    requires Possible(s, e)
  {
    match e
    case Begin(call, path, key, now) => BeginStep(s, call, path, key, now)
    case Finish(call, reply, now) => FinishStep(s, call, reply, now)
    case Evict(now) => s.(cache := s.cache.(store := Fresh(s.cache.store, now)))
  }

  class PolicyPlaneService {
    const circuitBreaker: CircuitBreaker
    const cache: LRUCache
    ghost var pending: map<nat, Pending>
    ghost var admissions: map<nat, Admission>
    ghost var answers: set<Answer>
    ghost var results: set<Return>

    ghost function State(): Service
      reads this, circuitBreaker, cache
    {
      Service(circuitBreaker.State(), cache.State(), pending, admissions, answers, results)
    }

    constructor (threshold: int, recoveryMs: int, maxSize: int, ttlMs: int)
      ensures State() == NewService(threshold, recoveryMs, maxSize, ttlMs)
      ensures fresh(circuitBreaker) && fresh(cache)
    {
      circuitBreaker := new CircuitBreaker(threshold, recoveryMs);
      cache := new LRUCache(maxSize, ttlMs);
      pending, admissions, answers, results := map[], map[], {}, {};
    }

    /** evaluatePolicy up to its await; no decision means the request to OPA is under way. */
    method BeginEvaluate(call: nat, path: string, key: string, now: int) returns (decision: Option<Decision>)
      requires call !in pending
      modifies this, circuitBreaker, cache
      ensures State() == BeginStep(old(State()), call, path, key, now)
      ensures decision.Some? ==>
        State().results ==
          old(State()).results + {Return(call, path, key, decision.value, now, now, old(State()).breaker)}
      ensures decision.None? <==> call in pending
    {
      ghost var before := circuitBreaker.State();
      var admitted := circuitBreaker.Admit(now);
      if !admitted {
        decision := Some(Decision(false, BreakerOpen));
      } else {
        decision := cache.Get(key, now);
      }
      if decision.Some? {
        results := results + {Return(call, path, key, decision.value, now, now, before)};
      } else {
        pending, admissions := pending[call := Pending(path, key)], admissions[call := Admission(now, before)];
      }
    }

    /** evaluatePolicy after its await. */
    method FinishEvaluate(call: nat, key: string, reply: Reply, now: int) returns (decision: Decision)
      requires call in pending && call in admissions && pending[call].key == key
      modifies this, circuitBreaker, cache
      ensures State() == FinishStep(old(State()), call, reply, now)
      ensures decision.allow <==>
        reply.Response? && 200 <= reply.status < 300 && reply.result.Some? && reply.result.value.allow
      ensures
        if decision.allow then decision.reason == NoReason
        else if !reply.Response? || reply.status < 200 || reply.status >= 300 then decision.reason == CallFailed
        else if reply.result.None? || reply.result.value.reason.None? then decision.reason == DeniedByOpa
        else decision.reason == FromOpa(reply.result.value.reason.value)
    {
      ghost var p, a := pending[call], admissions[call];
      if !(reply.Response? && 200 <= reply.status < 300) {
        circuitBreaker.RecordFailure(now);
        decision := Decision(false, CallFailed);
      } else {
        decision := DecisionOf(reply);
        circuitBreaker.RecordSuccess();
        cache.Set(key, decision, now);
        answers := answers + {Answer(call, p.path, p.key, reply, now)};
      }
      pending := pending - {call};
      results := results + {Return(call, p.path, p.key, decision, now, a.at, a.breaker)};
    }
  }

  // ---- Runs of concurrent evaluations ----

  predicate PossibleRun(s: Service, clock: int, es: seq<Event>)
    decreases |es|
  {
    es == [] || (clock <= es[0].now && Possible(s, es[0]) && PossibleRun(Step(s, es[0]), es[0].now, es[1..]))
  }

  function Final(s: Service, clock: int, es: seq<Event>): Service
    requires PossibleRun(s, clock, es)
    decreases |es|
  {
    if es == [] then s else Final(Step(s, es[0]), es[0].now, es[1..])
  }

  /** What a call asks: a policy path, and the key of its input. */
  datatype Question = Question(path: string, key: string)

  ghost predicate Over(es: seq<Event>, asked: iset<Question>) {
    forall i :: 0 <= i < |es| && es[i].Begin? ==> Question(es[i].path, es[i].key) in asked
  }

  ghost predicate OnePathPerKey(asked: iset<Question>) {
    forall p, q :: p in asked && q in asked && p.key == q.key ==> p.path == q.path
  }

  /** All calls of the run for that key are on that path. */
  predicate OnePathFor(es: seq<Event>, key: string, path: string) {
    forall i :: 0 <= i < |es| && es[i].Begin? && es[i].key == key ==> es[i].path == path
  }

  /** OPA's reply says this: allow only if the field is there and true, and otherwise why not. */
  predicate Says(reply: Reply, d: Decision) {
    && reply.Response? && 200 <= reply.status < 300
    && (d.allow <==> reply.result.Some? && reply.result.value.allow)
    && (if d.allow then d.reason == NoReason
        else if reply.result.None? || reply.result.value.reason.None? then d.reason == DeniedByOpa
        else d.reason == FromOpa(reply.result.value.reason.value))
  }

  lemma DecisionSays(reply: Reply)
    requires Usable(reply)
    ensures Says(reply, DecisionOf(reply))
  {
  }

  /** Every cached decision is one OPA gave for that key, ttlMs before the entry expires. */
  ghost predicate CacheJustified(s: Service) {
    forall i :: 0 <= i < |s.cache.store| ==> EntryJustified(s, s.cache.store[i])
  }

  ghost predicate EntryJustified(s: Service, e: Entry) {
    exists a :: a in s.answers && a.key == e.key && Says(a.reply, e.decision) && a.at + s.cache.ttlMs == e.expiresAt
  }

  /** OPA gave this very decision for the key, to this call now or to some call at most ttlMs ago. */
  ghost predicate Backed(s: Service, r: Return) {
    exists a :: a in s.answers && a.key == r.key && Says(a.reply, r.decision)
      && a.at <= r.at && ((a.call == r.call && a.at == r.at && a.path == r.path) || r.at - a.at <= s.cache.ttlMs)
  }

  /** Refused by the breaker; or let in, and then either not answered usably or told what OPA says. */
  ghost predicate Explained(s: Service, r: Return) {
    if r.breaker.state == Open && r.begun - r.breaker.lastFailureTime < r.breaker.recoveryMs
    then r.decision == Decision(false, BreakerOpen)
    else r.decision == Decision(false, CallFailed) || Backed(s, r)
  }

  ghost predicate ReturnsExplained(s: Service) {
    forall r :: r in s.results ==> Explained(s, r)
  }

  predicate Admitted(s: Service) {
    forall c :: c in s.admissions ==> CanExecute(s.admissions[c].breaker, s.admissions[c].at)
  }

  ghost predicate AskedOnly(s: Service, asked: iset<Question>) {
    && (forall a :: a in s.answers ==> Question(a.path, a.key) in asked)
    && (forall c :: c in s.pending ==> Question(s.pending[c].path, s.pending[c].key) in asked)
    && (forall r :: r in s.results ==> Question(r.path, r.key) in asked)
  }

  /** Every allow returned is one that OPA gave on the call's own path for the call's own key. */
  ghost predicate OwnAnswers(s: Service) {
    forall r :: r in s.results && r.decision.allow ==> OwnAnswer(s, r)
  }

  ghost predicate OwnAnswer(s: Service, r: Return) {
    exists a :: a in s.answers && a.path == r.path && a.key == r.key && a.at <= r.at
      && a.reply.Response? && 200 <= a.reply.status < 300 && a.reply.result.Some? && a.reply.result.value.allow
  }

  ghost predicate Justified(s: Service, clock: int) {
    CacheJustified(s) && ReturnsExplained(s) && Admitted(s) && forall a :: a in s.answers ==> a.at <= clock
  }

  /** The cache after a step: old entries, and perhaps one for an answer that just arrived. */
  lemma CacheKept(s: Service, t: Service)
    requires CacheJustified(s) && s.answers <= t.answers && s.cache.ttlMs == t.cache.ttlMs
    requires forall i :: 0 <= i < |t.cache.store| ==>
      t.cache.store[i] in s.cache.store || EntryJustified(t, t.cache.store[i])
    ensures CacheJustified(t)
  {
    forall i | 0 <= i < |t.cache.store|
      ensures EntryJustified(t, t.cache.store[i])
    {
      if t.cache.store[i] in s.cache.store {
        assert EntryJustified(s, t.cache.store[i]);
      }
    }
  }

  /** The returns after a step: the old ones, and perhaps one more that is explained itself. */
  lemma ReturnsKept(s: Service, t: Service)
    requires ReturnsExplained(s) && s.answers <= t.answers && s.cache.ttlMs == t.cache.ttlMs
    requires forall r :: r in t.results && r !in s.results ==> Explained(t, r)
    ensures ReturnsExplained(t)
  {
    forall r | r in t.results
      ensures Explained(t, r)
    {
      if r in s.results {
        assert Explained(s, r);
      }
    }
  }

  lemma LookedSubset(c: Cache, key: string, now: int)
    ensures forall i :: 0 <= i < |Looked(c, key, now).store| ==> Looked(c, key, now).store[i] in c.store
  {
  }

  lemma HitBacked(s: Service, clock: int, call: nat, path: string, key: string, now: int)
    requires Justified(s, clock) && clock <= now && Lookup(s.cache, key, now).Some?
    ensures Backed(s, Return(call, path, key, Lookup(s.cache, key, now).value, now, now, s.breaker))
  {
    assert EntryJustified(s, s.cache.store[Find(s.cache.store, key)]);
  }

  lemma BeginJustified(s: Service, clock: int, call: nat, path: string, key: string, now: int)
    requires Justified(s, clock) && clock <= now
    ensures Justified(BeginStep(s, call, path, key, now), now)
  {
    var t := BeginStep(s, call, path, key, now);
    LookedSubset(s.cache, key, now);
    CacheKept(s, t);
    if CanExecute(s.breaker, now) && Lookup(s.cache, key, now).Some? {
      var r := Return(call, path, key, Lookup(s.cache, key, now).value, now, now, s.breaker);
      HitBacked(s, clock, call, path, key, now);
      assert Backed(t, r) by {
        assert t.answers == s.answers && t.cache.ttlMs == s.cache.ttlMs;
      }
    }
    ReturnsKept(s, t);
  }

  lemma FinishJustified(s: Service, clock: int, call: nat, reply: Reply, now: int)
    requires Justified(s, clock) && clock <= now && Possible(s, Finish(call, reply, now))
    ensures Justified(FinishStep(s, call, reply, now), now)
  {
    var t, p := FinishStep(s, call, reply, now), s.pending[call];
    if Usable(reply) {
      var d := DecisionOf(reply);
      DecisionSays(reply);
      assert Answer(call, p.path, p.key, reply, now) in t.answers;
      assert EntryJustified(t, Entry(p.key, d, now + s.cache.ttlMs));
      assert Backed(t, Return(call, p.path, p.key, d, now, s.admissions[call].at, s.admissions[call].breaker));
    }
    CacheKept(s, t);
    ReturnsKept(s, t);
  }

  lemma EvictJustified(s: Service, clock: int, now: int)
    requires Justified(s, clock) && clock <= now
    ensures Justified(Step(s, Evict(now)), now)
  {
    var t := Step(s, Evict(now));
    forall i | 0 <= i < |t.cache.store|
      ensures t.cache.store[i] in s.cache.store
    {
      FreshFrom(s.cache.store, now, i);
    }
    CacheKept(s, t);
    ReturnsKept(s, t);
  }

  lemma {:induction false} FreshFrom(store: seq<Entry>, now: int, i: nat)
    requires i < |Fresh(store, now)|
    ensures Fresh(store, now)[i] in store
  {
    if now > store[0].expiresAt {
      FreshFrom(store[1..], now, i);
    } else if i > 0 {
      FreshFrom(store[1..], now, i - 1);
    }
  }

  lemma {:induction false} JustifiedRun(s: Service, clock: int, es: seq<Event>)
    requires Justified(s, clock) && PossibleRun(s, clock, es)
    ensures Justified(Final(s, clock, es), if es == [] then clock else es[|es| - 1].now)
    decreases |es|
  {
    if es != [] {
      match es[0] {
        case Begin(call, path, key, now) => BeginJustified(s, clock, call, path, key, now);
        case Finish(call, reply, now) => FinishJustified(s, clock, call, reply, now);
        case Evict(now) => EvictJustified(s, clock, now);
      }
      JustifiedRun(Step(s, es[0]), es[0].now, es[1..]);
    }
  }

  lemma CacheStep(s: Service, e: Event)
    requires CacheOk(s.cache) && Possible(s, e)
    ensures CacheOk(Step(s, e).cache) && Step(s, e).cache.maxSize == s.cache.maxSize
  {
    match e
    case Begin(_, _, key, now) => LookedBounded(s.cache, key, now);
    case Finish(call, reply, now) =>
      if Usable(reply) {
        AccessBounded(s.cache, s.pending[call].key, DecisionOf(reply), now);
      }
    case Evict(now) =>
      FreshFind(s.cache.store, now);
      FreshShorter(s.cache.store, now);
  }

  lemma {:induction false} CacheRun(s: Service, clock: int, es: seq<Event>)
    requires CacheOk(s.cache) && PossibleRun(s, clock, es)
    ensures CacheOk(Final(s, clock, es).cache) && Final(s, clock, es).cache.maxSize == s.cache.maxSize
    decreases |es|
  {
    if es != [] {
      CacheStep(s, es[0]);
      CacheRun(Step(s, es[0]), es[0].now, es[1..]);
    }
  }

  /**
   Over every run of overlapping evaluations and evictions the cache keeps one entry per key, and no
   more of them than its size; a size below one still leaves room for one entry.
   */
  lemma CacheStaysBounded(threshold: int, recoveryMs: int, maxSize: int, ttlMs: int, clock: int, es: seq<Event>)
    requires PossibleRun(NewService(threshold, recoveryMs, maxSize, ttlMs), clock, es)
    ensures var store := Final(NewService(threshold, recoveryMs, maxSize, ttlMs), clock, es).cache.store;
      && |store| <= (if maxSize < 1 then 1 else maxSize)
      && forall i, j :: 0 <= i < j < |store| ==> store[i].key != store[j].key
  {
    CacheRun(NewService(threshold, recoveryMs, maxSize, ttlMs), clock, es);
  }

  /** An eviction in a run touches nothing but the cache, and of that nothing a later look-up would find. */
  lemma EvictStepInvisible(s: Service, now: int, key: string, later: int)
    requires CacheOk(s.cache) && now <= later
    ensures var t := Step(s, Evict(now));
      && t == s.(cache := t.cache) && t.cache.maxSize == s.cache.maxSize && t.cache.ttlMs == s.cache.ttlMs
      && Lookup(t.cache, key, later) == Lookup(s.cache, key, later)
  {
    EvictionInvisible(s.cache, key, now, later);
  }

  /** What the calls of a run do to the breaker: each asks it, and those that go to OPA report back. */
  function OpsOf(es: seq<Event>): seq<BreakerOp> {
    if es == [] then []
    else OpsOfEvent(es[0]) + OpsOf(es[1..])
  }

  function OpsOfEvent(e: Event): seq<BreakerOp> {
    match e
    case Begin(_, _, _, now) => [Asked(now)]
    case Finish(_, reply, now) =>
      if reply.Response? && 200 <= reply.status < 300 then [Succeeded] else [Failed(now)]
    case Evict(_) => []
  }

  /** So the breaker of a service has exactly that history. */
  lemma {:induction false} BreakerFollows(s: Service, clock: int, es: seq<Event>)
    requires PossibleRun(s, clock, es)
    ensures Final(s, clock, es).breaker == ApplyOps(s.breaker, OpsOf(es))
    decreases |es|
  {
    if es != [] {
      var t := Step(s, es[0]);
      BreakerFollows(t, es[0].now, es[1..]);
      if es[0].Evict? {
        assert OpsOf(es) == OpsOf(es[1..]);
      } else {
        var op := OpsOfEvent(es[0])[0];
        assert OpsOf(es)[0] == op && OpsOf(es)[1..] == OpsOf(es[1..]);
        assert t.breaker == ApplyOp(s.breaker, op);
      }
    }
  }

  lemma AskedStep(s: Service, e: Event, asked: iset<Question>)
    requires AskedOnly(s, asked) && Possible(s, e) && (e.Begin? ==> Question(e.path, e.key) in asked)
    ensures AskedOnly(Step(s, e), asked)
  {
  }

  lemma {:induction false} AskedRun(s: Service, clock: int, es: seq<Event>, asked: iset<Question>)
    requires AskedOnly(s, asked) && PossibleRun(s, clock, es) && Over(es, asked)
    ensures AskedOnly(Final(s, clock, es), asked)
    decreases |es|
  {
    if es != [] {
      AskedStep(s, es[0], asked);
      assert Over(es[1..], asked);
      AskedRun(Step(s, es[0]), es[0].now, es[1..], asked);
    }
  }

  /**
   Policy evaluation fails closed: over every interleaving of concurrent calls, allow is returned
   only if the breaker let the call in and OPA itself answered a 2xx with allow set to true for an input
   with the same key, to this call or at most ttlMs before; on the call's own path, if no other is
   asked for that key.
   */
  lemma FailsClosed(threshold: int, recoveryMs: int, maxSize: int, ttlMs: int, clock: int, es: seq<Event>, r: Return)
    requires PossibleRun(NewService(threshold, recoveryMs, maxSize, ttlMs), clock, es)
    requires r in Final(NewService(threshold, recoveryMs, maxSize, ttlMs), clock, es).results && r.decision.allow
    ensures r.breaker.state == Open ==> r.begun - r.breaker.lastFailureTime >= r.breaker.recoveryMs
    ensures var s := Final(NewService(threshold, recoveryMs, maxSize, ttlMs), clock, es);
      exists a :: a in s.answers && a.key == r.key
        && a.reply.Response? && 200 <= a.reply.status < 300 && a.reply.result.Some? && a.reply.result.value.allow
        && (OnePathFor(es, r.key, r.path) ==> a.path == r.path)
        && a.at <= r.at && ((a.call == r.call && a.at == r.at) || r.at - a.at <= ttlMs)
  {
    var s0 := NewService(threshold, recoveryMs, maxSize, ttlMs);
    JustifiedRun(s0, clock, es);
    if OnePathFor(es, r.key, r.path) {
      AskedRun(s0, clock, es, iset q: Question | q.key == r.key ==> q.path == r.path);
    }
    TtlConstant(s0, clock, es);
    var s := Final(s0, clock, es);
    assert Explained(s, r) && Backed(s, r);
  }

  /**
   What every return means, allow or deny: the breaker refused the call; or the call to OPA failed; or
   the decision is what a 2xx reply of OPA for the same key says, given to this call or at most ttlMs before.
   */
  lemma EveryReturnExplained(threshold: int, recoveryMs: int, maxSize: int, ttlMs: int, clock: int, es: seq<Event>,
                             r: Return)
    requires PossibleRun(NewService(threshold, recoveryMs, maxSize, ttlMs), clock, es)
    requires r in Final(NewService(threshold, recoveryMs, maxSize, ttlMs), clock, es).results
    ensures var s := Final(NewService(threshold, recoveryMs, maxSize, ttlMs), clock, es);
      if r.breaker.state == Open && r.begun - r.breaker.lastFailureTime < r.breaker.recoveryMs
      then r.decision == Decision(false, BreakerOpen)
      else
        || r.decision == Decision(false, CallFailed)
        || exists a :: a in s.answers && a.key == r.key && a.at <= r.at
             && ((a.call == r.call && a.at == r.at) || r.at - a.at <= ttlMs)
             && a.reply.Response? && 200 <= a.reply.status < 300
             && (if a.reply.result.Some? && a.reply.result.value.allow then r.decision == Decision(true, NoReason)
                 else if a.reply.result.None? || a.reply.result.value.reason.None?
                 then r.decision == Decision(false, DeniedByOpa)
                 else r.decision == Decision(false, FromOpa(a.reply.result.value.reason.value)))
  {
    var s0 := NewService(threshold, recoveryMs, maxSize, ttlMs);
    JustifiedRun(s0, clock, es);
    TtlConstant(s0, clock, es);
    assert Explained(Final(s0, clock, es), r);
  }

  /**
   The converse, at any point of any run: a usable reply decides the call that asked, just as it says,
   and is what the cache then answers for that key until ttlMs later.
   */
  lemma ReplyDecides(s: Service, call: nat, reply: Reply, now: int, later: int)
    requires Possible(s, Finish(call, reply, now)) && CacheOk(s.cache)
    ensures var t, p := Step(s, Finish(call, reply, now)), s.pending[call];
      var allowed := reply.Response? && 200 <= reply.status < 300 && reply.result.Some? && reply.result.value.allow;
      && (exists r :: r in t.results && r.call == call && r.path == p.path && r.key == p.key && r.at == now
            && (r.decision.allow <==> allowed))
      && (reply.Response? && 200 <= reply.status < 300 ==>
            if later <= now + s.cache.ttlMs
            then Lookup(t.cache, p.key, later).Some? && (Lookup(t.cache, p.key, later).value.allow <==> allowed)
            else Lookup(t.cache, p.key, later).None?)
      && (!(reply.Response? && 200 <= reply.status < 300) ==> t.cache == s.cache)
  {
    var t, p, a := Step(s, Finish(call, reply, now)), s.pending[call], s.admissions[call];
    var d := if Usable(reply) then DecisionOf(reply) else Decision(false, CallFailed);
    if Usable(reply) {
      DecisionSays(reply);
      StoredThenFound(s.cache, p.key, d, now, p.key, later);
    }
    assert Return(call, p.path, p.key, d, now, a.at, a.breaker) in t.results;
  }

  // ---- Across policy paths ----

  /** Calls that give each key one path, or a cache that never hits, get answers of their own path only. */
  lemma OwnPathRun(s: Service, clock: int, es: seq<Event>, asked: iset<Question>)
    requires Justified(s, clock) && AskedOnly(s, asked) && PossibleRun(s, clock, es) && Over(es, asked)
    requires s.cache.ttlMs < 0 || OnePathPerKey(asked)
    ensures OwnAnswers(Final(s, clock, es))
  {
    JustifiedRun(s, clock, es);
    AskedRun(s, clock, es, asked);
    TtlConstant(s, clock, es);
    var t := Final(s, clock, es);
    forall r | r in t.results && r.decision.allow
      ensures OwnAnswer(t, r)
    {
      assert Explained(t, r) && Backed(t, r);
    }
  }

  /**
   The path is not part of the cache key: an input that OPA allowed on one path is then allowed on
   any other path, which OPA was never asked about; with any breaker and any cache that can hit.
   */
  lemma OtherPathAllowed(s: Service, asked: string, other: string, key: string, now: int)
    requires s == NewService(s.breaker.threshold, s.breaker.recoveryMs, s.cache.maxSize, s.cache.ttlMs)
    requires s.cache.ttlMs >= 0 && asked != other
    ensures var es := OtherPathRun(asked, other, key, now);
      && PossibleRun(s, now, es)
      && (exists r :: r in Final(s, now, es).results && r.path == other && r.key == key && r.decision.allow)
      && (forall a :: a in Final(s, now, es).answers ==> a.path == asked)
      && !OwnAnswers(Final(s, now, es))
  {
    var reply := Response(200, Some(OpaResult(true, None)));
    var d := Decision(true, NoReason);
    var s1 := BeginStep(s, 0, asked, key, now);
    assert s1.pending == map[0 := Pending(asked, key)];
    var s2 := FinishStep(s1, 0, reply, now);
    assert s2.cache.store == [Entry(key, d, now + s.cache.ttlMs)];
    assert s2.answers == {Answer(0, asked, key, reply, now)};
    var s3 := BeginStep(s2, 1, other, key, now);
    var last := Return(1, other, key, d, now, now, s2.breaker);
    assert last in s3.results && s3.answers == s2.answers;
    assert !OwnAnswer(s3, last);
    RunCons(s2, now, Begin(1, other, key, now), []);
    RunCons(s1, now, Finish(0, reply, now), [Begin(1, other, key, now)]);
    RunCons(s, now, Begin(0, asked, key, now), [Finish(0, reply, now)] + [Begin(1, other, key, now)]);
    assert OtherPathRun(asked, other, key, now)
        == [Begin(0, asked, key, now)] + ([Finish(0, reply, now)] + [Begin(1, other, key, now)]);
  }

  /**
   Exactly when every allow is OPA's answer on the call's own path, over every run that asks only
   the given questions: when they give each key one path, or the cache's time to live is negative.
   */
  lemma OwnPathExactly(s: Service, asked: iset<Question>)
    requires s == NewService(s.breaker.threshold, s.breaker.recoveryMs, s.cache.maxSize, s.cache.ttlMs)
    ensures (forall clock, es :: PossibleRun(s, clock, es) && Over(es, asked) ==> OwnAnswers(Final(s, clock, es)))
       <==> s.cache.ttlMs < 0 || OnePathPerKey(asked)
  {
    if s.cache.ttlMs < 0 || OnePathPerKey(asked) {
      forall clock, es | PossibleRun(s, clock, es) && Over(es, asked)
        ensures OwnAnswers(Final(s, clock, es))
      {
        OwnPathRun(s, clock, es, asked);
      }
    } else {
      var p, q :| p in asked && q in asked && p.key == q.key && p.path != q.path;
      OtherPathAllowed(s, p.path, q.path, p.key, 0);
      assert Over(OtherPathRun(p.path, q.path, p.key, 0), asked);
    }
  }

  lemma RunCons(s: Service, clock: int, e: Event, es: seq<Event>)
    requires clock <= e.now && Possible(s, e) && PossibleRun(Step(s, e), e.now, es)
    ensures PossibleRun(s, clock, [e] + es) && Final(s, clock, [e] + es) == Final(Step(s, e), e.now, es)
  {
    assert ([e] + es)[1..] == es;
  }

  function OtherPathRun(asked: string, other: string, key: string, now: int): seq<Event> {
    [Begin(0, asked, key, now), Finish(0, Response(200, Some(OpaResult(true, None))), now), Begin(1, other, key, now)]
  }

  lemma {:induction false} TtlConstant(s: Service, clock: int, es: seq<Event>)
    requires PossibleRun(s, clock, es)
    ensures Final(s, clock, es).cache.ttlMs == s.cache.ttlMs
    decreases |es|
  {
    if es != [] {
      TtlConstant(Step(s, es[0]), es[0].now, es[1..]);
    }
  }
}
