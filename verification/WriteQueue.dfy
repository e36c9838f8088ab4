/**
 The memory write queue: one background flush loop that retries with backoff. Code between
 two awaits is one atomic step. Writes are named by their position in acceptance order, which
 is also their identity as objects: a loop that holds a write holds its number.
 */
module WriteQueues {
  import opened Arithmetic

  datatype Config = Config(maxAttempts: int, backoffBaseMs: nat, maxQueueSize: int)

  /** A flush loop at an await: storing a write, or backing off after a failed try. */
  datatype Loop = InSet(op: nat) | InDelay(op: nat)

  /**
   queue to disposed are the object's fields. attempts is the field of each accepted write;
   calls and waited count its tries at the store and its backoff; the last three are the
   fates the outside world sees.
   */
  datatype WQ = WQ(
    cfg: Config, queue: seq<nat>, flushing: bool, loops: seq<Loop>, disposed: bool,
    attempts: seq<nat>, calls: seq<nat>, waited: seq<nat>,
    persisted: seq<nat>, failed: seq<nat>, dropped: seq<nat>)

  datatype Event = Enqueue | SetDone(i: nat, ok: bool) | DelayDone(i: nat) | Dispose

  // ---- What the steps compute ----

  function Init(cfg: Config): WQ {
    WQ(cfg, [], false, [], false, [], [], [], [], [], [])
  }

  predicate Valid(q: WQ) {
    && |q.attempts| == |q.calls| == |q.waited|
    && (forall j :: 0 <= j < |q.queue| ==> q.queue[j] < |q.attempts|)
    && (forall j :: 0 <= j < |q.loops| ==> q.loops[j].op < |q.attempts|)
  }

  function Drop(q: WQ): WQ {
    if q.queue == [] then q else q.(queue := q.queue[1..], dropped := q.dropped + [q.queue[0]])
  }

  function Shift(q: WQ): WQ {
    if q.queue == [] then q else q.(queue := q.queue[1..])
  }

  function Push(q: WQ): WQ {
    q.(queue := q.queue + [|q.attempts|],
       attempts := q.attempts + [0], calls := q.calls + [0], waited := q.waited + [0])
  }

  /** The loop body up to its first await, for the queue's oldest write. */
  function StartSet(q: WQ, i: nat): WQ
    requires Valid(q) && q.queue != [] && i < |q.loops|
  {
    var op := q.queue[0];
    q.(loops := q.loops[i := InSet(op)], calls := q.calls[op := q.calls[op] + 1])
  }

  /** Back at the top of loop i: take the oldest write, or end the loop when there is none. */
  function Continue(q: WQ, i: nat): WQ
    requires Valid(q) && i < |q.loops|
  {
    if q.queue == [] then q.(loops := q.loops[..i] + q.loops[i + 1..], flushing := false)
    else StartSet(q, i)
  }

  /** flushPromise ??= flush() */
  function Kick(q: WQ): WQ
    requires Valid(q) && q.queue != []
  {
    if q.flushing then q
    else StartSet(q.(flushing := true, loops := q.loops + [InSet(q.queue[0])]), |q.loops|)
  }

  function MakeRoom(q: WQ): WQ {
    if |q.queue| >= q.cfg.maxQueueSize then Drop(q) else q
  }

  function EnqueueStep(q: WQ): WQ
    requires Valid(q)
  {
    if q.disposed then q else Kick(Push(MakeRoom(q)))
  }

  function Persist(q: WQ, op: nat): WQ {
    q.(persisted := q.persisted + [op])
  }

  function Bump(q: WQ, op: nat): WQ
    requires op < |q.attempts|
  {
    q.(attempts := q.attempts[op := q.attempts[op] + 1])
  }

  function GiveUp(q: WQ, op: nat): WQ {
    q.(failed := q.failed + [op])
  }

  function BackOff(q: WQ, i: nat, op: nat): WQ
    requires i < |q.loops| && op < |q.attempts| == |q.waited| && q.attempts[op] > 0
  {
    q.(loops := q.loops[i := InDelay(op)],
       waited := q.waited[op := q.waited[op] + q.cfg.backoffBaseMs * Pow2(q.attempts[op] - 1)])
  }

  /** The store has answered for the write that loop i holds. */
  function SetDoneStep(q: WQ, i: nat, ok: bool): WQ
    requires Valid(q) && i < |q.loops|
  {
    var op := q.loops[i].op;
    if ok then Continue(Shift(Persist(q, op)), i)
    else
      var r := Bump(q, op);
      if r.attempts[op] >= r.cfg.maxAttempts then Continue(Shift(GiveUp(r, op)), i) else BackOff(r, i, op)
  }

  predicate Possible(q: WQ, e: Event) {
    match e
    case Enqueue => true
    case SetDone(i, _) => i < |q.loops| && q.loops[i].InSet?
    case DelayDone(i) => i < |q.loops| && q.loops[i].InDelay?
    case Dispose => true
  }

  function Step(q: WQ, e: Event): WQ
    requires Valid(q) && Possible(q, e)
  {
    match e
    case Enqueue => EnqueueStep(q)
    case SetDone(i, ok) => SetDoneStep(q, i, ok)
    case DelayDone(i) => Continue(q, i)
    case Dispose => q.(disposed := true)
  }

  // ---- The queue itself ----

  class MemoryWriteQueue {
    const cfg: Config
    var queue: seq<nat>
    var attempts: seq<nat>
    var flushing: bool
    var disposed: bool
    ghost var loops: seq<Loop>
    ghost var calls: seq<nat>
    ghost var waited: seq<nat>
    ghost var persisted: seq<nat>
    ghost var failed: seq<nat>
    ghost var dropped: seq<nat>

    ghost function State(): WQ
      reads this
    {
      WQ(cfg, queue, flushing, loops, disposed, attempts, calls, waited, persisted, failed, dropped)
    }

    constructor (cfg: Config)
      ensures State() == Init(cfg)
    {
      this.cfg := cfg;
      queue, attempts, flushing, disposed := [], [], false, false;
      loops, calls, waited, persisted, failed, dropped := [], [], [], [], [], [];
    }

    method EnqueueWrite() returns (accepted: bool)
      requires Valid(State())
      modifies this
      ensures State() == EnqueueStep(old(State()))
      ensures accepted == !old(disposed)
    {
      if disposed {
        return false;
      }
      if |queue| >= cfg.maxQueueSize {
        DropOldest();
      }
      queue := queue + [|attempts|];
      attempts, calls, waited := attempts + [0], calls + [0], waited + [0];
      if !flushing {
        flushing := true;
        loops := loops + [InSet(queue[0])];
        calls := calls[queue[0] := calls[queue[0]] + 1];
      }
      accepted := true;
    }

    method DropOldest()
      modifies this`queue, this`dropped
      ensures State() == Drop(old(State()))
    {
      if queue != [] {
        dropped := dropped + [queue[0]];
        queue := queue[1..];
      }
    }

    /** The top of the flush loop: the next await, or the end of the loop. */
    method LoopTop(ghost i: nat)
      requires Valid(State()) && i < |loops|
      modifies this`loops, this`calls, this`flushing
      ensures State() == Continue(old(State()), i)
    {
      if queue == [] {
        flushing := false;
        loops := loops[..i] + loops[i + 1..];
        return;
      }
      loops := loops[i := InSet(queue[0])];
      calls := calls[queue[0] := calls[queue[0]] + 1];
    }

    /** The store has answered for the write this loop holds. */
    method OnSetDone(ghost i: nat, op: nat, ok: bool) returns (backoffMs: nat)
      requires Valid(State()) && i < |loops| && loops[i] == InSet(op)
      modifies this
      ensures State() == SetDoneStep(old(State()), i, ok)
      ensures !ok && old(attempts)[op] + 1 < cfg.maxAttempts ==>
        && backoffMs == cfg.backoffBaseMs * Pow2(old(attempts)[op])
        && attempts == old(attempts)[op := old(attempts)[op] + 1]
        && loops == old(loops)[i := InDelay(op)] && waited == old(waited)[op := old(waited)[op] + backoffMs]
        && queue == old(queue) && persisted == old(persisted) && failed == old(failed)
      ensures ok || old(attempts)[op] + 1 >= cfg.maxAttempts ==>
        && backoffMs == 0 && queue == (if old(queue) == [] then [] else old(queue)[1..])
        && persisted == (if ok then old(persisted) + [op] else old(persisted))
        && failed == (if ok then old(failed) else old(failed) + [op])
    {
      backoffMs := 0;
      if ok {
        persisted := persisted + [op];
        if queue != [] {
          queue := queue[1..];
        }
        LoopTop(i);
      } else {
        attempts := attempts[op := attempts[op] + 1];
        if attempts[op] >= cfg.maxAttempts {
          failed := failed + [op];
          if queue != [] {
            queue := queue[1..];
          }
          LoopTop(i);
        } else {
          backoffMs := cfg.backoffBaseMs * Pow2(attempts[op] - 1);
          loops, waited := loops[i := InDelay(op)], waited[op := waited[op] + backoffMs];
        }
      }
    }

    method BeginDispose()
      modifies this`disposed
      ensures State() == old(State()).(disposed := true)
    {
      disposed := true;
    }
  }

  // ---- Runs ----

  predicate PossibleRun(q: WQ, es: seq<Event>)
    decreases |es|
  {
    es == [] || (Valid(q) && Possible(q, es[0]) && PossibleRun(Step(q, es[0]), es[1..]))
  }

  function Final(q: WQ, es: seq<Event>): WQ
    requires PossibleRun(q, es)
    decreases |es|
  {
    if es == [] then q else Final(Step(q, es[0]), es[1..])
  }

  // ---- One flush loop, no lost wakeup ----

  /** At most one loop; the promise is set exactly while it runs; it runs exactly while writes are pending. */
  predicate FlushOk(q: WQ) {
    && Valid(q) && |q.loops| <= 1
    && (q.flushing <==> |q.loops| == 1)
    && (q.queue != [] <==> |q.loops| == 1)
  }

  lemma FlushEnqueue(q: WQ)
    requires FlushOk(q)
    ensures FlushOk(EnqueueStep(q))
  {
    var room := MakeRoom(q);
    assert Valid(room) && room.loops == q.loops && room.flushing == q.flushing;
    assert Valid(Push(room));
  }

  /** A loop back at its top goes on exactly while writes are pending. */
  lemma FlushContinue(q: WQ)
    requires Valid(q) && q.flushing && |q.loops| == 1
    ensures FlushOk(Continue(q, 0))
  {
  }

  lemma FlushSetDone(q: WQ, ok: bool)
    requires FlushOk(q) && Possible(q, SetDone(0, ok))
    ensures FlushOk(SetDoneStep(q, 0, ok))
  {
    var op := q.loops[0].op;
    if ok {
      FlushContinue(Shift(Persist(q, op)));
    } else if q.attempts[op] + 1 >= q.cfg.maxAttempts {
      FlushContinue(Shift(GiveUp(Bump(q, op), op)));
    }
  }

  lemma FlushStep(q: WQ, e: Event)
    requires FlushOk(q) && Possible(q, e)
    ensures FlushOk(Step(q, e))
  {
    match e
    case Enqueue => FlushEnqueue(q);
    case SetDone(i, ok) => FlushSetDone(q, ok);
    case DelayDone(i) => FlushContinue(q);
    case Dispose =>
  }

  /**
   In every run whatsoever, overflow included: a non-empty queue has exactly one flush loop
   running and an empty one has none, so no accepted write waits without a loop.
   */
  lemma {:induction false} NoLostWakeup(q: WQ, es: seq<Event>)
    requires FlushOk(q) && PossibleRun(q, es)
    ensures FlushOk(Final(q, es))
    decreases |es|
  {
    if es != [] {
      FlushStep(q, es[0]);
      NoLostWakeup(Step(q, es[0]), es[1..]);
    }
  }

  // ---- What holds in every run ----

  function Times(s: seq<nat>, x: nat): nat {
    if s == [] then 0 else Times(s[..|s| - 1], x) + if s[|s| - 1] == x then 1 else 0
  }

  lemma TimesSnoc(s: seq<nat>, v: nat, x: nat)
    ensures Times(s + [v], x) == Times(s, x) + if v == x then 1 else 0
  {
    assert (s + [v])[..|s|] == s;
  }

  /** Strictly ascending, all below bound. */
  predicate AscendingBelow(s: seq<nat>, bound: nat) {
    s == [] || (s[|s| - 1] < bound && AscendingBelow(s[..|s| - 1], s[|s| - 1]))
  }

  lemma {:induction false} AscendingWeaken(s: seq<nat>, a: nat, b: nat)
    requires AscendingBelow(s, a) && a <= b
    ensures AscendingBelow(s, b)
  {
  }

  /** The first write still queued: nothing before it is queued any more. */
  function Head(q: WQ): int {
    |q.attempts| - |q.queue|
  }

  function MaxTries(q: WQ): nat {
    if q.cfg.maxAttempts < 1 then 1 else q.cfg.maxAttempts
  }

  function Backoff(q: WQ, tries: nat): nat {
    q.cfg.backoffBaseMs * (Pow2(if tries < MaxTries(q) then tries else MaxTries(q) - 1) - 1)
  }

  /** The queue is the accepted writes from Head on, in order. */
  predicate Contiguous(q: WQ) {
    Head(q) >= 0 && forall j :: 0 <= j < |q.queue| ==> q.queue[j] == Head(q) + j
  }

  /** The loop holds the oldest write, or one that an overflow has dropped in the meantime. */
  predicate LoopBelow(q: WQ) {
    |q.loops| == 1 ==> q.loops[0].op <= Head(q)
  }

  predicate Sane(q: WQ) {
    FlushOk(q) && Contiguous(q) && LoopBelow(q)
  }

  predicate InFlight(q: WQ, x: nat) {
    |q.loops| == 1 && q.loops[0] == InSet(x)
  }

  lemma DroppedHead(q: WQ)
    requires Valid(q) && Contiguous(q) && q.queue != []
    ensures Valid(Drop(q)) && Contiguous(Drop(q)) && Head(Drop(q)) == Head(q) + 1 && q.queue[0] == Head(q)
  {
  }

  lemma ShiftedHead(q: WQ)
    requires Valid(q) && Contiguous(q) && q.queue != []
    ensures Valid(Shift(q)) && Contiguous(Shift(q)) && Head(Shift(q)) == Head(q) + 1
  {
  }

  lemma SaneEnqueue(q: WQ)
    requires Sane(q)
    ensures Sane(EnqueueStep(q)) && Head(EnqueueStep(q)) >= Head(q)
  {
    FlushEnqueue(q);
    if q.queue != [] {
      DroppedHead(q);
    }
  }

  lemma SaneSettle(q: WQ)
    requires FlushOk(q) && Contiguous(q) && q.loops != []
    ensures Sane(Continue(Shift(q), 0)) && Head(Continue(Shift(q), 0)) == Head(q) + 1
  {
    ShiftedHead(q);
    FlushContinue(Shift(q));
  }

  lemma SaneSetDone(q: WQ, ok: bool)
    requires Sane(q) && Possible(q, SetDone(0, ok))
    ensures Sane(SetDoneStep(q, 0, ok)) && Head(SetDoneStep(q, 0, ok)) >= Head(q)
  {
    var op := q.loops[0].op;
    if ok {
      SaneSettle(Persist(q, op));
    } else if q.attempts[op] + 1 >= q.cfg.maxAttempts {
      SaneSettle(GiveUp(Bump(q, op), op));
    } else {
      FlushSetDone(q, ok);
    }
  }

  lemma SaneStep(q: WQ, e: Event)
    requires Sane(q) && Possible(q, e)
    ensures Sane(Step(q, e)) && Head(Step(q, e)) >= Head(q)
  {
    match e
    case Enqueue => SaneEnqueue(q);
    case SetDone(i, ok) => SaneSetDone(q, ok);
    case DelayDone(i) => FlushContinue(q);
    case Dispose =>
  }

  lemma StepKeepsConfig(q: WQ, e: Event)
    requires Valid(q) && Possible(q, e) && Valid(Step(q, e))
    ensures Step(q, e).cfg == q.cfg
  {
  }

  /** The tries and the backoff of write x, when those from head on have not been settled. */
  predicate TriedAt(q: WQ, x: nat, head: int, inFlight: bool)
    requires |q.attempts| == |q.calls| == |q.waited|
  {
    && (x >= head ==> Times(q.persisted, x) + Times(q.failed, x) == 0)
    && (x < |q.attempts| ==>
      && Times(q.persisted, x) + Times(q.failed, x) + (if inFlight then 1 else 0) <= 1
      && q.calls[x] == q.attempts[x] + Times(q.persisted, x) + (if inFlight then 1 else 0)
      && (if Times(q.failed, x) == 1 then q.attempts[x] == MaxTries(q) else q.attempts[x] < MaxTries(q))
      && q.waited[x] == Backoff(q, q.attempts[x]))
  }

  predicate Tried(q: WQ, x: nat)
    requires Valid(q)
  {
    TriedAt(q, x, Head(q), InFlight(q, x))
  }

  lemma TriedStart(q: WQ, x: nat)
    requires Valid(q) && Contiguous(q) && q.queue != [] && |q.loops| == 1 && TriedAt(q, x, Head(q), false)
    ensures Valid(StartSet(q, 0)) && Tried(StartSet(q, 0), x)
  {
    assert q.queue[0] == Head(q);
  }

  lemma TriedEnd(q: WQ, x: nat)
    requires Valid(q) && Contiguous(q) && q.queue == [] && |q.loops| == 1 && TriedAt(q, x, Head(q), false)
    ensures Valid(Continue(q, 0)) && Tried(Continue(q, 0), x)
  {
  }

  /** A loop at its top: the next write, if any, is tried once more. */
  lemma TriedContinue(q: WQ, x: nat)
    requires Valid(q) && Contiguous(q) && |q.loops| == 1 && TriedAt(q, x, Head(q), false)
    ensures Valid(Continue(q, 0)) && Tried(Continue(q, 0), x)
  {
    if q.queue != [] {
      TriedStart(q, x);
    } else {
      TriedEnd(q, x);
    }
  }

  lemma TriedShift(q: WQ, x: nat)
    requires Valid(q) && Contiguous(q) && q.queue != [] && TriedAt(q, x, Head(q) + 1, false)
    ensures Valid(Shift(q)) && Contiguous(Shift(q)) && TriedAt(Shift(q), x, Head(Shift(q)), false)
  {
    ShiftedHead(q);
  }

  lemma TriedSettle(q: WQ, x: nat)
    requires Valid(q) && Contiguous(q) && q.queue != [] && |q.loops| == 1 && TriedAt(q, x, Head(q) + 1, false)
    ensures Valid(Shift(q)) && Valid(Continue(Shift(q), 0)) && Tried(Continue(Shift(q), 0), x)
  {
    TriedShift(q, x);
    TriedContinue(Shift(q), x);
  }

  lemma TriedPersist(q: WQ, op: nat, x: nat, head: nat)
    requires |q.attempts| == |q.calls| == |q.waited| && op <= head && TriedAt(q, x, head, x == op)
    ensures TriedAt(Persist(q, op), x, head + 1, false)
  {
    TimesSnoc(q.persisted, op, x);
  }

  lemma TriedGiveUp(q: WQ, op: nat, x: nat, head: nat)
    requires |q.attempts| == |q.calls| == |q.waited| && op <= head && op < |q.attempts|
    requires TriedAt(q, x, head, x == op) && q.attempts[op] + 1 >= q.cfg.maxAttempts
    ensures TriedAt(GiveUp(Bump(q, op), op), x, head + 1, false)
  {
    TimesSnoc(q.failed, op, x);
  }

  /** Doubling delays add up. */
  lemma BackoffStep(q: WQ, tries: nat)
    requires tries + 1 < MaxTries(q)
    ensures Backoff(q, tries + 1) == Backoff(q, tries) + q.cfg.backoffBaseMs * Pow2(tries)
  {
    var b, p := q.cfg.backoffBaseMs, Pow2(tries);
    assert b * (2 * p - 1) == b * (p - 1) + b * p;
  }

  lemma TriedBackOff(q: WQ, op: nat, x: nat)
    requires Sane(q) && Tried(q, x) && InFlight(q, op) && q.attempts[op] + 1 < q.cfg.maxAttempts
    ensures var t := BackOff(Bump(q, op), 0, op); Valid(t) && Tried(t, x)
  {
    BackoffStep(q, q.attempts[op]);
  }

  lemma TriedDrop(q: WQ, x: nat)
    requires Valid(q) && Contiguous(q) && Tried(q, x)
    ensures Valid(Drop(q)) && Contiguous(Drop(q)) && Tried(Drop(q), x)
  {
    if q.queue != [] {
      DroppedHead(q);
    }
  }

  lemma TriedPush(q: WQ, x: nat)
    requires Valid(q) && Contiguous(q) && Tried(q, x)
    ensures Valid(Push(q)) && Contiguous(Push(q)) && Tried(Push(q), x)
  {
  }

  lemma TriedKick(q: WQ, x: nat)
    requires Valid(q) && Contiguous(q) && q.queue != [] && Tried(q, x) && (q.flushing <==> q.loops != [])
    ensures Valid(Kick(q)) && Tried(Kick(q), x)
  {
  }

  lemma TriedEnqueue(q: WQ, x: nat)
    requires Sane(q) && Tried(q, x)
    ensures Valid(EnqueueStep(q)) && Tried(EnqueueStep(q), x)
  {
    if !q.disposed {
      if |q.queue| >= q.cfg.maxQueueSize {
        TriedDrop(q, x);
      }
      TriedPush(MakeRoom(q), x);
      TriedKick(Push(MakeRoom(q)), x);
    }
  }

  lemma TriedPersisted(q: WQ, op: nat, x: nat)
    requires Sane(q) && Tried(q, x) && InFlight(q, op)
    ensures Valid(SetDoneStep(q, 0, true)) && Tried(SetDoneStep(q, 0, true), x)
  {
    TriedPersist(q, op, x, Head(q));
    TriedSettle(Persist(q, op), x);
  }

  lemma TriedGivenUp(q: WQ, op: nat, x: nat)
    requires Sane(q) && Tried(q, x) && InFlight(q, op) && q.attempts[op] + 1 >= q.cfg.maxAttempts
    ensures Valid(SetDoneStep(q, 0, false)) && Tried(SetDoneStep(q, 0, false), x)
  {
    TriedGiveUp(q, op, x, Head(q));
    TriedSettle(GiveUp(Bump(q, op), op), x);
  }

  lemma TriedSetDone(q: WQ, ok: bool, op: nat, x: nat)
    requires Sane(q) && Tried(q, x) && InFlight(q, op)
    ensures Valid(SetDoneStep(q, 0, ok)) && Tried(SetDoneStep(q, 0, ok), x)
  {
    if ok {
      TriedPersisted(q, op, x);
    } else if q.attempts[op] + 1 >= q.cfg.maxAttempts {
      TriedGivenUp(q, op, x);
    } else {
      TriedBackOff(q, op, x);
    }
  }

  lemma TriedResume(q: WQ, x: nat)
    requires Sane(q) && Tried(q, x) && Possible(q, DelayDone(0))
    ensures Valid(Continue(q, 0)) && Tried(Continue(q, 0), x)
  {
    TriedContinue(q, x);
  }

  lemma TriedStep(q: WQ, e: Event, x: nat)
    requires Sane(q) && Tried(q, x) && Possible(q, e)
    ensures Valid(Step(q, e)) && Tried(Step(q, e), x)
  {
    match e
    case Enqueue => TriedEnqueue(q, x);
    case SetDone(i, ok) =>
      assert i == 0;
      TriedSetDone(q, ok, q.loops[0].op, x);
    case DelayDone(i) =>
      assert i == 0;
      TriedResume(q, x);
    case Dispose =>
  }

  lemma {:induction false} TriedRun(q: WQ, es: seq<Event>, x: nat)
    requires Sane(q) && Tried(q, x) && PossibleRun(q, es)
    ensures Sane(Final(q, es)) && Tried(Final(q, es), x)
    ensures Final(q, es).cfg == q.cfg
    decreases |es|
  {
    if es != [] {
      var t := Step(q, es[0]);
      SaneStep(q, es[0]);
      TriedStep(q, es[0], x);
      StepKeepsConfig(q, es[0]);
      TriedRun(t, es[1..], x);
      assert Final(q, es) == Final(t, es[1..]);
    }
  }

  /** The next write that can be persisted, or the one being stored. */
  function Next(q: WQ): int {
    if |q.loops| == 1 && q.loops[0].InSet? then q.loops[0].op else Head(q)
  }

  predicate InOrder(q: WQ) {
    Next(q) >= 0 && AscendingBelow(q.persisted, Next(q))
  }

  lemma NextAdvances(q: WQ, e: Event)
    requires Sane(q) && Possible(q, e)
    ensures Next(Step(q, e)) >= Next(q)
    ensures e.SetDone? && e.ok ==> Next(Step(q, e)) > Next(q)
  {
    SaneStep(q, e);
    if e.SetDone? && (e.ok || q.attempts[q.loops[0].op] + 1 >= q.cfg.maxAttempts) {
      ShiftedHead(q);
    }
  }

  lemma InOrderStep(q: WQ, e: Event)
    requires Sane(q) && InOrder(q) && Possible(q, e)
    ensures InOrder(Step(q, e))
  {
    var t := Step(q, e);
    NextAdvances(q, e);
    if e.SetDone? && e.ok {
      assert t.persisted == q.persisted + [Next(q)];
      assert t.persisted[..|q.persisted|] == q.persisted;
    } else {
      assert t.persisted == q.persisted;
      AscendingWeaken(q.persisted, Next(q), Next(t));
    }
  }

  lemma {:induction false} InOrderRun(q: WQ, es: seq<Event>)
    requires Sane(q) && InOrder(q) && PossibleRun(q, es)
    ensures InOrder(Final(q, es))
    decreases |es|
  {
    if es != [] {
      InOrderStep(q, es[0]);
      SaneStep(q, es[0]);
      InOrderRun(Step(q, es[0]), es[1..]);
    }
  }

  /**
   In every run whatsoever, overflow included: writes are persisted in the order they were accepted,
   each at most once and never after it failed; each is tried at most maxAttempts times, exactly
   that often if it failed for good, and waits no longer than the doubling delays add up to.
   */
  lemma TriesAndOrder(cfg: Config, es: seq<Event>, x: nat)
    requires PossibleRun(Init(cfg), es)
    ensures var q := Final(Init(cfg), es);
      && Valid(q) && q.cfg == cfg
      && AscendingBelow(q.persisted, |q.attempts|)
      && Times(q.persisted, x) + Times(q.failed, x) <= 1
      && (x < |q.attempts| ==>
        && q.calls[x] <= MaxTries(q)
        && (x in q.failed ==> q.calls[x] == MaxTries(q))
        && (x in q.persisted ==> q.calls[x] >= 1)
        && q.waited[x] <= cfg.backoffBaseMs * (Pow2(MaxTries(q) - 1) - 1))
  {
    TriedRun(Init(cfg), es, x);
    InOrderRun(Init(cfg), es);
    var q := Final(Init(cfg), es);
    NextWithin(q);
    AscendingWeaken(q.persisted, Next(q), |q.attempts|);
    TimesIn(q.failed, x);
    TimesIn(q.persisted, x);
    if x < |q.attempts| {
      BackoffBound(q, q.attempts[x]);
    }
  }

  lemma NextWithin(q: WQ)
    requires Sane(q)
    ensures 0 <= Next(q) <= |q.attempts|
  {
  }

  lemma {:induction false} TimesIn(s: seq<nat>, x: nat)
    ensures x in s <==> Times(s, x) >= 1
  {
    if s != [] {
      TimesIn(s[..|s| - 1], x);
      assert s == s[..|s| - 1] + [s[|s| - 1]];
    }
  }

  lemma BackoffBound(q: WQ, tries: nat)
    ensures Backoff(q, tries) <= q.cfg.backoffBaseMs * (Pow2(MaxTries(q) - 1) - 1)
  {
    var n := if tries < MaxTries(q) then tries else MaxTries(q) - 1;
    Pow2Monotone(n, MaxTries(q) - 1);
    assert forall b: nat, p: nat, r: nat :: p <= r ==> b * p <= b * r;
  }

  // ---- Conservation ----

  /** In how many of the four places a write is. */
  function Places(q: WQ, x: nat): nat {
    Times(q.persisted, x) + Times(q.failed, x) + Times(q.dropped, x) + Times(q.queue, x)
  }

  /** The one thing to avoid: accepting into a full queue while a write is being stored. */
  predicate Safe(q: WQ, e: Event) {
    e.Enqueue? && !q.disposed && |q.queue| >= q.cfg.maxQueueSize ==> q.loops == [] || q.loops[0].InDelay?
  }

  predicate SafeRun(q: WQ, es: seq<Event>)
    requires PossibleRun(q, es)
    decreases |es|
  {
    es == [] || (Safe(q, es[0]) && SafeRun(Step(q, es[0]), es[1..]))
  }

  /** Then a write being stored is still the oldest one. */
  predicate HoldsHead(q: WQ) {
    |q.loops| == 1 && q.loops[0].InSet? ==> q.loops[0].op == Head(q)
  }

  /** Exactly the writes before Head are settled, each once. */
  predicate Settled(q: WQ, x: nat) {
    Times(q.persisted, x) + Times(q.failed, x) + Times(q.dropped, x) == if x < Head(q) then 1 else 0
  }

  lemma HoldsHeadStep(q: WQ, e: Event)
    requires Sane(q) && HoldsHead(q) && Possible(q, e) && Safe(q, e)
    ensures HoldsHead(Step(q, e))
  {
    SaneStep(q, e);
  }

  lemma SettledEnqueue(q: WQ, x: nat)
    requires Sane(q) && Settled(q, x)
    ensures Settled(EnqueueStep(q), x)
  {
    if q.queue != [] {
      DroppedHead(q);
      TimesSnoc(q.dropped, q.queue[0], x);
    }
  }

  /** The answer settles the write that was asked for: it is stored, or this was its last try. */
  predicate Settles(q: WQ, op: nat, ok: bool)
    requires op < |q.attempts|
  {
    ok || q.attempts[op] + 1 >= q.cfg.maxAttempts
  }

  lemma ShiftShape(q: WQ)
    requires Valid(q) && Contiguous(q) && q.queue != [] && |q.loops| == 1
    ensures var u := Continue(Shift(q), 0);
      && u.persisted == q.persisted && u.failed == q.failed && u.dropped == q.dropped
      && |u.attempts| == |q.attempts| && u.queue == q.queue[1..]
  {
  }

  lemma SettlingShape(q: WQ, ok: bool)
    requires Sane(q) && Possible(q, SetDone(0, ok)) && Settles(q, q.loops[0].op, ok)
    ensures var u, op := SetDoneStep(q, 0, ok), q.loops[0].op;
      && u.persisted == (if ok then q.persisted + [op] else q.persisted)
      && u.failed == (if ok then q.failed else q.failed + [op])
      && u.dropped == q.dropped && |u.attempts| == |q.attempts| && u.queue == q.queue[1..]
  {
    var op := q.loops[0].op;
    ShiftShape(if ok then Persist(q, op) else GiveUp(Bump(q, op), op));
  }

  lemma SettledAnswered(q: WQ, ok: bool, x: nat)
    requires Sane(q) && Possible(q, SetDone(0, ok)) && q.loops[0].op == Head(q) && Settled(q, x)
    requires Settles(q, Head(q), ok)
    ensures Settled(SetDoneStep(q, 0, ok), x)
  {
    SettlingShape(q, ok);
    TimesSnoc(q.persisted, Head(q), x);
    TimesSnoc(q.failed, Head(q), x);
  }

  lemma BackOffSettled(q: WQ, x: nat)
    requires Sane(q) && Possible(q, SetDone(0, false)) && !Settles(q, q.loops[0].op, false) && Settled(q, x)
    ensures Settled(SetDoneStep(q, 0, false), x)
  {
  }

  lemma SettledSetDone(q: WQ, ok: bool, x: nat)
    requires Sane(q) && HoldsHead(q) && Possible(q, SetDone(0, ok)) && Settled(q, x)
    ensures Settled(SetDoneStep(q, 0, ok), x)
  {
    if Settles(q, q.loops[0].op, ok) {
      SettledAnswered(q, ok, x);
    } else {
      BackOffSettled(q, x);
    }
  }

  lemma SettledStep(q: WQ, e: Event, x: nat)
    requires Sane(q) && HoldsHead(q) && Possible(q, e) && Settled(q, x)
    ensures Settled(Step(q, e), x)
  {
    match e
    case Enqueue => SettledEnqueue(q, x);
    case SetDone(i, ok) => SettledSetDone(q, ok, x);
    case DelayDone(i) =>
    case Dispose =>
  }

  lemma {:induction false} SettledRun(q: WQ, es: seq<Event>, x: nat)
    requires Sane(q) && HoldsHead(q) && Settled(q, x) && PossibleRun(q, es) && SafeRun(q, es)
    ensures Sane(Final(q, es)) && HoldsHead(Final(q, es)) && Settled(Final(q, es), x)
    decreases |es|
  {
    if es != [] {
      SaneStep(q, es[0]);
      HoldsHeadStep(q, es[0]);
      SettledStep(q, es[0], x);
      SettledRun(Step(q, es[0]), es[1..], x);
    }
  }

  lemma {:induction false} QueuedOnce(s: seq<nat>, from: nat, x: nat)
    requires forall j :: 0 <= j < |s| ==> s[j] == from + j
    ensures Times(s, x) == if from <= x < from + |s| then 1 else 0
  {
    if s != [] {
      QueuedOnce(s[..|s| - 1], from, x);
    }
  }

  lemma SettledOnce(q: WQ, x: nat)
    requires Sane(q) && Settled(q, x)
    ensures Places(q, x) == if x < |q.attempts| then 1 else 0
  {
    QueuedOnce(q.queue, Head(q), x);
  }

  /**
   Write-queue conservation, for every run in which no write is accepted into a full queue while
   another is being stored: each accepted write is, exactly once, persisted, permanently failed,
   dropped by overflow or pending.
   */
  lemma WritesConserved(cfg: Config, es: seq<Event>, x: nat)
    requires PossibleRun(Init(cfg), es) && SafeRun(Init(cfg), es)
    ensures var q := Final(Init(cfg), es); Places(q, x) == if x < |q.attempts| then 1 else 0
  {
    SettledRun(Init(cfg), es, x);
    SettledOnce(Final(Init(cfg), es), x);
  }

  // ---- The condition is exact ----

  /** The store answers for the write in flight right after another one was accepted. */
  function EnqueueThenAnswered(q: WQ, ok: bool): WQ
    requires FlushOk(q) && q.queue != []
  {
    FlushStep(q, Enqueue);
    SetDoneStep(EnqueueStep(q), 0, ok)
  }

  lemma OverflowShape(q: WQ, ok: bool)
    requires Sane(q) && !q.disposed && InFlight(q, Head(q)) && |q.queue| >= q.cfg.maxQueueSize
    requires Settles(q, Head(q), ok)
    ensures var u := EnqueueThenAnswered(q, ok);
      && u.persisted == (if ok then q.persisted + [Head(q)] else q.persisted)
      && u.failed == (if ok then q.failed else q.failed + [Head(q)])
      && u.dropped == q.dropped + [Head(q)]
      && (forall j :: 0 <= j < |u.queue| ==> u.queue[j] == Head(q) + 2 + j)
  {
    var t := EnqueueStep(q);
    SaneEnqueue(q);
    EnqueueKeepsFlight(q);
    assert Head(t) == Head(q) + 1;
    SettlingShape(t, ok);
  }

  /** The write accepted next after the one in flight ends up in no place at all. */
  lemma OverflowLoses(q: WQ, ok: bool)
    requires Sane(q) && !q.disposed && InFlight(q, Head(q)) && |q.queue| >= q.cfg.maxQueueSize
    requires Settles(q, Head(q), ok) && Settled(q, Head(q) + 1)
    ensures Head(q) + 1 < |EnqueueStep(q).attempts| && Places(EnqueueThenAnswered(q, ok), Head(q) + 1) == 0
  {
    var u, x := EnqueueThenAnswered(q, ok), Head(q) + 1;
    OverflowShape(q, ok);
    TimesSnoc(q.persisted, Head(q), x);
    TimesSnoc(q.failed, Head(q), x);
    TimesSnoc(q.dropped, Head(q), x);
    QueuedOnce(u.queue, x + 1, x);
  }

  lemma RoomLosesNone(q: WQ, ok: bool, x: nat)
    requires Sane(q) && InFlight(q, Head(q)) && Safe(q, Enqueue) && Settled(q, x)
    requires x < |EnqueueStep(q).attempts|
    ensures Places(EnqueueThenAnswered(q, ok), x) == 1
  {
    var t := EnqueueStep(q);
    SaneEnqueue(q);
    HoldsHeadStep(q, Enqueue);
    SettledEnqueue(q, x);
    SaneSetDone(t, ok);
    SettledSetDone(t, ok, x);
    SettledOnce(EnqueueThenAnswered(q, ok), x);
    AnswerAcceptsNone(t, ok);
  }

  /** A failed try with others left only backs off; the loop then goes on with the oldest queued write. */
  lemma BackOffLosesNone(q: WQ, x: nat)
    requires Sane(q) && InFlight(q, Head(q)) && !q.disposed && Settled(q, x) && !Settles(q, Head(q), false)
    requires x < |EnqueueStep(q).attempts|
    ensures Places(EnqueueThenAnswered(q, false), x) == 1
  {
    var t := EnqueueStep(q);
    SaneEnqueue(q);
    SettledEnqueue(q, x);
    SaneSetDone(t, false);
    EnqueueKeepsFlight(q);
    BackOffSettled(t, x);
    SettledOnce(EnqueueThenAnswered(q, false), x);
    AnswerAcceptsNone(t, false);
  }

  lemma EnqueueKeepsFlight(q: WQ)
    requires Sane(q) && |q.loops| == 1 && !q.disposed
    ensures var t, op := EnqueueStep(q), q.loops[0].op;
      t.loops == q.loops && t.cfg == q.cfg && op < |t.attempts| && t.attempts[op] == q.attempts[op]
  {
    if q.queue != [] {
      DroppedHead(q);
    }
  }

  lemma AnswerAcceptsNone(q: WQ, ok: bool)
    requires Sane(q) && Possible(q, SetDone(0, ok))
    ensures |SetDoneStep(q, 0, ok).attempts| == |q.attempts|
  {
  }

  /**
   The condition is exact. Accepting into a full queue drops the write being stored, and when
   the store's answer then settles it, the loop shifts another one off unseen, which is lost. With
   room, or with a try left after a failure, no write is.
   */
  lemma OverflowLosesExactly(q: WQ, ok: bool)
    requires Sane(q) && !q.disposed && InFlight(q, Head(q))
    requires forall x: nat :: Settled(q, x)
    ensures (exists x: nat :: x < |EnqueueStep(q).attempts| && Places(EnqueueThenAnswered(q, ok), x) == 0)
       <==> |q.queue| >= q.cfg.maxQueueSize && Settles(q, Head(q), ok)
  {
    if |q.queue| >= q.cfg.maxQueueSize && Settles(q, Head(q), ok) {
      OverflowLoses(q, ok);
    } else {
      forall x: nat | x < |EnqueueStep(q).attempts|
        ensures Places(EnqueueThenAnswered(q, ok), x) == 1
      {
        if |q.queue| < q.cfg.maxQueueSize {
          RoomLosesNone(q, ok, x);
        } else {
          BackOffLosesNone(q, x);
        }
      }
    }
  }

  /** In every safe run, those hypotheses hold; so the condition speaks about every one of them. */
  lemma OverflowAfterRun(cfg: Config, es: seq<Event>, ok: bool)
    requires PossibleRun(Init(cfg), es) && SafeRun(Init(cfg), es)
    ensures var q := Final(Init(cfg), es);
      && Sane(q)
      && (!q.disposed && q.queue != [] && InFlight(q, Head(q)) ==>
           ((exists x: nat :: x < |EnqueueStep(q).attempts| && Places(EnqueueThenAnswered(q, ok), x) == 0)
            <==> |q.queue| >= cfg.maxQueueSize && Settles(q, Head(q), ok)))
  {
    TriedRun(Init(cfg), es, 0);
    var q := Final(Init(cfg), es);
    forall x: nat
      ensures Settled(q, x)
    {
      SettledRun(Init(cfg), es, x);
    }
    if !q.disposed && q.queue != [] && InFlight(q, Head(q)) {
      OverflowLosesExactly(q, ok);
    }
  }

  // ---- Which runs place every write ----

  /** Each accepted write is in exactly one of the four places, and nothing else is in any. */
  ghost predicate AllPlaced(q: WQ) {
    forall x: nat :: Places(q, x) == if x < |q.attempts| then 1 else 0
  }

  ghost predicate PlacedRun(q: WQ, es: seq<Event>)
    requires PossibleRun(q, es)
    decreases |es|
  {
    AllPlaced(q) && (es == [] || PlacedRun(Step(q, es[0]), es[1..]))
  }

  /** An answer that settles a write finds it at the head of the queue, where the loop shifts. */
  predicate ShiftsOwn(q: WQ, e: Event)
    requires Valid(q) && Possible(q, e)
  {
    e.SetDone? && Settles(q, q.loops[e.i].op, e.ok) ==> q.loops[e.i].op == Head(q)
  }

  predicate ShiftsOwnRun(q: WQ, es: seq<Event>)
    requires PossibleRun(q, es)
    decreases |es|
  {
    es == [] || (ShiftsOwn(q, es[0]) && ShiftsOwnRun(Step(q, es[0]), es[1..]))
  }

  lemma ShiftsOwnSettles(q: WQ, e: Event, x: nat)
    requires Sane(q) && Possible(q, e) && ShiftsOwn(q, e) && Settled(q, x)
    ensures Settled(Step(q, e), x)
  {
    match e
    case Enqueue => SettledEnqueue(q, x);
    case SetDone(i, ok) =>
      if Settles(q, q.loops[i].op, ok) {
        SettledSetDone(q, ok, x);
      } else {
        BackOffSettled(q, x);
      }
    case DelayDone(i) =>
    case Dispose =>
  }

  /** Nothing holds the oldest queued write any more once it is shifted off for another one. */
  lemma ShiftedUnseen(q: WQ, u: WQ, op: nat, ok: bool)
    requires Contiguous(q) && q.queue != [] && op < Head(q) && Settled(q, Head(q))
    requires u.persisted == (if ok then q.persisted + [op] else q.persisted)
    requires u.failed == (if ok then q.failed else q.failed + [op])
    requires u.dropped == q.dropped && u.queue == q.queue[1..]
    ensures Places(u, Head(q)) == 0
  {
    TimesSnoc(q.persisted, op, Head(q));
    TimesSnoc(q.failed, op, Head(q));
    QueuedOnce(q.queue[1..], Head(q) + 1, Head(q));
  }

  /** Settling a dropped write shifts off the oldest queued one, which is then nowhere. */
  lemma OrphanLosesHead(q: WQ, ok: bool)
    requires Sane(q) && Possible(q, SetDone(0, ok)) && Settled(q, Head(q))
    requires q.loops[0].op < Head(q) && Settles(q, q.loops[0].op, ok)
    ensures Head(q) < |SetDoneStep(q, 0, ok).attempts| && Places(SetDoneStep(q, 0, ok), Head(q)) == 0
  {
    SettlingShape(q, ok);
    ShiftedUnseen(q, SetDoneStep(q, 0, ok), q.loops[0].op, ok);
  }

  lemma {:induction false} PlacedExactlyFrom(q: WQ, es: seq<Event>)
    requires Sane(q) && PossibleRun(q, es) && forall x: nat :: Settled(q, x)
    ensures PlacedRun(q, es) <==> ShiftsOwnRun(q, es)
    decreases |es|
  {
    forall x: nat
      ensures Places(q, x) == if x < |q.attempts| then 1 else 0
    {
      SettledOnce(q, x);
    }
    if es != [] {
      var e := es[0];
      SaneStep(q, e);
      if ShiftsOwn(q, e) {
        forall x: nat
          ensures Settled(Step(q, e), x)
        {
          ShiftsOwnSettles(q, e, x);
        }
        PlacedExactlyFrom(Step(q, e), es[1..]);
      } else {
        OrphanLosesHead(q, e.ok);
        assert !AllPlaced(Step(q, e));
      }
    }
  }

  /**
   Exactly which runs of a new queue keep every accepted write in exactly one place throughout:
   those in which whatever the loop shifts off is the write whose answer it got, so that no write
   dropped while it was being stored is stored, or fails its last try, after all.
   */
  lemma PlacedExactly(cfg: Config, es: seq<Event>)
    requires PossibleRun(Init(cfg), es)
    ensures PlacedRun(Init(cfg), es) <==> ShiftsOwnRun(Init(cfg), es)
  {
    PlacedExactlyFrom(Init(cfg), es);
  }

  function FirstInFlight(cfg: Config): WQ {
    WQ(cfg, [0], true, [InSet(0)], false, [0], [1], [0], [], [], [])
  }

  /** The first of two writes was dropped while the store was asked for it. */
  function FirstDropped(cfg: Config): WQ {
    WQ(cfg, [1], true, [InSet(0)], false, [0, 0], [1, 0], [0, 0], [], [], [0])
  }

  lemma FirstEnqueued(cfg: Config)
    requires cfg.maxQueueSize == 1
    ensures EnqueueStep(Init(cfg)) == FirstInFlight(cfg)
  {
    var q := Push(Init(cfg));
    assert MakeRoom(Init(cfg)) == Init(cfg);
    assert q == WQ(cfg, [0], false, [], false, [0], [0], [0], [], [], []);
    assert [] + [InSet(0)] == [InSet(0)];
  }

  lemma SecondEnqueued(cfg: Config)
    requires cfg.maxQueueSize == 1
    ensures EnqueueStep(FirstInFlight(cfg)) == FirstDropped(cfg)
  {
    var q := FirstInFlight(cfg);
    assert Drop(q) == q.(queue := [], dropped := [0]);
    assert Push(Drop(q)) == FirstDropped(cfg);
  }

  lemma FirstStored(cfg: Config)
    ensures SetDoneStep(FirstDropped(cfg), 0, true)
         == WQ(cfg, [], false, [], false, [0, 0], [1, 0], [0, 0], [0], [], [0])
  {
    var q := FirstDropped(cfg);
    assert Shift(Persist(q, 0)) == q.(queue := [], persisted := [0]);
    assert q.loops[..0] + q.loops[1..] == [];
  }

  lemma FirstOnward(cfg: Config, es: seq<Event>)
    requires cfg.maxQueueSize == 1 && PossibleRun(FirstInFlight(cfg), es)
    ensures PossibleRun(Init(cfg), [Enqueue] + es)
    ensures Final(Init(cfg), [Enqueue] + es) == Final(FirstInFlight(cfg), es)
  {
    FirstEnqueued(cfg);
    RunCons(Init(cfg), Enqueue, es);
  }

  lemma SecondOnward(cfg: Config, es: seq<Event>)
    requires cfg.maxQueueSize == 1 && PossibleRun(FirstDropped(cfg), es)
    ensures PossibleRun(Init(cfg), [Enqueue] + ([Enqueue] + es))
    ensures Final(Init(cfg), [Enqueue] + ([Enqueue] + es)) == Final(FirstDropped(cfg), es)
  {
    SecondEnqueued(cfg);
    RunCons(FirstInFlight(cfg), Enqueue, es);
    FirstOnward(cfg, [Enqueue] + es);
  }

  /** The shortest such run: then the store stores the first write, and the second is gone. */
  lemma SecondWriteLost(cfg: Config)
    requires cfg.maxQueueSize == 1
    ensures var es := [Enqueue] + ([Enqueue] + [SetDone(0, true)]);
      && PossibleRun(Init(cfg), es)
      && |Final(Init(cfg), es).attempts| == 2 && Places(Final(Init(cfg), es), 1) == 0
  {
    FirstStored(cfg);
    ZeroNotOne([0]);
    RunCons(FirstDropped(cfg), SetDone(0, true), []);
    assert [SetDone(0, true)] + [] == [SetDone(0, true)];
    SecondOnward(cfg, [SetDone(0, true)]);
  }

  lemma ZeroNotOne(s: seq<nat>)
    requires |s| == 1 && s[0] == 0
    ensures Times(s, 1) == 0
  {
    assert s[..0] == [];
  }

  lemma RunCons(q: WQ, e: Event, es: seq<Event>)
    requires Valid(q) && Possible(q, e) && PossibleRun(Step(q, e), es)
    ensures PossibleRun(q, [e] + es) && Final(q, [e] + es) == Final(Step(q, e), es)
    ensures Answers([e] + es) == Answers(es) + if e.SetDone? then 1 else 0
  {
    assert ([e] + es)[1..] == es;
  }

  // ---- Draining ----

  /** Tries left over all writes from number x on. */
  function Budget(q: WQ, x: nat): int
    decreases |q.attempts| - x
  {
    if x >= |q.attempts| then 0 else MaxTries(q) - q.attempts[x] + Budget(q, x + 1)
  }

  /** Every queued write, and one being stored, has a try left. */
  predicate TriesLeft(q: WQ) {
    && Sane(q)
    && (forall x :: Head(q) <= x < |q.attempts| ==> q.attempts[x] < MaxTries(q))
    && (|q.loops| == 1 && q.loops[0].InSet? ==> q.attempts[q.loops[0].op] < MaxTries(q))
  }

  /** The write being stored was dropped by an overflow. */
  predicate Orphaned(q: WQ) {
    |q.loops| == 1 && q.loops[0].InSet? && q.loops[0].op < Head(q)
  }

  /** It has a try left after this one. */
  predicate TriedAgain(q: WQ)
    requires Valid(q) && Orphaned(q)
  {
    q.attempts[q.loops[0].op] + 1 < q.cfg.maxAttempts
  }

  /**
   What a dropped write being stored changes: its answer costs no queued write a try, or, when it
   settles the dropped write, takes the oldest queued one off with all the tries it had left.
   */
  function Extra(q: WQ): int
    requires TriesLeft(q)
  {
    if !Orphaned(q) then 0
    else if TriedAgain(q) then 1
    else 1 - (MaxTries(q) - q.attempts[Head(q)])
  }

  /** How often a disposed queue can still ask the store. */
  function Most(q: WQ): int
    requires TriesLeft(q)
  {
    Budget(q, Head(q)) + Extra(q)
  }

  function Answers(es: seq<Event>): nat {
    if es == [] then 0 else (if es[0].SetDone? then 1 else 0) + Answers(es[1..])
  }

  lemma {:induction false} BudgetSame(q: WQ, t: WQ, x: nat)
    requires q.cfg == t.cfg && |q.attempts| == |t.attempts|
    requires forall y :: x <= y < |q.attempts| ==> q.attempts[y] == t.attempts[y]
    ensures Budget(q, x) == Budget(t, x)
    decreases |q.attempts| - x
  {
    if x < |q.attempts| {
      BudgetSame(q, t, x + 1);
    }
  }

  lemma {:induction false} BudgetPositive(q: WQ, x: nat)
    requires forall y :: x <= y < |q.attempts| ==> q.attempts[y] < MaxTries(q)
    ensures Budget(q, x) >= 0 && (x < |q.attempts| ==> Budget(q, x) > 0)
    decreases |q.attempts| - x
  {
    if x < |q.attempts| {
      BudgetPositive(q, x + 1);
    }
  }

  lemma MostPositive(q: WQ)
    requires TriesLeft(q)
    ensures Most(q) >= 0 && (q.queue != [] <==> Most(q) > 0)
  {
    BudgetPositive(q, Head(q));
    if q.queue != [] {
      BudgetPositive(q, Head(q) + 1);
    }
  }

  /** The next write, if any, has not been tried too often; so a loop at its top leaves tries. */
  lemma TriesContinue(q: WQ)
    requires Valid(q) && Contiguous(q) && q.flushing && |q.loops| == 1
    requires forall x :: Head(q) <= x < |q.attempts| ==> q.attempts[x] < MaxTries(q)
    ensures var t := Continue(q, 0);
      TriesLeft(t) && !Orphaned(t) && t.attempts == q.attempts && t.cfg == q.cfg && Head(t) == Head(q)
      && t.disposed == q.disposed
  {
    FlushContinue(q);
    if q.queue != [] {
      assert q.queue[0] == Head(q);
    }
  }

  /** With nobody orphaned, the most answers there can be are the tries left. */
  lemma MostUnorphaned(t: WQ, h: nat)
    requires TriesLeft(t) && !Orphaned(t) && Head(t) == h
    ensures Most(t) == Budget(t, h)
  {
  }

  lemma BudgetNext(q: WQ)
    requires 0 <= Head(q) < |q.attempts|
    ensures Budget(q, Head(q) + 1) == Budget(q, Head(q)) - (MaxTries(q) - q.attempts[Head(q)])
  {
  }

  /** An answer that takes the oldest write off the queue uses up the tries it had left. */
  lemma DrainSettle(q: WQ, r: WQ)
    requires TriesLeft(q) && q.queue != [] && Valid(r) && r.cfg == q.cfg && r.disposed == q.disposed
    requires r.queue == q.queue && r.loops == q.loops && r.flushing == q.flushing && |r.attempts| == |q.attempts|
    requires forall x :: Head(q) < x < |q.attempts| ==> r.attempts[x] == q.attempts[x]
    ensures var t := Continue(Shift(r), 0);
      && TriesLeft(t) && t.disposed == q.disposed && |t.attempts| == |q.attempts|
      && Most(t) == Budget(q, Head(q)) - (MaxTries(q) - q.attempts[Head(q)])
  {
    ShiftedHead(r);
    TriesContinue(Shift(r));
    var t := Continue(Shift(r), 0);
    MostUnorphaned(t, Head(q) + 1);
    BudgetSame(q, t, Head(q) + 1);
    BudgetNext(q);
  }

  lemma DrainStored(q: WQ)
    requires TriesLeft(q) && Possible(q, SetDone(0, true))
    ensures var t := SetDoneStep(q, 0, true);
      TriesLeft(t) && t.disposed == q.disposed && |t.attempts| == |q.attempts| && Most(t) <= Most(q) - 1
  {
    DrainSettle(q, Persist(q, q.loops[0].op));
  }

  /** A failing store uses up exactly one of the most answers there can be. */
  lemma DrainFailed(q: WQ)
    requires TriesLeft(q) && Possible(q, SetDone(0, false))
    ensures var t := SetDoneStep(q, 0, false);
      TriesLeft(t) && t.disposed == q.disposed && |t.attempts| == |q.attempts| && Most(t) == Most(q) - 1
  {
    var op := q.loops[0].op;
    var r := Bump(q, op);
    if q.attempts[op] + 1 >= q.cfg.maxAttempts {
      DrainSettle(q, GiveUp(r, op));
    } else {
      DrainRetry(q);
    }
  }

  lemma DrainRetry(q: WQ)
    requires TriesLeft(q) && Possible(q, SetDone(0, false)) && q.attempts[q.loops[0].op] + 1 < q.cfg.maxAttempts
    ensures var t := SetDoneStep(q, 0, false);
      TriesLeft(t) && t.disposed == q.disposed && |t.attempts| == |q.attempts| && Most(t) == Most(q) - 1
  {
    var op, t := q.loops[0].op, SetDoneStep(q, 0, false);
    SaneSetDone(q, false);
    if op == Head(q) {
      BudgetSame(q, t, op + 1);
    } else {
      BudgetSame(q, t, Head(q));
    }
  }

  lemma DrainResumed(q: WQ)
    requires TriesLeft(q) && Possible(q, DelayDone(0))
    ensures var t := Continue(q, 0);
      TriesLeft(t) && t.disposed == q.disposed && |t.attempts| == |q.attempts| && Most(t) == Most(q)
  {
    TriesContinue(q);
    BudgetSame(q, Continue(q, 0), Head(q));
  }

  /** Once disposed, every answer of the store uses up at least one of those left. */
  lemma DrainStep(q: WQ, e: Event)
    requires TriesLeft(q) && q.disposed && Possible(q, e)
    ensures var t := Step(q, e);
      && TriesLeft(t) && t.disposed && |t.attempts| == |q.attempts|
      && Most(t) <= Most(q) - if e.SetDone? then 1 else 0
  {
    match e
    case Enqueue =>
    case SetDone(i, ok) => if ok { DrainStored(q); } else { DrainFailed(q); }
    case DelayDone(i) => DrainResumed(q);
    case Dispose =>
  }

  /**
   Drain termination: after dispose no write is accepted, the store is asked at most Most(q) times,
   and when it has answered that often the queue is empty and the loop has ended. Until then the
   loop always has something to wait for.
   */
  lemma {:induction false} DrainTerminates(q: WQ, es: seq<Event>)
    requires TriesLeft(q) && q.disposed && PossibleRun(q, es)
    ensures var t := Final(q, es);
      && |t.attempts| == |q.attempts|
      && Answers(es) <= Most(q)
      && (Answers(es) == Most(q) ==> t.queue == [] && t.loops == [] && !t.flushing)
      && (t.queue != [] ==> Valid(t) && (Possible(t, SetDone(0, true)) || Possible(t, DelayDone(0))))
    decreases |es|
  {
    MostPositive(q);
    if es != [] {
      DrainStep(q, es[0]);
      DrainTerminates(Step(q, es[0]), es[1..]);
    }
  }

  /** And a store that always fails is asked exactly that often. */
  lemma {:induction false} MostReached(q: WQ) returns (es: seq<Event>)
    requires TriesLeft(q) && q.disposed
    ensures PossibleRun(q, es) && Answers(es) == Most(q)
    decreases Most(q), if |q.loops| == 1 && q.loops[0].InDelay? then 1 else 0
  {
    es := [];
    MostPositive(q);
    if q.queue != [] {
      var e := if q.loops[0].InSet? then SetDone(0, false) else DelayDone(0);
      if q.loops[0].InSet? {
        DrainFailed(q);
      } else {
        DrainResumed(q);
        ResumedStores(q);
      }
      var rest := MostReached(Step(q, e));
      es := [e] + rest;
      RunCons(q, e, rest);
      assert es[1..] == rest;
    }
  }

  lemma ResumedStores(q: WQ)
    requires Sane(q) && Possible(q, DelayDone(0))
    ensures |Continue(q, 0).loops| == 1 && Continue(q, 0).loops[0].InSet?
  {
  }

  /**
   So the tries left over the queued writes bound the answers after dispose if and only if the write
   being stored was not dropped by an overflow with another try to come.
   */
  lemma TriesBoundExactly(q: WQ)
    requires TriesLeft(q) && q.disposed
    ensures (forall es :: PossibleRun(q, es) ==> Answers(es) <= Budget(q, Head(q)))
       <==> !(Orphaned(q) && TriedAgain(q))
  {
    if Orphaned(q) && TriedAgain(q) {
      var es := MostReached(q);
      assert Answers(es) > Budget(q, Head(q));
    } else {
      forall es | PossibleRun(q, es)
        ensures Answers(es) <= Budget(q, Head(q))
      {
        DrainTerminates(q, es);
      }
    }
  }

  lemma TriesStep(q: WQ, e: Event)
    requires TriesLeft(q) && Possible(q, e)
    ensures TriesLeft(Step(q, e))
  {
    match e
    case Enqueue => TriesEnqueue(q);
    case SetDone(i, ok) => if ok { DrainStored(q); } else { DrainFailed(q); }
    case DelayDone(i) => DrainResumed(q);
    case Dispose =>
  }

  lemma TriesEnqueue(q: WQ)
    requires TriesLeft(q)
    ensures TriesLeft(EnqueueStep(q))
  {
    SaneEnqueue(q);
    var r := Push(MakeRoom(q));
    assert r.attempts == q.attempts + [0];
    assert q.disposed || EnqueueStep(q).attempts == r.attempts;
    if q.queue != [] {
      DroppedHead(q);
    }
  }

  /** Every run whatsoever leaves tries, so the bound applies to a dispose at any point of any run. */
  lemma {:induction false} DisposeAnywhere(q: WQ, es: seq<Event>)
    requires TriesLeft(q) && PossibleRun(q, es)
    ensures TriesLeft(Final(q, es).(disposed := true))
    decreases |es|
  {
    if es != [] {
      TriesStep(q, es[0]);
      DisposeAnywhere(Step(q, es[0]), es[1..]);
    }
  }

  /** A new queue has tries left, so those results are about every run there is. */
  lemma DrainAfterAnyRun(cfg: Config, before: seq<Event>, after: seq<Event>)
    requires PossibleRun(Init(cfg), before)
    ensures var q := Final(Init(cfg), before).(disposed := true);
      && TriesLeft(q)
      && (PossibleRun(q, after) ==>
        && Answers(after) <= Most(q)
        && (Answers(after) == Most(q) ==> Final(q, after).queue == [] && Final(q, after).loops == []))
  {
    DisposeAnywhere(Init(cfg), before);
    var q := Final(Init(cfg), before).(disposed := true);
    if PossibleRun(q, after) {
      DrainTerminates(q, after);
    }
  }

  /** A queue of one and two tries, disposed after an overflow during the first store. */
  lemma OrphanedDispose(cfg: Config)
    requires cfg.maxAttempts == 2 && cfg.maxQueueSize == 1
    ensures var es := [Enqueue] + ([Enqueue] + [Dispose]);
      && PossibleRun(Init(cfg), es)
      && Final(Init(cfg), es) == FirstDropped(cfg).(disposed := true)
  {
    RunCons(FirstDropped(cfg), Dispose, []);
    assert [Dispose] + [] == [Dispose];
    SecondOnward(cfg, [Dispose]);
  }

  /**
   One more answer than tries left: that dispose leaves one queued write with two tries, and three
   answers are to come when every store fails.
   */
  lemma OrphanAnswersOnceMore(cfg: Config) returns (before: seq<Event>, after: seq<Event>)
    requires cfg.maxAttempts == 2 && cfg.maxQueueSize == 1
    ensures PossibleRun(Init(cfg), before)
    ensures var q := Final(Init(cfg), before);
      Sane(q) && q.disposed && PossibleRun(q, after) && Budget(q, Head(q)) == 2 && Answers(after) == 3
  {
    before := [Enqueue] + ([Enqueue] + [Dispose]);
    OrphanedDispose(cfg);
    DisposeAnywhere(Init(cfg), before);
    var q := Final(Init(cfg), before);
    assert q.(disposed := true) == q;
    assert Budget(q, 2) == 0 && Budget(q, 1) == 2;
    after := MostReached(q);
  }
}
