/** The FIFO semaphore with timeouts. Each callback is one atomic step. */
module Semaphores {
  /** A pending acquire call; timed when it was given a positive timeout. */
  datatype Waiter = Waiter(id: nat, timed: bool)
  /** The one boolean an acquire call's promise resolves to. */
  datatype Resolution = Resolution(id: nat, granted: bool)
  datatype Sem = Sem(max: int, current: nat, waiters: seq<Waiter>, log: seq<Resolution>)

  datatype Event = Acquire(id: nat, timed: bool) | Release | Timeout(id: nat)

  // ---- What the operations compute ----

  function Init(max: int): Sem {
    Sem(max, 0, [], [])
  }

  function Position(ws: seq<Waiter>, id: nat): (i: int)
    ensures -1 <= i < |ws|
    ensures i >= 0 ==> ws[i].id == id && forall j :: 0 <= j < i ==> ws[j].id != id
    ensures i < 0 ==> forall j :: 0 <= j < |ws| ==> ws[j].id != id
  {
    if ws == [] then -1
    else if ws[0].id == id then 0
    else
      var r := Position(ws[1..], id);
      if r < 0 then -1 else r + 1
  }

  function AcquireStep(s: Sem, id: nat, timed: bool): Sem {
    if s.current < s.max then s.(current := s.current + 1, log := s.log + [Resolution(id, true)])
    else s.(waiters := s.waiters + [Waiter(id, timed)])
  }

  /** A release hands the slot straight to the first waiter, if any. */
  function ReleaseStep(s: Sem): Sem {
    if s.waiters != [] then s.(waiters := s.waiters[1..], log := s.log + [Resolution(s.waiters[0].id, true)])
    else if s.current > 0 then s.(current := s.current - 1)
    else s
  }

  function TimeoutStep(s: Sem, id: nat): Sem {
    var i := Position(s.waiters, id);
    if i < 0 then s
    else s.(waiters := s.waiters[..i] + s.waiters[i + 1..], log := s.log + [Resolution(id, false)])
  }

  // ---- The semaphore itself ----

  class AsyncSemaphore {
    const max: int
    var current: nat
    var waiters: seq<Waiter>
    var resolved: seq<Resolution>

    ghost function State(): Sem
      reads this
    {
      Sem(max, current, waiters, resolved)
    }

    constructor Empty(max: int)
      ensures State() == Init(max)
    {
      this.max := max;
      current, waiters, resolved := 0, [], [];
    }

    /** The throwing constructor: no semaphore for a limit below one. */
    static method Make(max: int) returns (s: AsyncSemaphore?)
      ensures s == null <==> max < 1
      ensures s != null ==> fresh(s) && s.State() == Init(max)
    {
      if max < 1 {
        return null;
      }
      s := new AsyncSemaphore.Empty(max);
    }

    method Acquire(id: nat, timed: bool)
      modifies this
      ensures State() == AcquireStep(old(State()), id, timed)
    {
      if current < max {
        current := current + 1;
        resolved := resolved + [Resolution(id, true)];
        return;
      }
      waiters := waiters + [Waiter(id, timed)];
    }

    /** The timer callback of a waiter. */
    method OnTimeout(id: nat)
      modifies this
      ensures State() == TimeoutStep(old(State()), id)
    {
      var idx := Position(waiters, id);
      if idx >= 0 {
        waiters := waiters[..idx] + waiters[idx + 1..];
        resolved := resolved + [Resolution(id, false)];
      }
    }

    method Release()
      modifies this
      ensures State() == ReleaseStep(old(State()))
    {
      if waiters != [] {
        var next := waiters[0];
        waiters := waiters[1..];
        resolved := resolved + [Resolution(next.id, true)];
      } else if current > 0 {
        current := current - 1;
      }
    }
  }

  // ---- Runs ----

  function Apply(s: Sem, e: Event): Sem {
    match e
    case Acquire(id, timed) => AcquireStep(s, id, timed)
    case Release => ReleaseStep(s)
    case Timeout(id) => TimeoutStep(s, id)
  }

  function Final(s: Sem, es: seq<Event>): Sem
    decreases |es|
  {
    if es == [] then s else Final(Apply(s, es[0]), es[1..])
  }

  function Waiting(ws: seq<Waiter>, id: nat): nat {
    if ws == [] then 0 else (if ws[0].id == id then 1 else 0) + Waiting(ws[1..], id)
  }

  function Resolved(log: seq<Resolution>, id: nat): nat {
    if log == [] then 0 else (if log[0].id == id then 1 else 0) + Resolved(log[1..], id)
  }

  /** How often a state holds a call, waiting or resolved. */
  function Known(s: Sem, id: nat): nat {
    Waiting(s.waiters, id) + Resolved(s.log, id)
  }

  function AcquiredBy(e: Event, id: nat): nat {
    if e.Acquire? && e.id == id then 1 else 0
  }

  function Acquired(es: seq<Event>, id: nat): nat {
    if es == [] then 0 else AcquiredBy(es[0], id) + Acquired(es[1..], id)
  }

  /** Every acquire is a new call, and only timed waiters time out. */
  predicate Possible(s: Sem, e: Event) {
    match e
    case Acquire(id, _) => Known(s, id) == 0
    case Release => true
    case Timeout(id) => Position(s.waiters, id) >= 0 ==> s.waiters[Position(s.waiters, id)].timed
  }

  predicate PossibleRun(s: Sem, es: seq<Event>)
    decreases |es|
  {
    es == [] || (Possible(s, es[0]) && PossibleRun(Apply(s, es[0]), es[1..]))
  }

  function Grants(log: seq<Resolution>): nat {
    if log == [] then 0 else (if log[0].granted then 1 else 0) + Grants(log[1..])
  }

  /** Releases that found something to release. */
  function Freed(s: Sem, es: seq<Event>): nat
    decreases |es|
  {
    if es == [] then 0
    else (if es[0].Release? && s.current > 0 then 1 else 0) + Freed(Apply(s, es[0]), es[1..])
  }

  function Releases(es: seq<Event>): nat {
    if es == [] then 0 else (if es[0].Release? then 1 else 0) + Releases(es[1..])
  }

  // ---- Safety ----

  /** Within the limit, and nobody waits while a slot is free. */
  predicate Sound(s: Sem) {
    s.max >= 1 && s.current <= s.max && (s.waiters != [] ==> s.current == s.max)
  }

  lemma {:induction false} LogSnoc(log: seq<Resolution>, r: Resolution, id: nat)
    ensures Resolved(log + [r], id) == Resolved(log, id) + if r.id == id then 1 else 0
    ensures Grants(log + [r]) == Grants(log) + if r.granted then 1 else 0
  {
    if log == [] {
      assert [] + [r] == [r];
    } else {
      LogSnoc(log[1..], r, id);
      assert (log + [r])[1..] == log[1..] + [r];
    }
  }

  lemma {:induction false} WaitersSnoc(ws: seq<Waiter>, w: Waiter, id: nat)
    ensures Waiting(ws + [w], id) == Waiting(ws, id) + if w.id == id then 1 else 0
  {
    if ws == [] {
      assert [] + [w] == [w];
    } else {
      WaitersSnoc(ws[1..], w, id);
      assert (ws + [w])[1..] == ws[1..] + [w];
    }
  }

  lemma {:induction false} WaitersCut(ws: seq<Waiter>, i: nat, id: nat)
    requires i < |ws|
    ensures Waiting(ws[..i] + ws[i + 1..], id) == Waiting(ws, id) - if ws[i].id == id then 1 else 0
  {
    if i == 0 {
      assert ws[..0] + ws[1..] == ws[1..];
    } else {
      WaitersCut(ws[1..], i - 1, id);
      assert (ws[..i] + ws[i + 1..])[1..] == ws[1..][..i - 1] + ws[1..][i..];
    }
  }

  /** One step: soundness is kept, every call stays accounted for, and slots are conserved. */
  lemma StepSafe(s: Sem, e: Event, id: nat)
    requires Sound(s)
    ensures Sound(Apply(s, e))
    ensures Known(Apply(s, e), id) == Known(s, id) + AcquiredBy(e, id)
    ensures Apply(s, e).current - s.current
         == Grants(Apply(s, e).log) - Grants(s.log) - if e.Release? && s.current > 0 then 1 else 0
  {
    match e
    case Acquire(v, timed) =>
      LogSnoc(s.log, Resolution(v, true), id);
      WaitersSnoc(s.waiters, Waiter(v, timed), id);
    case Release =>
      if s.waiters != [] {
        LogSnoc(s.log, Resolution(s.waiters[0].id, true), id);
      }
    case Timeout(v) =>
      var i := Position(s.waiters, v);
      if i >= 0 {
        WaitersCut(s.waiters, i, id);
        LogSnoc(s.log, Resolution(v, false), id);
      }
  }

  lemma {:induction false} RunFrom(s: Sem, es: seq<Event>, id: nat)
    requires Sound(s)
    ensures Sound(Final(s, es))
    ensures Known(Final(s, es), id) == Known(s, id) + Acquired(es, id)
    ensures Final(s, es).current - s.current == Grants(Final(s, es).log) - Grants(s.log) - Freed(s, es)
    decreases |es|
  {
    if es != [] {
      StepSafe(s, es[0], id);
      RunFrom(Apply(s, es[0]), es[1..], id);
    }
  }

  lemma {:induction false} FreshRun(s: Sem, es: seq<Event>, id: nat)
    requires Sound(s) && PossibleRun(s, es) && Known(s, id) <= 1
    ensures Known(s, id) + Acquired(es, id) <= 1
    decreases |es|
  {
    if es != [] {
      StepSafe(s, es[0], id);
      FreshRun(Apply(s, es[0]), es[1..], id);
    }
  }

  /**
   Over every run: outstanding grants equal current and never exceed max; waiters exist only
   while current is max; and every call is either waiting or resolved, exactly once.
   */
  lemma SemaphoreSafety(max: int, es: seq<Event>, id: nat)
    requires max >= 1 && PossibleRun(Init(max), es)
    ensures var s := Final(Init(max), es);
      && Sound(s) && s.max == max
      && Grants(s.log) - Freed(Init(max), es) == s.current
      && Waiting(s.waiters, id) + Resolved(s.log, id) == Acquired(es, id) <= 1
  {
    RunFrom(Init(max), es, id);
    FreshRun(Init(max), es, id);
    MaxConstant(Init(max), es);
  }

  lemma {:induction false} MaxConstant(s: Sem, es: seq<Event>)
    ensures Final(s, es).max == s.max
    ensures s.log <= Final(s, es).log
    decreases |es|
  {
    if es != [] {
      MaxConstant(Apply(s, es[0]), es[1..]);
    }
  }

  /** Once a call has timed out it is never granted, however the run goes on. */
  lemma NeverGrantedAfterTimeout(max: int, es: seq<Event>, later: seq<Event>, id: nat)
    requires max >= 1 && PossibleRun(Init(max), es + later)
    requires Resolution(id, false) in Final(Init(max), es).log
    ensures Resolution(id, true) !in Final(Init(max), es + later).log
  {
    SemaphoreSafety(max, es + later, id);
    FinalConcat(Init(max), es, later);
    MaxConstant(Final(Init(max), es), later);
    var log := Final(Init(max), es + later).log;
    var i :| 0 <= i < |Final(Init(max), es).log| && Final(Init(max), es).log[i] == Resolution(id, false);
    assert log[i] == Resolution(id, false);
    if Resolution(id, true) in log {
      var j :| 0 <= j < |log| && log[j] == Resolution(id, true);
      if i < j {
        TwiceInLog(log, i, j);
      } else {
        TwiceInLog(log, j, i);
      }
      assert false;
    }
  }

  lemma {:induction false} FinalConcat(s: Sem, a: seq<Event>, b: seq<Event>)
    ensures Final(s, a + b) == Final(Final(s, a), b)
    decreases |a|
  {
    if a == [] {
      assert a + b == b;
    } else {
      assert (a + b)[1..] == a[1..] + b;
      FinalConcat(Apply(s, a[0]), a[1..], b);
    }
  }

  lemma {:induction false} OnceInLog(log: seq<Resolution>, i: nat)
    requires i < |log|
    ensures Resolved(log, log[i].id) >= 1
  {
    if i > 0 {
      OnceInLog(log[1..], i - 1);
    }
  }

  lemma {:induction false} TwiceInLog(log: seq<Resolution>, i: nat, j: nat)
    requires i < j < |log| && log[i].id == log[j].id
    ensures Resolved(log, log[i].id) >= 2
  {
    if i > 0 {
      TwiceInLog(log[1..], i - 1, j - 1);
    } else {
      OnceInLog(log[1..], j - 1);
    }
  }

  // ---- Fairness ----

  /** One step moves a waiter up, grants it or leaves it where it is. */
  lemma QueueStep(s: Sem, e: Event, k: nat)
    requires Sound(s) && k < |s.waiters| && e != Timeout(s.waiters[k].id)
    ensures var t := Apply(s, e);
      if e.Release? && k == 0 then t.log == s.log + [Resolution(s.waiters[0].id, true)]
      else
        var k' := if e.Release? || (e.Timeout? && 0 <= Position(s.waiters, e.id) < k) then k - 1 else k;
        k' < |t.waiters| && t.waiters[k'] == s.waiters[k]
  {
  }

  /**
   A waiter with k ahead of it is granted within k + 1 releases, unless it times out:
   later arrivals cannot barge, and time-outs ahead of it only help.
   */
  lemma {:induction false} GrantedWithin(s: Sem, es: seq<Event>, w: Waiter, k: nat)
    requires Sound(s) && k < |s.waiters| && s.waiters[k] == w
    requires (forall i :: 0 <= i < |es| ==> es[i] != Timeout(w.id)) && Releases(es) >= k + 1
    ensures Resolution(w.id, true) in Final(s, es).log
    decreases |es|
  {
    var e, t := es[0], Apply(s, es[0]);
    StepSafe(s, e, 0);
    QueueStep(s, e, k);
    if e.Release? && k == 0 {
      MaxConstant(t, es[1..]);
      assert t.log[|s.log|] == Resolution(w.id, true);
      assert Final(s, es).log[|s.log|] == Resolution(w.id, true);
    } else {
      var ahead := e.Timeout? && 0 <= Position(s.waiters, e.id) < k;
      GrantedWithin(t, es[1..], w, if e.Release? || ahead then k - 1 else k);
    }
  }

  /** Whether an event takes away one of the k waiters ahead, or, for k == 0, grants the waiter itself. */
  predicate MovesUp(s: Sem, e: Event, k: nat) {
    e.Release? || (e.Timeout? && 0 <= Position(s.waiters, e.id) < k)
  }

  /** How many releases and time-outs ahead the waiter at place k sees, until it is granted. */
  function Ahead(s: Sem, es: seq<Event>, k: nat): nat
    decreases |es|
  {
    if es == [] then 0
    else if !MovesUp(s, es[0], k) then Ahead(Apply(s, es[0]), es[1..], k)
    else if k == 0 then 1
    else 1 + Ahead(Apply(s, es[0]), es[1..], k - 1)
  }

  /**
   No barging, exactly: unless it times out itself, a waiter with k ahead moves up by one with every
   release and every time-out ahead of it and by nothing else. While there have been at most k of them
   it waits with that many fewer ahead; with one more it has been granted.
   */
  lemma {:induction false} NoOvertaking(s: Sem, es: seq<Event>, k: nat)
    requires Sound(s) && k < |s.waiters|
    requires forall i :: 0 <= i < |es| ==> es[i] != Timeout(s.waiters[k].id)
    ensures var n, t := Ahead(s, es, k), Final(s, es);
      if n <= k then k - n < |t.waiters| && t.waiters[k - n] == s.waiters[k]
      else n == k + 1 && Resolution(s.waiters[k].id, true) in t.log
    decreases |es|
  {
    if es != [] {
      var t := Apply(s, es[0]);
      StepSafe(s, es[0], 0);
      QueueStep(s, es[0], k);
      if es[0].Release? && k == 0 {
        MaxConstant(t, es[1..]);
        assert t.log[|s.log|] == Resolution(s.waiters[0].id, true);
        assert Final(s, es).log[|s.log|] == Resolution(s.waiters[0].id, true);
      } else {
        NoOvertaking(t, es[1..], if MovesUp(s, es[0], k) then k - 1 else k);
      }
    }
  }
}
