/**
 Container slots of the Docker sandbox driver. Every stretch of code between two awaits is
 one atomic step; Docker answers as it likes, except that it never reuses a container id.
 */
module SandboxDrivers {
  import opened Semaphores

  /** Where a call to the driver stands; createSandbox, terminateSandbox and cleanup in turn. */
  datatype Phase =
    | Waiting                  // queued for a slot
    | Granted                  // the slot is ours, the continuation has not run yet
    | Creating                 // createContainer in flight
    | Starting(id: nat)        // start in flight
    | Removing(id: nat)        // start failed, remove in flight
    | Up(id: nat)              // registered as active, init commands running
    | Returned(id: nat)
    | Failed
    | Terminating(id: nat)     // remove in flight
    | Removed(id: nat)         // Docker has removed it, the continuation has not run yet
    | Sweeping(ids: seq<nat>)  // remove of ids[0] in flight
    | Ended

  /** docker: the containers Docker has; issued: every id it ever gave out. */
  datatype Driver = Driver(slots: Sem, active: set<nat>, calls: map<nat, Phase>, docker: set<nat>, issued: set<nat>)

  datatype Event =
    | Create(call: nat)
    | AcquireTimeout(call: nat)
    | Resume(call: nat, imageAllowed: bool)
    | Created(call: nat, ok: bool, id: nat)
    | Started(call: nat, ok: bool)
    | RemoveDone(call: nat, ok: bool)
    | Ready(call: nat)
    | Terminate(call: nat, id: nat)
    | DockerRemoves(call: nat)
    | TerminateFails(call: nat)
    | TerminateResume(call: nat)
    | Cleanup(call: nat, ids: seq<nat>)
    | CleanupNext(call: nat, ok: bool)

  // ---- What the steps compute ----

  function NewDriver(max: int): Driver {
    Driver(Semaphores.Init(if max < 1 then 1 else max), {}, map[], {}, {})
  }

  /** acquireContainerSlot with its fixed positive timeout. */
  function AcquireSlot(d: Driver, call: nat): Driver {
    d.(slots := AcquireStep(d.slots, call, true),
       calls := d.calls[call := if d.slots.current < d.slots.max then Granted else Waiting])
  }

  /** releaseContainerSlot: the first waiter, if any, becomes the holder. */
  function ReleaseSlot(d: Driver): Driver {
    d.(slots := ReleaseStep(d.slots),
       calls := if d.slots.waiters == [] then d.calls else d.calls[d.slots.waiters[0].id := Granted])
  }

  function SetPhase(d: Driver, call: nat, p: Phase): Driver {
    d.(calls := d.calls[call := p])
  }

  /** A failure path: the call throws and its slot goes back. */
  function FailAndRelease(d: Driver, call: nat): Driver {
    ReleaseSlot(SetPhase(d, call, Failed))
  }

  /** activeContainers.delete(id) followed by a release, as terminate and cleanup do it. */
  function Forget(d: Driver, call: nat, p: Phase, id: nat): Driver {
    ReleaseSlot(SetPhase(d, call, p).(active := d.active - {id}))
  }

  predicate InPhase(d: Driver, call: nat, p: Phase) {
    call in d.calls && d.calls[call] == p
  }

  predicate NoRepeats(ids: seq<nat>) {
    forall i, j :: 0 <= i < j < |ids| ==> ids[i] != ids[j]
  }

  /** Array.from of a set: every element once. */
  predicate Lists(ids: seq<nat>, s: set<nat>) {
    NoRepeats(ids) && (forall i :: 0 <= i < |ids| ==> ids[i] in s) && (forall id :: id in s ==> id in ids)
  }

  /** When an event can happen at all. */
  predicate CanHappen(d: Driver, e: Event) {
    match e
    case Create(c) => c !in d.calls
    case AcquireTimeout(c) => InPhase(d, c, Waiting)
    case Resume(c, _) => InPhase(d, c, Granted)
    case Created(c, ok, id) => InPhase(d, c, Creating) && (ok ==> id !in d.issued)
    case Started(c, _) => c in d.calls && d.calls[c].Starting?
    case RemoveDone(c, _) => c in d.calls && d.calls[c].Removing?
    case Ready(c) => c in d.calls && d.calls[c].Up?
    case Terminate(c, _) => c !in d.calls
    case DockerRemoves(c) => c in d.calls && d.calls[c].Terminating? && d.calls[c].id in d.docker
    case TerminateFails(c) => c in d.calls && d.calls[c].Terminating?
    case TerminateResume(c) => c in d.calls && d.calls[c].Removed?
    case Cleanup(c, ids) => c !in d.calls && Lists(ids, d.active)
    case CleanupNext(c, _) => c in d.calls && d.calls[c].Sweeping? && d.calls[c].ids != []
  }

  function Step(d: Driver, e: Event): Driver
    requires CanHappen(d, e)
  {
    match e
    case Create(c) => AcquireSlot(d, c)
    case AcquireTimeout(c) => SetPhase(d, c, Failed).(slots := TimeoutStep(d.slots, c))
    case Resume(c, allowed) => if allowed then SetPhase(d, c, Creating) else FailAndRelease(d, c)
    case Created(c, ok, id) =>
      if ok then SetPhase(d, c, Starting(id)).(docker := d.docker + {id}, issued := d.issued + {id})
      else FailAndRelease(d, c)
    case Started(c, ok) =>
      var id := d.calls[c].id;
      if ok then SetPhase(d, c, Up(id)).(active := d.active + {id}) else SetPhase(d, c, Removing(id))
    case RemoveDone(c, ok) =>
      FailAndRelease(if ok then d.(docker := d.docker - {d.calls[c].id}) else d, c)
    case Ready(c) => SetPhase(d, c, Returned(d.calls[c].id))
    case Terminate(c, id) => SetPhase(d, c, Terminating(id))
    case DockerRemoves(c) => SetPhase(d, c, Removed(d.calls[c].id)).(docker := d.docker - {d.calls[c].id})
    case TerminateFails(c) => SetPhase(d, c, Ended)
    case TerminateResume(c) => Forget(d, c, Ended, d.calls[c].id)
    case Cleanup(c, ids) => SetPhase(d, c, Sweeping(ids))
    case CleanupNext(c, ok) =>
      var ids := d.calls[c].ids;
      Forget(if ok then d.(docker := d.docker - {ids[0]}) else d, c, Sweeping(ids[1..]), ids[0])
  }

  // ---- The driver itself ----

  class DockerSandboxDriver {
    const maxContainers: int
    var running: nat
    var waiters: seq<Waiter>
    var activeContainers: set<nat>
    ghost var resolved: seq<Resolution>
    ghost var calls: map<nat, Phase>
    ghost var docker: set<nat>
    ghost var issued: set<nat>

    ghost function State(): Driver
      reads this
    {
      Driver(Sem(maxContainers, running, waiters, resolved), activeContainers, calls, docker, issued)
    }

    constructor (max: int)
      ensures State() == NewDriver(max)
    {
      maxContainers := if max < 1 then 1 else max;
      running, waiters, activeContainers := 0, [], {};
      resolved, calls, docker, issued := [], map[], {}, {};
    }

    /** The start of createSandbox. */
    method AcquireContainerSlot(call: nat)
      modifies this
      ensures State() == AcquireSlot(old(State()), call)
    {
      if running < maxContainers {
        running := running + 1;
        resolved, calls := resolved + [Resolution(call, true)], calls[call := Granted];
        return;
      }
      waiters := waiters + [Waiter(call, true)];
      calls := calls[call := Phase.Waiting];
    }

    method OnAcquireTimeout(call: nat)
      requires CanHappen(State(), AcquireTimeout(call))
      modifies this
      ensures State() == Step(old(State()), AcquireTimeout(call))
    {
      var idx := Position(waiters, call);
      if idx >= 0 {
        waiters := waiters[..idx] + waiters[idx + 1..];
        resolved := resolved + [Resolution(call, false)];
      }
      calls := calls[call := Failed];
    }

    method ReleaseContainerSlot()
      modifies this`running, this`waiters, this`resolved, this`calls
      ensures State() == ReleaseSlot(old(State()))
    {
      if waiters != [] {
        var next := waiters[0];
        waiters := waiters[1..];
        resolved, calls := resolved + [Resolution(next.id, true)], calls[next.id := Granted];
      } else if running > 0 {
        running := running - 1;
      }
    }

    /** createSandbox from the slot to the image check. */
    method OnSlot(call: nat, imageAllowed: bool)
      requires CanHappen(State(), Resume(call, imageAllowed))
      modifies this
      ensures State() == Step(old(State()), Resume(call, imageAllowed))
    {
      if !imageAllowed {
        calls := calls[call := Failed];
        ReleaseContainerSlot();
      } else {
        calls := calls[call := Creating];
      }
    }

    /** createContainer has answered; without a container there is nothing to remove. */
    method OnCreated(call: nat, ok: bool, id: nat)
      requires CanHappen(State(), Created(call, ok, id))
      modifies this
      ensures State() == Step(old(State()), Created(call, ok, id))
    {
      if ok {
        docker, issued := docker + {id}, issued + {id};
        calls := calls[call := Starting(id)];
      } else {
        calls := calls[call := Failed];
        ReleaseContainerSlot();
      }
    }

    method OnStarted(call: nat, id: nat, ok: bool)
      requires InPhase(State(), call, Starting(id))
      modifies this
      ensures State() == Step(old(State()), Started(call, ok))
    {
      if ok {
        activeContainers := activeContainers + {id};
        calls := calls[call := Up(id)];
      } else {
        calls := calls[call := Removing(id)];
      }
    }

    /** The forced removal after a failed start; its own failure is ignored. */
    method OnRemoveDone(call: nat, ok: bool)
      requires CanHappen(State(), RemoveDone(call, ok))
      modifies this
      ensures State() == Step(old(State()), RemoveDone(call, ok))
    {
      if ok {
        docker := docker - {calls[call].id};
      }
      calls := calls[call := Failed];
      ReleaseContainerSlot();
    }

    /** terminateSandbox after its await. */
    method OnTerminateResume(call: nat, sandboxId: nat) returns (terminated: bool)
      requires InPhase(State(), call, Removed(sandboxId))
      modifies this
      ensures terminated && State() == Step(old(State()), TerminateResume(call))
    {
      calls := calls[call := Ended];
      activeContainers := activeContainers - {sandboxId};
      ReleaseContainerSlot();
      terminated := true;
    }

    /** One turn of the cleanup loop after its await, whether or not Docker removed the container. */
    method OnCleanupNext(call: nat, ids: seq<nat>, ok: bool)
      requires InPhase(State(), call, Sweeping(ids)) && ids != []
      modifies this
      ensures State() == Step(old(State()), CleanupNext(call, ok))
    {
      if ok {
        docker := docker - {ids[0]};
      }
      calls := calls[call := Sweeping(ids[1..])];
      activeContainers := activeContainers - {ids[0]};
      ReleaseContainerSlot();
    }
  }

  // ---- Slot conservation ----

  /** A creation that owns a slot which no active container accounts for yet. */
  predicate Holding(p: Phase) {
    p.Granted? || p.Creating? || p.Starting? || p.Removing?
  }

  function Holders(calls: map<nat, Phase>): set<nat> {
    set c | c in calls && Holding(calls[c])
  }

  predicate Conserved(d: Driver) {
    d.slots.current == |Holders(d.calls)| + |d.active|
  }

  /** The queue is exactly the calls that wait, each once. */
  ghost predicate QueueOk(d: Driver) {
    forall c: nat :: Semaphores.Waiting(d.slots.waiters, c) == if InPhase(d, c, Phase.Waiting) then 1 else 0
  }

  /** Containers being started are not active yet, and no two calls start the same one. */
  predicate StartsOk(d: Driver) {
    && d.active <= d.issued
    && (forall c :: c in d.calls && d.calls[c].Starting? ==> d.calls[c].id in d.issued - d.active)
    && (forall b, c :: b in d.calls && c in d.calls && b != c && d.calls[b].Starting? && d.calls[c].Starting?
          ==> d.calls[b].id != d.calls[c].id)
  }

  ghost predicate Inv(d: Driver) {
    Sound(d.slots) && Conserved(d) && QueueOk(d) && StartsOk(d)
  }

  /** Slots are only given back for containers the driver counts. */
  predicate Counted(d: Driver, e: Event)
    requires CanHappen(d, e)
  {
    && (e.TerminateResume? ==> d.calls[e.call].id in d.active)
    && (e.CleanupNext? ==> d.calls[e.call].ids[0] in d.active)
  }

  lemma HoldersUpdate(calls: map<nat, Phase>, c: nat, p: Phase)
    ensures Holders(calls[c := p]) == if Holding(p) then Holders(calls) + {c} else Holders(calls) - {c}
    ensures |Holders(calls[c := p])| == |Holders(calls)|
      + (if Holding(p) then 1 else 0) - (if c in calls && Holding(calls[c]) then 1 else 0)
  {
    var h := Holders(calls);
    assert Holders(calls[c := p]) == if Holding(p) then h + {c} else h - {c};
    if c in h {
      assert h + {c} == h;
    } else {
      assert h - {c} == h;
    }
  }

  /** Changing the phase of a call that neither waits nor will wait leaves the queue in order. */
  lemma SetPhaseQueue(d: Driver, c: nat, p: Phase)
    requires QueueOk(d) && !InPhase(d, c, Phase.Waiting) && p != Phase.Waiting
    ensures QueueOk(SetPhase(d, c, p))
  {
    var t := SetPhase(d, c, p);
    forall v: nat
      ensures Semaphores.Waiting(t.slots.waiters, v) == if InPhase(t, v, Phase.Waiting) then 1 else 0
    {
    }
  }

  /** A release lowers current or raises the holders by one: the books shift by exactly one slot. */
  lemma ReleaseShifts(d: Driver)
    requires Sound(d.slots) && QueueOk(d)
    ensures var t := ReleaseSlot(d);
      && Sound(t.slots) && QueueOk(t)
      && t.active == d.active && t.issued == d.issued && t.docker == d.docker
      && (d.slots.current > 0 ==>
           t.slots.current - |Holders(t.calls)| == d.slots.current - |Holders(d.calls)| - 1)
      && (d.slots.current == 0 ==> t == d)
      && (forall c :: c in t.calls && !t.calls[c].Granted? ==> c in d.calls && d.calls[c] == t.calls[c])
  {
    var t := ReleaseSlot(d);
    if d.slots.waiters != [] {
      var w := d.slots.waiters[0].id;
      assert Semaphores.Waiting(d.slots.waiters, w) >= 1;
      assert InPhase(d, w, Phase.Waiting);
      HoldersUpdate(d.calls, w, Granted);
      forall v: nat
        ensures Semaphores.Waiting(t.slots.waiters, v) == if InPhase(t, v, Phase.Waiting) then 1 else 0
      {
        assert Semaphores.Waiting(d.slots.waiters, v) == if InPhase(d, v, Phase.Waiting) then 1 else 0;
      }
    }
  }

  lemma FailKeeps(d: Driver, c: nat)
    requires Inv(d) && c in d.calls && Holding(d.calls[c])
    ensures Inv(FailAndRelease(d, c))
    ensures Holders(d.calls) != {} && d.slots.current > 0
  {
    var m := SetPhase(d, c, Failed);
    HoldersUpdate(d.calls, c, Failed);
    assert c in Holders(d.calls);
    SetPhaseQueue(d, c, Failed);
    ReleaseShifts(m);
  }

  /** Taking a container off the books keeps them right exactly when it was on them. */
  lemma ForgetExact(d: Driver, c: nat, p: Phase, id: nat)
    requires Inv(d) && c in d.calls && !Holding(d.calls[c]) && !d.calls[c].Waiting?
    requires !Holding(p) && !p.Waiting?
    ensures Conserved(Forget(d, c, p, id)) <==> id in d.active || d.slots.current == 0
    ensures id in d.active || d.slots.current == 0 ==> Inv(Forget(d, c, p, id))
  {
    var m := SetPhase(d, c, p).(active := d.active - {id});
    HoldersUpdate(d.calls, c, p);
    SetPhaseQueue(d, c, p);
    assert QueueOk(m) by {
      assert QueueOk(SetPhase(d, c, p));
      forall v: nat
        ensures Semaphores.Waiting(m.slots.waiters, v) == if InPhase(m, v, Phase.Waiting) then 1 else 0
      {
        assert InPhase(m, v, Phase.Waiting) == InPhase(SetPhase(d, c, p), v, Phase.Waiting);
      }
    }
    ReleaseShifts(m);
    if id in d.active {
      assert |d.active - {id}| == |d.active| - 1;
    } else {
      assert d.active - {id} == d.active;
    }
  }

  lemma CreateQueue(d: Driver, c: nat)
    requires QueueOk(d) && c !in d.calls
    ensures QueueOk(AcquireSlot(d, c))
  {
    var t := AcquireSlot(d, c);
    forall v: nat
      ensures Semaphores.Waiting(t.slots.waiters, v) == if InPhase(t, v, Phase.Waiting) then 1 else 0
    {
      assert Semaphores.Waiting(d.slots.waiters, v) == if InPhase(d, v, Phase.Waiting) then 1 else 0;
      WaitersSnoc(d.slots.waiters, Waiter(c, true), v);
    }
  }

  lemma CreateKeeps(d: Driver, c: nat)
    requires Inv(d) && c !in d.calls
    ensures Inv(AcquireSlot(d, c))
  {
    CreateQueue(d, c);
    HoldersUpdate(d.calls, c, if d.slots.current < d.slots.max then Granted else Phase.Waiting);
    assert StartsOk(AcquireSlot(d, c));
    assert Conserved(AcquireSlot(d, c));
  }

  lemma TimeoutKeeps(d: Driver, c: nat)
    requires Inv(d) && InPhase(d, c, Phase.Waiting)
    ensures Inv(Step(d, AcquireTimeout(c)))
  {
    var t := Step(d, AcquireTimeout(c));
    StepSafe(d.slots, Timeout(c), 0);
    HoldersUpdate(d.calls, c, Failed);
    assert Semaphores.Waiting(d.slots.waiters, c) == 1;
    NotQueued(d.slots.waiters, c);
    forall v: nat
      ensures Semaphores.Waiting(t.slots.waiters, v) == if InPhase(t, v, Phase.Waiting) then 1 else 0
    {
      assert Semaphores.Waiting(d.slots.waiters, v) == if InPhase(d, v, Phase.Waiting) then 1 else 0;
      WaitersCut(d.slots.waiters, Position(d.slots.waiters, c), v);
    }
  }

  lemma {:induction false} NotQueued(ws: seq<Waiter>, id: nat)
    ensures Position(ws, id) < 0 <==> Semaphores.Waiting(ws, id) == 0
  {
    if ws != [] {
      NotQueued(ws[1..], id);
    }
  }

  /** A phase change that neither takes nor gives a slot. */
  lemma QuietKeeps(d: Driver, c: nat, p: Phase, docker: set<nat>)
    requires Inv(d) && !InPhase(d, c, Phase.Waiting) && !p.Waiting? && !p.Starting?
    requires Holding(p) <==> c in d.calls && Holding(d.calls[c])
    ensures Inv(SetPhase(d, c, p).(docker := docker))
  {
    HoldersUpdate(d.calls, c, p);
    SetPhaseQueue(d, c, p);
    var t := SetPhase(d, c, p).(docker := docker);
    assert forall v: nat :: InPhase(t, v, Phase.Waiting) == InPhase(SetPhase(d, c, p), v, Phase.Waiting);
  }

  lemma StartKeeps(d: Driver, e: Event)
    requires Inv(d) && CanHappen(d, e) && (e.Created? || e.Started?) && e.ok
    ensures Inv(Step(d, e))
  {
    var c, t := e.call, Step(d, e);
    HoldersUpdate(d.calls, c, t.calls[c]);
    SetPhaseQueue(d, c, t.calls[c]);
    assert forall v: nat :: InPhase(t, v, Phase.Waiting) == InPhase(SetPhase(d, c, t.calls[c]), v, Phase.Waiting);
  }

  /** Every step keeps the books, provided slots are given back only for counted containers or none is taken. */
  lemma StepKeepsInv(d: Driver, e: Event)
    requires Inv(d) && CanHappen(d, e) && (Counted(d, e) || d.slots.current == 0)
    ensures Inv(Step(d, e))
  {
    match e
    case Create(c) => CreateKeeps(d, c);
    case AcquireTimeout(c) => TimeoutKeeps(d, c);
    case Resume(c, allowed) => if allowed { QuietKeeps(d, c, Creating, d.docker); } else { FailKeeps(d, c); }
    case Created(c, ok, id) => if ok { StartKeeps(d, e); } else { FailKeeps(d, c); }
    case Started(c, ok) => if ok { StartKeeps(d, e); } else { QuietKeeps(d, c, Removing(d.calls[c].id), d.docker); }
    case RemoveDone(c, ok) =>
      QuietKeeps(d, c, d.calls[c], if ok then d.docker - {d.calls[c].id} else d.docker);
      var m := if ok then d.(docker := d.docker - {d.calls[c].id}) else d;
      assert d.calls[c := d.calls[c]] == d.calls;
      FailKeeps(m, c);
    case Ready(c) => QuietKeeps(d, c, Returned(d.calls[c].id), d.docker);
    case Terminate(c, id) => QuietKeeps(d, c, Terminating(id), d.docker);
    case DockerRemoves(c) => QuietKeeps(d, c, Removed(d.calls[c].id), d.docker - {d.calls[c].id});
    case TerminateFails(c) => QuietKeeps(d, c, Ended, d.docker);
    case TerminateResume(c) => ForgetExact(d, c, Ended, d.calls[c].id);
    case Cleanup(c, ids) => QuietKeeps(d, c, Sweeping(ids), d.docker);
    case CleanupNext(c, ok) =>
      var ids := d.calls[c].ids;
      QuietKeeps(d, c, d.calls[c], if ok then d.docker - {ids[0]} else d.docker);
      var m := if ok then d.(docker := d.docker - {ids[0]}) else d;
      assert d.calls[c := d.calls[c]] == d.calls;
      ForgetExact(m, c, Sweeping(ids[1..]), ids[0]);
  }

  /**
   Exactly when a step keeps the books: a slot given back for a container the driver does not
   count loses a slot, unless none was taken in the first place.
   */
  lemma StepExact(d: Driver, e: Event)
    requires Inv(d) && CanHappen(d, e)
    ensures Conserved(Step(d, e)) <==> Counted(d, e) || d.slots.current == 0
  {
    if Counted(d, e) {
      StepKeepsInv(d, e);
    } else if e.TerminateResume? {
      ForgetExact(d, e.call, Ended, d.calls[e.call].id);
    } else {
      var ids := d.calls[e.call].ids;
      QuietKeeps(d, e.call, d.calls[e.call], if e.ok then d.docker - {ids[0]} else d.docker);
      assert d.calls[e.call := d.calls[e.call]] == d.calls;
      var m := if e.ok then d.(docker := d.docker - {ids[0]}) else d;
      ForgetExact(m, e.call, Sweeping(ids[1..]), ids[0]);
    }
  }

  /**
   A cleanup that overlaps a terminate of the same container gives its slot back twice: the
   books are wrong afterwards unless that container was the only thing on them.
   */
  lemma OverlapLosesSlot(d: Driver, terminate: nat, sweep: nat, ids: seq<nat>, ok: bool)
    requires Inv(d) && ids != [] && ids[0] in d.active
    requires InPhase(d, terminate, Removed(ids[0])) && InPhase(d, sweep, Sweeping(ids))
    ensures var t := Step(d, TerminateResume(terminate));
      && CanHappen(t, CleanupNext(sweep, ok))
      && (Conserved(Step(t, CleanupNext(sweep, ok))) <==> t.slots.current == 0)
  {
    var t := Step(d, TerminateResume(terminate));
    StepKeepsInv(d, TerminateResume(terminate));
    if d.slots.waiters != [] {
      assert Semaphores.Waiting(d.slots.waiters, d.slots.waiters[0].id) >= 1;
      assert InPhase(d, d.slots.waiters[0].id, Phase.Waiting);
    }
    StepExact(t, CleanupNext(sweep, ok));
  }

  /** The three ways createSandbox fails after getting a slot. */
  predicate CreateFails(d: Driver, e: Event) {
    || (e.Resume? && !e.imageAllowed)
    || (e.Created? && !e.ok)
    || e.RemoveDone?
  }

  /**
   Every failure path gives back exactly one slot: either running drops by one, or the first
   waiter gets the slot and running stays. A time-out never held one and gives none back.
   */
  lemma FailureReturnsOneSlot(d: Driver, e: Event)
    requires Inv(d) && CanHappen(d, e)
    ensures CreateFails(d, e) ==> OneSlotBack(d, e.call, Step(d, e))
    ensures e.AcquireTimeout? ==>
      Step(d, e).slots.current == d.slots.current && Holders(Step(d, e).calls) == Holders(d.calls)
  {
    if CreateFails(d, e) {
      FailReturns(d, e.call);
    } else if e.AcquireTimeout? {
      HoldersUpdate(d.calls, e.call, Failed);
    }
  }

  predicate OneSlotBack(d: Driver, call: nat, t: Driver) {
    && InPhase(t, call, Failed) && t.active == d.active
    && (if d.slots.waiters == []
        then t.slots.current == d.slots.current - 1 && Holders(t.calls) == Holders(d.calls) - {call}
        else
          var next := d.slots.waiters[0].id;
          && t.slots.current == d.slots.current && InPhase(t, next, Granted)
          && Holders(t.calls) == Holders(d.calls) - {call} + {next})
  }

  lemma FailReturns(d: Driver, call: nat)
    requires Inv(d) && call in d.calls && Holding(d.calls[call])
    ensures OneSlotBack(d, call, FailAndRelease(d, call))
  {
    FailKeeps(d, call);
    HoldersUpdate(d.calls, call, Failed);
    if d.slots.waiters != [] {
      var next := d.slots.waiters[0].id;
      assert Semaphores.Waiting(d.slots.waiters, next) >= 1;
      assert InPhase(d, next, Phase.Waiting);
      HoldersUpdate(d.calls[call := Failed], next, Granted);
    }
  }

  // ---- Conservation over runs ----

  predicate CanRun(d: Driver, es: seq<Event>)
    decreases |es|
  {
    es == [] || (CanHappen(d, es[0]) && CanRun(Step(d, es[0]), es[1..]))
  }

  function Final(d: Driver, es: seq<Event>): Driver
    requires CanRun(d, es)
    decreases |es|
  {
    if es == [] then d else Final(Step(d, es[0]), es[1..])
  }

  predicate SweepUnderWay(d: Driver, c: nat) {
    c in d.calls && d.calls[c].Sweeping? && d.calls[c].ids != []
  }

  predicate TerminateUnderWay(d: Driver, c: nat) {
    c in d.calls && (d.calls[c].Terminating? || d.calls[c].Removed?)
  }

  /**
   What the callers owe: terminate only containers of this driver (one that Docker still has
   must be active), and never overlap a cleanup with a terminate or another cleanup.
   */
  predicate Disciplined(d: Driver, e: Event) {
    && (e.Terminate? ==>
      && e.id in d.issued && (e.id in d.docker ==> e.id in d.active)
      && forall c :: c in d.calls ==> !SweepUnderWay(d, c))
    && (e.Cleanup? ==> forall c :: c in d.calls ==> !SweepUnderWay(d, c) && !TerminateUnderWay(d, c))
  }

  predicate DisciplinedRun(d: Driver, es: seq<Event>)
    requires CanRun(d, es)
    decreases |es|
  {
    es == [] || (Disciplined(d, es[0]) && DisciplinedRun(Step(d, es[0]), es[1..]))
  }

  // What that discipline guarantees about the removals in flight.

  predicate TerminatingOk(d: Driver) {
    forall c :: c in d.calls && d.calls[c].Terminating? ==>
      d.calls[c].id in d.issued && (d.calls[c].id in d.docker ==> d.calls[c].id in d.active)
  }

  predicate RemovedOk(d: Driver) {
    && (forall c :: c in d.calls && d.calls[c].Removed? ==> d.calls[c].id in d.active && d.calls[c].id !in d.docker)
    && (forall b, c :: b in d.calls && c in d.calls && b != c && d.calls[b].Removed? && d.calls[c].Removed?
          ==> d.calls[b].id != d.calls[c].id)
  }

  predicate SweepOk(d: Driver) {
    && (forall c :: c in d.calls && SweepUnderWay(d, c) ==>
          NoRepeats(d.calls[c].ids) && forall i :: 0 <= i < |d.calls[c].ids| ==> d.calls[c].ids[i] in d.active)
    && (forall b, c :: b in d.calls && c in d.calls && SweepUnderWay(d, b)
                       && (SweepUnderWay(d, c) || TerminateUnderWay(d, c)) ==>
          b == c)
  }

  predicate RemovalsOk(d: Driver) {
    TerminatingOk(d) && RemovedOk(d) && SweepOk(d)
  }

  /** Apart from call c, t has no removal under way that d does not have. */
  predicate SameRemovals(d: Driver, t: Driver, c: nat) {
    forall x :: x in t.calls && x != c && (SweepUnderWay(t, x) || TerminateUnderWay(t, x)) ==>
      x in d.calls && d.calls[x] == t.calls[x]
  }

  lemma StepSameRemovals(d: Driver, e: Event)
    requires Inv(d) && CanHappen(d, e)
    ensures SameRemovals(d, Step(d, e), e.call)
  {
  }

  /** Steps that are not about removals: containers come and go only as they may. */
  lemma QuietRemovals(d: Driver, t: Driver, c: nat)
    requires RemovalsOk(d) && SameRemovals(d, t, c) && !SweepUnderWay(t, c) && !TerminateUnderWay(t, c)
    requires d.active <= d.issued && d.active <= t.active && d.issued <= t.issued
    requires forall id :: id in t.docker ==> id in d.docker || id !in d.issued
    ensures RemovalsOk(t)
  {
  }

  lemma CleanupRemovals(d: Driver, e: Event)
    requires RemovalsOk(d) && CanHappen(d, e) && Disciplined(d, e) && e.Cleanup?
    ensures RemovalsOk(Step(d, e))
  {
    var t := Step(d, e);
    assert forall x :: x in t.calls && x != e.call ==> !SweepUnderWay(t, x) && !TerminateUnderWay(t, x);
  }

  predicate AboutTermination(e: Event) {
    e.Terminate? || e.DockerRemoves? || e.TerminateFails?
  }

  lemma TerminationKeepsTerminating(d: Driver, e: Event)
    requires TerminatingOk(d) && CanHappen(d, e) && Disciplined(d, e) && AboutTermination(e)
    requires e.DockerRemoves? ==> d.active <= d.issued
    ensures TerminatingOk(Step(d, e))
  {
    var t := Step(d, e);
    forall c | c in t.calls && t.calls[c].Terminating?
      ensures t.calls[c].id in t.issued && (t.calls[c].id in t.docker ==> t.calls[c].id in t.active)
    {
    }
  }

  lemma TerminationKeepsRemoved(d: Driver, e: Event)
    requires TerminatingOk(d) && RemovedOk(d) && CanHappen(d, e) && AboutTermination(e)
    ensures RemovedOk(Step(d, e))
  {
    var t := Step(d, e);
    forall c | c in t.calls && t.calls[c].Removed?
      ensures t.calls[c].id in t.active && t.calls[c].id !in t.docker
    {
      assert e.DockerRemoves? || d.calls[c].Removed?;
    }
    forall b, c | b in t.calls && c in t.calls && b != c && t.calls[b].Removed? && t.calls[c].Removed?
      ensures t.calls[b].id != t.calls[c].id
    {
      assert b == e.call || d.calls[b] == t.calls[b];
      assert c == e.call || d.calls[c] == t.calls[c];
    }
  }

  lemma TerminationKeepsSweep(d: Driver, e: Event)
    requires SweepOk(d) && CanHappen(d, e) && Disciplined(d, e) && AboutTermination(e)
    ensures SweepOk(Step(d, e))
  {
    var t := Step(d, e);
    assert t.active == d.active;
    forall x | x in t.calls && SweepUnderWay(t, x)
      ensures x != e.call && x in d.calls && d.calls[x] == t.calls[x]
    {
    }
    forall x | x in t.calls && TerminateUnderWay(t, x)
      ensures (x in d.calls && TerminateUnderWay(d, x)) || e.Terminate?
    {
    }
  }

  lemma TerminateRemovals(d: Driver, e: Event)
    requires Inv(d) && RemovalsOk(d) && CanHappen(d, e) && Disciplined(d, e) && AboutTermination(e)
    ensures RemovalsOk(Step(d, e))
  {
    TerminationKeepsTerminating(d, e);
    TerminationKeepsRemoved(d, e);
    TerminationKeepsSweep(d, e);
  }

  lemma ForgetShape(d: Driver, c: nat, p: Phase, id: nat)
    requires QueueOk(d) && c in d.calls && !d.calls[c].Waiting?
    ensures var t := Forget(d, c, p, id);
      InPhase(t, c, p) && t.active == d.active - {id} && t.docker == d.docker && t.issued == d.issued
  {
    if d.slots.waiters != [] {
      var next := d.slots.waiters[0].id;
      assert Semaphores.Waiting(d.slots.waiters, next) >= 1;
      assert InPhase(d, next, Phase.Waiting);
    }
  }

  lemma ForgetRemovals(d: Driver, t: Driver, c: nat, id: nat)
    requires RemovalsOk(d) && SameRemovals(d, t, c)
    requires t.active == d.active - {id} && t.issued == d.issued && t.docker <= d.docker && id !in t.docker
    requires InPhase(d, c, Removed(id)) && InPhase(t, c, Ended)
    ensures RemovalsOk(t)
  {
  }

  lemma SweepRemovals(d: Driver, t: Driver, c: nat)
    requires RemovalsOk(d) && SameRemovals(d, t, c) && SweepUnderWay(d, c)
    requires t.active == d.active - {d.calls[c].ids[0]} && t.issued == d.issued
    requires InPhase(t, c, Sweeping(d.calls[c].ids[1..]))
    ensures RemovalsOk(t)
  {
    var ids := d.calls[c].ids;
    assert forall i :: 0 <= i < |ids[1..]| ==> ids[1..][i] == ids[i + 1];
    assert forall x :: x in t.calls && x != c ==> !SweepUnderWay(t, x) && !TerminateUnderWay(t, x);
  }

  lemma TerminateResumeKept(d: Driver, c: nat)
    requires Inv(d) && RemovalsOk(d) && CanHappen(d, TerminateResume(c))
    ensures Counted(d, TerminateResume(c)) && RemovalsOk(Step(d, TerminateResume(c)))
  {
    StepSameRemovals(d, TerminateResume(c));
    ForgetShape(d, c, Ended, d.calls[c].id);
    ForgetRemovals(d, Step(d, TerminateResume(c)), c, d.calls[c].id);
  }

  lemma CleanupNextKept(d: Driver, c: nat, ok: bool)
    requires Inv(d) && RemovalsOk(d) && CanHappen(d, CleanupNext(c, ok))
    ensures Counted(d, CleanupNext(c, ok)) && RemovalsOk(Step(d, CleanupNext(c, ok)))
  {
    var ids := d.calls[c].ids;
    StepSameRemovals(d, CleanupNext(c, ok));
    ForgetShape(if ok then d.(docker := d.docker - {ids[0]}) else d, c, Sweeping(ids[1..]), ids[0]);
    assert SweepUnderWay(d, c);
    SweepRemovals(d, Step(d, CleanupNext(c, ok)), c);
  }

  predicate AboutRemoval(e: Event) {
    AboutTermination(e) || e.TerminateResume? || e.Cleanup? || e.CleanupNext?
  }

  /** A creation that fails or times out, or is only told that it may go on. */
  lemma FailureShape(d: Driver, c: nat)
    requires QueueOk(d) && c in d.calls && !d.calls[c].Waiting?
    ensures var t := FailAndRelease(d, c);
      t.active == d.active && t.docker == d.docker && t.issued == d.issued && InPhase(t, c, Failed)
  {
    var m := SetPhase(d, c, Failed);
    if d.slots.waiters != [] {
      var next := d.slots.waiters[0].id;
      assert Semaphores.Waiting(d.slots.waiters, next) >= 1;
      assert InPhase(d, next, Phase.Waiting);
    }
  }

  lemma RemoveDoneShape(d: Driver, c: nat, ok: bool)
    requires Inv(d) && CanHappen(d, RemoveDone(c, ok))
    ensures var t := Step(d, RemoveDone(c, ok));
      t.active == d.active && t.docker <= d.docker && t.issued == d.issued && InPhase(t, c, Failed)
  {
    FailureShape(if ok then d.(docker := d.docker - {d.calls[c].id}) else d, c);
  }

  /** What a creation does to the containers: it may add new ones, and takes none off the books. */
  lemma CreationShape(d: Driver, e: Event)
    requires Inv(d) && CanHappen(d, e) && !AboutRemoval(e)
    ensures var t := Step(d, e);
      && d.active <= t.active && d.issued <= t.issued
      && (forall id :: id in t.docker ==> id in d.docker || id !in d.issued)
      && !SweepUnderWay(t, e.call) && !TerminateUnderWay(t, e.call)
  {
    match e
    case Create(c) =>
    case AcquireTimeout(c) =>
    case Resume(c, allowed) => FailureShape(d, c);
    case Created(c, ok, id) => FailureShape(d, c);
    case RemoveDone(c, ok) => RemoveDoneShape(d, c, ok);
    case Started(c, ok) =>
    case Ready(c) =>
    case _ =>
  }

  lemma CreationKept(d: Driver, e: Event)
    requires Inv(d) && RemovalsOk(d) && CanHappen(d, e) && !AboutRemoval(e)
    ensures RemovalsOk(Step(d, e))
  {
    StepSameRemovals(d, e);
    CreationShape(d, e);
    QuietRemovals(d, Step(d, e), e.call);
  }

  lemma RemovalsKept(d: Driver, e: Event)
    requires Inv(d) && RemovalsOk(d) && CanHappen(d, e) && Disciplined(d, e)
    ensures Counted(d, e) && RemovalsOk(Step(d, e))
  {
    if AboutTermination(e) {
      TerminateRemovals(d, e);
    } else if e.TerminateResume? {
      TerminateResumeKept(d, e.call);
    } else if e.Cleanup? {
      CleanupRemovals(d, e);
    } else if e.CleanupNext? {
      CleanupNextKept(d, e.call, e.ok);
    } else {
      CreationKept(d, e);
    }
  }

  lemma {:induction false} RunFrom(d: Driver, es: seq<Event>)
    requires Inv(d) && RemovalsOk(d) && CanRun(d, es) && DisciplinedRun(d, es)
    ensures Inv(Final(d, es)) && Final(d, es).slots.max == d.slots.max
    decreases |es|
  {
    if es != [] {
      RemovalsKept(d, es[0]);
      StepKeepsInv(d, es[0]);
      RunFrom(Step(d, es[0]), es[1..]);
    }
  }

  /**
   Slot conservation over every run of creations, terminations, time-outs and cleanups: running
   equals the creations holding a slot plus the active containers, never exceeds the limit,
   and calls wait only while every slot is taken.
   */
  lemma SlotsConserved(max: int, es: seq<Event>)
    requires CanRun(NewDriver(max), es) && DisciplinedRun(NewDriver(max), es)
    ensures var d := Final(NewDriver(max), es);
      && d.slots.current == |Holders(d.calls)| + |d.active|
      && d.slots.current <= (if max < 1 then 1 else max)
      && (forall c :: InPhase(d, c, Phase.Waiting) ==> d.slots.current == if max < 1 then 1 else max)
  {
    var d0 := NewDriver(max);
    assert Holders(d0.calls) == {};
    RunFrom(d0, es);
    var d := Final(d0, es);
    forall c: nat | InPhase(d, c, Phase.Waiting)
      ensures d.slots.waiters != []
    {
      assert Semaphores.Waiting(d.slots.waiters, c) == 1;
    }
  }

  /** Running is the creations that hold a slot plus the active containers, at every point of the run. */
  predicate BooksRight(d: Driver, es: seq<Event>)
    requires CanRun(d, es)
    decreases |es|
  {
    Conserved(d) && (es == [] || BooksRight(Step(d, es[0]), es[1..]))
  }

  /** Every slot is given back for a container the driver counts, or while none is taken. */
  predicate CountedRun(d: Driver, es: seq<Event>)
    requires CanRun(d, es)
    decreases |es|
  {
    es == [] || ((Counted(d, es[0]) || d.slots.current == 0) && CountedRun(Step(d, es[0]), es[1..]))
  }

  lemma {:induction false} BooksExactlyFrom(d: Driver, es: seq<Event>)
    requires Inv(d) && CanRun(d, es)
    ensures BooksRight(d, es) <==> CountedRun(d, es)
    decreases |es|
  {
    if es != [] {
      StepExact(d, es[0]);
      if Counted(d, es[0]) || d.slots.current == 0 {
        StepKeepsInv(d, es[0]);
        BooksExactlyFrom(Step(d, es[0]), es[1..]);
      }
    }
  }

  /**
   Exactly which runs of a new driver keep the books right throughout, whatever its callers do:
   those in which no slot is given back for an uncounted container while some slot is taken.
   */
  lemma BooksExactly(max: int, es: seq<Event>)
    requires CanRun(NewDriver(max), es)
    ensures BooksRight(NewDriver(max), es) <==> CountedRun(NewDriver(max), es)
  {
    assert Holders(NewDriver(max).calls) == {};
    BooksExactlyFrom(NewDriver(max), es);
  }

  // ---- A cleanup sweeps everything ----

  /** What every step keeps, whether or not the books are right. */
  ghost predicate Steady(d: Driver) {
    Sound(d.slots) && QueueOk(d) && StartsOk(d)
  }

  lemma ReleaseSteady(d: Driver)
    requires Steady(d)
    ensures var t := ReleaseSlot(d);
      && Steady(t) && t.active == d.active && t.issued == d.issued
      && forall c :: c in t.calls && !t.calls[c].Granted? ==> c in d.calls && d.calls[c] == t.calls[c]
  {
    ReleaseShifts(d);
  }

  lemma PhaseSteady(d: Driver, c: nat, p: Phase, active: set<nat>, docker: set<nat>)
    requires Steady(d) && !InPhase(d, c, Phase.Waiting) && !p.Waiting? && !p.Starting? && active <= d.active
    ensures Steady(SetPhase(d, c, p).(active := active, docker := docker))
  {
    SetPhaseQueue(d, c, p);
    var t := SetPhase(d, c, p).(active := active, docker := docker);
    assert forall v: nat :: InPhase(t, v, Phase.Waiting) == InPhase(SetPhase(d, c, p), v, Phase.Waiting);
  }

  lemma CreateSteady(d: Driver, c: nat)
    requires Steady(d) && c !in d.calls
    ensures Steady(AcquireSlot(d, c))
  {
    CreateQueue(d, c);
    assert StartsOk(AcquireSlot(d, c));
  }

  lemma TimeoutSteady(d: Driver, c: nat)
    requires Steady(d) && InPhase(d, c, Phase.Waiting)
    ensures Steady(Step(d, AcquireTimeout(c)))
  {
    var t := Step(d, AcquireTimeout(c));
    StepSafe(d.slots, Timeout(c), 0);
    assert Semaphores.Waiting(d.slots.waiters, c) == 1;
    NotQueued(d.slots.waiters, c);
    forall v: nat
      ensures Semaphores.Waiting(t.slots.waiters, v) == if InPhase(t, v, Phase.Waiting) then 1 else 0
    {
      assert Semaphores.Waiting(d.slots.waiters, v) == if InPhase(d, v, Phase.Waiting) then 1 else 0;
      WaitersCut(d.slots.waiters, Position(d.slots.waiters, c), v);
    }
  }

  lemma StartSteady(d: Driver, e: Event)
    requires Steady(d) && CanHappen(d, e) && (e.Created? || e.Started?) && e.ok
    ensures Steady(Step(d, e))
  {
    var c, t := e.call, Step(d, e);
    SetPhaseQueue(d, c, t.calls[c]);
    assert forall v: nat :: InPhase(t, v, Phase.Waiting) == InPhase(SetPhase(d, c, t.calls[c]), v, Phase.Waiting);
  }

  lemma StepSteady(d: Driver, e: Event)
    requires Steady(d) && CanHappen(d, e)
    ensures Steady(Step(d, e))
  {
    match e
    case Create(c) => CreateSteady(d, c);
    case AcquireTimeout(c) => TimeoutSteady(d, c);
    case Resume(c, allowed) =>
      PhaseSteady(d, c, if allowed then Creating else Failed, d.active, d.docker);
      if !allowed {
        ReleaseSteady(SetPhase(d, c, Failed));
      }
    case Created(c, ok, id) =>
      if ok {
        StartSteady(d, e);
      } else {
        PhaseSteady(d, c, Failed, d.active, d.docker);
        ReleaseSteady(SetPhase(d, c, Failed));
      }
    case Started(c, ok) =>
      if ok { StartSteady(d, e); } else { PhaseSteady(d, c, Removing(d.calls[c].id), d.active, d.docker); }
    case RemoveDone(c, ok) =>
      var docker := if ok then d.docker - {d.calls[c].id} else d.docker;
      PhaseSteady(d, c, Failed, d.active, docker);
      ReleaseSteady(SetPhase(d, c, Failed).(active := d.active, docker := docker));
    case Ready(c) => PhaseSteady(d, c, Returned(d.calls[c].id), d.active, d.docker);
    case Terminate(c, id) => PhaseSteady(d, c, Terminating(id), d.active, d.docker);
    case DockerRemoves(c) => PhaseSteady(d, c, Removed(d.calls[c].id), d.active, d.docker - {d.calls[c].id});
    case TerminateFails(c) => PhaseSteady(d, c, Ended, d.active, d.docker);
    case TerminateResume(c) =>
      PhaseSteady(d, c, Ended, d.active - {d.calls[c].id}, d.docker);
      ReleaseSteady(SetPhase(d, c, Ended).(active := d.active - {d.calls[c].id}, docker := d.docker));
    case Cleanup(c, ids) => PhaseSteady(d, c, Sweeping(ids), d.active, d.docker);
    case CleanupNext(c, ok) => CleanupNextSteady(d, c, ok);
  }

  lemma CleanupNextSteady(d: Driver, c: nat, ok: bool)
    requires Steady(d) && CanHappen(d, CleanupNext(c, ok))
    ensures Steady(Step(d, CleanupNext(c, ok)))
  {
    var ids := d.calls[c].ids;
    var docker := if ok then d.docker - {ids[0]} else d.docker;
    PhaseSteady(d, c, Sweeping(ids[1..]), d.active - {ids[0]}, docker);
    ReleaseSteady(SetPhase(d, c, Sweeping(ids[1..])).(active := d.active - {ids[0]}, docker := docker));
  }

  /** The container was issued and is not about to be registered: it is active now or never again. */
  predicate Over(d: Driver, id: nat) {
    id in d.issued && forall c :: c in d.calls && d.calls[c].Starting? ==> d.calls[c].id != id
  }

  /** Step by step: what a sweep has passed stays gone, and a sweep is only moved on by its own turns. */
  lemma StepSweeps(d: Driver, e: Event, c: nat, id: nat)
    requires Steady(d) && CanHappen(d, e)
    ensures Over(d, id) ==> Over(Step(d, e), id) && (id in Step(d, e).active ==> id in d.active)
    ensures c in d.calls && d.calls[c].Sweeping? ==>
      InPhase(Step(d, e), c, if e.CleanupNext? && e.call == c then Sweeping(d.calls[c].ids[1..]) else d.calls[c])
    ensures e.CleanupNext? && e.call == c && d.calls[c].ids[0] == id ==> id !in Step(d, e).active
  {
    if d.slots.waiters != [] {
      var next := d.slots.waiters[0].id;
      assert Semaphores.Waiting(d.slots.waiters, next) >= 1;
      assert InPhase(d, next, Phase.Waiting);
    }
  }

  /** How many turns that cleanup has had. */
  function Turns(es: seq<Event>, c: nat): nat {
    if es == [] then 0 else (if es[0].CleanupNext? && es[0].call == c then 1 else 0) + Turns(es[1..], c)
  }

  lemma {:induction false} SweepFrom(d: Driver, c: nat, ids: seq<nat>, es: seq<Event>, i: nat)
    requires Steady(d) && InPhase(d, c, Sweeping(ids)) && CanRun(d, es) && i < |ids| && Over(d, ids[i])
    ensures Turns(es, c) <= |ids| && InPhase(Final(d, es), c, Sweeping(ids[Turns(es, c)..]))
    ensures i < Turns(es, c) ==> ids[i] !in Final(d, es).active
    decreases |es|
  {
    if es == [] {
      assert ids[0..] == ids;
    } else {
      var t := Step(d, es[0]);
      StepSteady(d, es[0]);
      StepSweeps(d, es[0], c, ids[i]);
      if es[0].CleanupNext? && es[0].call == c {
        if i > 0 {
          SweepFrom(t, c, ids[1..], es[1..], i - 1);
        } else {
          SweepOn(t, c, ids[1..], es[1..], ids[0]);
        }
        assert ids[1..][Turns(es[1..], c)..] == ids[Turns(es, c)..];
      } else {
        SweepFrom(t, c, ids, es[1..], i);
      }
    }
  }

  /** A container that is over and not active stays so, while the sweep takes its turns. */
  lemma {:induction false} SweepOn(d: Driver, c: nat, ids: seq<nat>, es: seq<Event>, id: nat)
    requires Steady(d) && InPhase(d, c, Sweeping(ids)) && CanRun(d, es) && Over(d, id) && id !in d.active
    ensures Turns(es, c) <= |ids| && InPhase(Final(d, es), c, Sweeping(ids[Turns(es, c)..]))
    ensures id !in Final(d, es).active
    decreases |es|
  {
    if es == [] {
      assert ids[0..] == ids;
    } else {
      var mine := es[0].CleanupNext? && es[0].call == c;
      StepSteady(d, es[0]);
      StepSweeps(d, es[0], c, id);
      SweepOn(Step(d, es[0]), c, if mine then ids[1..] else ids, es[1..], id);
      if mine {
        assert ids[1..][Turns(es[1..], c)..] == ids[Turns(es, c)..];
      }
    }
  }

  lemma {:induction false} SteadyRun(d: Driver, es: seq<Event>)
    requires Steady(d) && CanRun(d, es)
    ensures Steady(Final(d, es))
    decreases |es|
  {
    if es != [] {
      StepSteady(d, es[0]);
      SteadyRun(Step(d, es[0]), es[1..]);
    }
  }

  /**
   A cleanup has one turn for each container that was active when it began, whether or not Docker removes
   it; when they are over none of those is active any more. So it is in every run, whatever else
   happens before and meanwhile.
   */
  lemma CleanupSweepsAll(max: int, before: seq<Event>, c: nat, ids: seq<nat>, es: seq<Event>, id: nat)
    requires CanRun(NewDriver(max), before) && CanHappen(Final(NewDriver(max), before), Cleanup(c, ids))
    requires CanRun(Step(Final(NewDriver(max), before), Cleanup(c, ids)), es)
    requires id in Final(NewDriver(max), before).active
    ensures var t := Final(Step(Final(NewDriver(max), before), Cleanup(c, ids)), es);
      && Turns(es, c) <= |ids| == |Final(NewDriver(max), before).active|
      && InPhase(t, c, Sweeping(ids[Turns(es, c)..]))
      && (Turns(es, c) == |ids| ==> id !in t.active)
  {
    var d := Final(NewDriver(max), before);
    SteadyRun(NewDriver(max), before);
    var i :| 0 <= i < |ids| && ids[i] == id;
    StepSteady(d, Cleanup(c, ids));
    ListedSize(ids, d.active);
    SweepFrom(Step(d, Cleanup(c, ids)), c, ids, es, i);
  }

  lemma {:induction false} ListedSize(ids: seq<nat>, s: set<nat>)
    requires Lists(ids, s)
    ensures |ids| == |s|
    decreases |ids|
  {
    if ids == [] {
      assert s == {};
    } else {
      var last, init := ids[|ids| - 1], ids[..|ids| - 1];
      forall id | id in s - {last}
        ensures id in init
      {
        var j :| 0 <= j < |ids| && ids[j] == id;
        assert init[j] == id;
      }
      ListedSize(init, s - {last});
    }
  }

  // ---- A run that overlaps ----

  lemma {:induction false} RunSnoc(d: Driver, es: seq<Event>, e: Event)
    requires CanRun(d, es) && CanHappen(Final(d, es), e)
    ensures CanRun(d, es + [e]) && Final(d, es + [e]) == Step(Final(d, es), e)
    decreases |es|
  {
    if es == [] {
      assert [] + [e] == [e];
    } else {
      assert (es + [e])[1..] == es[1..] + [e];
      RunSnoc(Step(d, es[0]), es[1..], e);
    }
  }

  /** Nobody waits, and everything but the log of the slots is as given. */
  predicate Looks(d: Driver, max: int, current: nat, active: set<nat>, calls: map<nat, Phase>, docker: set<nat>) {
    && d.slots.max == max && d.slots.current == current && d.slots.waiters == []
    && d.active == active && d.calls == calls && d.docker == docker
  }

  /** One container comes up. */
  function UpRun(id: nat): seq<Event> {
    [] + [Create(0)] + [Resume(0, true)] + [Created(0, true, id)] + [Started(0, true)]
  }

  lemma UpRuns(max: int, id: nat)
    requires max >= 2
    ensures CanRun(NewDriver(max), UpRun(id))
    ensures Looks(Final(NewDriver(max), UpRun(id)), max, 1, {id}, map[0 := Up(id)], {id})
  {
    var d0 := NewDriver(max);
    var e1 := [] + [Create(0)];
    RunSnoc(d0, [], Create(0));
    assert Looks(Final(d0, e1), max, 1, {}, map[0 := Granted], {}) && Final(d0, e1).issued == {};
    var e2 := e1 + [Resume(0, true)];
    RunSnoc(d0, e1, Resume(0, true));
    assert Looks(Final(d0, e2), max, 1, {}, map[0 := Creating], {});
    var e3 := e2 + [Created(0, true, id)];
    RunSnoc(d0, e2, Created(0, true, id));
    assert Looks(Final(d0, e3), max, 1, {}, map[0 := Starting(id)], {id});
    RunSnoc(d0, e3, Started(0, true));
  }

  /** Another creation gets a slot, and the container is terminated and swept at the same time. */
  function OverlapRun(id: nat): seq<Event> {
    UpRun(id) + [Create(1)] + [Terminate(2, id)] + [Cleanup(3, [id])] + [DockerRemoves(2)]
  }

  lemma OverlapRuns(max: int, id: nat)
    requires max >= 2
    ensures CanRun(NewDriver(max), OverlapRun(id))
    ensures Looks(Final(NewDriver(max), OverlapRun(id)), max, 2, {id},
                  map[0 := Up(id), 1 := Granted, 2 := Removed(id), 3 := Sweeping([id])], {})
  {
    var d0 := NewDriver(max);
    UpRuns(max, id);
    var e1 := UpRun(id) + [Create(1)];
    RunSnoc(d0, UpRun(id), Create(1));
    assert Looks(Final(d0, e1), max, 2, {id}, map[0 := Up(id), 1 := Granted], {id});
    var e2 := e1 + [Terminate(2, id)];
    RunSnoc(d0, e1, Terminate(2, id));
    assert Looks(Final(d0, e2), max, 2, {id}, map[0 := Up(id), 1 := Granted, 2 := Terminating(id)], {id});
    OverlapSweep(max, id, e2);
  }

  lemma OverlapSweep(max: int, id: nat, es: seq<Event>)
    requires CanRun(NewDriver(max), es)
    requires Looks(Final(NewDriver(max), es), max, 2, {id}, map[0 := Up(id), 1 := Granted, 2 := Terminating(id)], {id})
    ensures var after := es + [Cleanup(3, [id])] + [DockerRemoves(2)];
      && CanRun(NewDriver(max), after)
      && Looks(Final(NewDriver(max), after), max, 2, {id},
               map[0 := Up(id), 1 := Granted, 2 := Removed(id), 3 := Sweeping([id])], {})
  {
    var d0 := NewDriver(max);
    var e3 := es + [Cleanup(3, [id])];
    assert Lists([id], {id});
    RunSnoc(d0, es, Cleanup(3, [id]));
    assert Looks(Final(d0, e3), max, 2, {id},
                 map[0 := Up(id), 1 := Granted, 2 := Terminating(id), 3 := Sweeping([id])], {id});
    RunSnoc(d0, e3, DockerRemoves(2));
  }

  /**
   A run that gives a slot back twice: with room for two, running counts no slot at the end although
   a creation holds one, so from then on one container too many can be started.
   */
  lemma OverlapRunLosesSlot(max: int, id: nat)
    requires max >= 2
    ensures var es := OverlapRun(id) + [TerminateResume(2)] + [CleanupNext(3, true)];
      && CanRun(NewDriver(max), es)
      && var d := Final(NewDriver(max), es);
         d.slots.current == 0 && InPhase(d, 1, Granted) && !Conserved(d)
  {
    var d0 := NewDriver(max);
    OverlapRuns(max, id);
    var e1 := OverlapRun(id) + [TerminateResume(2)];
    RunSnoc(d0, OverlapRun(id), TerminateResume(2));
    assert Looks(Final(d0, e1), max, 1, {},
                 map[0 := Up(id), 1 := Granted, 2 := Ended, 3 := Sweeping([id])], {});
    RunSnoc(d0, e1, CleanupNext(3, true));
    var d := Final(d0, e1 + [CleanupNext(3, true)]);
    assert 1 in Holders(d.calls);
  }
}
