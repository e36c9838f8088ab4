/**
 The per-namespace token budget: daily token and cost counters and a per-minute request
 counter, each restarted lazily by the first call after its window has run out.
 */
module TokenBudgets {
  import JsText
  import opened Options

  const DAY_MS: int := 86_400_000
  const MINUTE_MS: int := 60_000

  datatype Allocation = Allocation(maxTokensPerDay: real, maxCostPerDay: real, maxRequestsPerMinute: int)
  datatype Usage = Usage(tokensUsed: real, costUsed: real, requestCount: nat, windowStart: int, dayStart: int)
  datatype Outcome = Allowed | RpmExceeded | TokensExceeded | CostExceeded

  // ---- The default limits ----

  function Digit(c: char): Option<nat> {
    if '0' <= c <= '9' then Some(c as int - '0' as int) else None
  }

  /** White space as JavaScript knows it, all of which is one code unit wide. */
  predicate Blank(c: char) {
    (c as int) < 0x1_0000 && JsText.IsSpace(c as int)
  }

  function Blanks(s: string): (n: nat)
    ensures n <= |s|
  {
    if s == [] || !Blank(s[0]) then 0 else 1 + Blanks(s[1..])
  }

  /** The longest run of digits in front, after those already read. */
  function ReadDigits(s: string, soFar: Option<nat>): Option<nat>
    decreases |s|
  {
    if s == [] || Digit(s[0]).None? then soFar
    else ReadDigits(s[1..], Some(10 * soFar.Or(0) + Digit(s[0]).value))
  }

  /** The sign the text starts with, if any. */
  function Sign(s: string): (sign: string)
    ensures |sign| <= |s|
  {
    if s != [] && (s[0] == '-' || s[0] == '+') then s[..1] else []
  }

  /** The integer so written; as an integer, -0 is 0. */
  function WithSign(sign: string, magnitude: int): int {
    if sign == "-" then -magnitude else magnitude
  }

  /** Text without leading white space. */
  function ParseTrimmed(t: string): Option<int> {
    var magnitude := ReadDigits(t[|Sign(t)|..], None);
    if magnitude.None? then None else Some(WithSign(Sign(t), magnitude.value))
  }

  /** parseInt(s, 10): leading white space skipped, a sign, and digits; None is NaN. */
  function ParseInt(s: string): Option<int> {
    ParseTrimmed(s[Blanks(s)..])
  }

  lemma {:induction false} ReadDigitsStops(a: string, rest: string, soFar: Option<nat>)
    requires forall i :: 0 <= i < |a| ==> Digit(a[i]).Some?
    requires rest != [] ==> Digit(rest[0]).None?
    ensures ReadDigits(a + rest, soFar) == ReadDigits(a, soFar)
    decreases |a|
  {
    if a == [] {
      assert a + rest == rest;
    } else {
      assert (a + rest)[1..] == a[1..] + rest;
      ReadDigitsStops(a[1..], rest, Some(10 * soFar.Or(0) + Digit(a[0]).value));
    }
  }

  /** A run of digits is read to its end. */
  lemma {:induction false} DigitsRead(s: string, soFar: Option<nat>)
    requires s != [] && forall i :: 0 <= i < |s| ==> Digit(s[i]).Some?
    ensures ReadDigits(s, soFar) == Some(Shifted(s, soFar.Or(0)))
  {
    if |s| > 1 {
      DigitsRead(s[1..], Some(10 * soFar.Or(0) + Digit(s[0]).value));
    } else {
      assert s[1..] == [];
    }
  }

  /** The number whose digits are those of n followed by s. */
  function Shifted(s: string, n: nat): nat
    requires forall i :: 0 <= i < |s| ==> Digit(s[i]).Some?
  {
    if s == [] then n else Shifted(s[1..], 10 * n + Digit(s[0]).value)
  }

  function DigitPrefix(s: string): nat {
    if s == [] || Digit(s[0]).None? then 0 else 1 + DigitPrefix(s[1..])
  }

  lemma {:induction false} DigitPrefixExact(s: string)
    ensures DigitPrefix(s) <= |s|
    ensures forall i :: 0 <= i < DigitPrefix(s) ==> Digit(s[i]).Some?
    ensures DigitPrefix(s) < |s| ==> Digit(s[DigitPrefix(s)]).None?
  {
    if s != [] && Digit(s[0]).Some? {
      DigitPrefixExact(s[1..]);
    }
  }

  /** The digits a text starts with are its number; without one there is none. */
  lemma DigitsExactly(s: string)
    ensures var n := DigitPrefix(s);
      && n <= |s| && (forall i :: 0 <= i < n ==> Digit(s[i]).Some?)
      && ReadDigits(s, None) == (if n == 0 then None else Some(Shifted(s[..n], 0)))
      && (n == |s| <==> forall i :: 0 <= i < |s| ==> Digit(s[i]).Some?)
  {
    var n := DigitPrefix(s);
    DigitPrefixExact(s);
    assert s == s[..n] + s[n..];
    ReadDigitsStops(s[..n], s[n..], None);
    if n > 0 {
      DigitsRead(s[..n], None);
    }
  }

  predicate IsDigit(c: char) {
    0x30 <= c as int <= 0x39
  }

  lemma DigitIs(c: char)
    ensures Digit(c) == if IsDigit(c) then Some(c as int - 0x30) else None
  {
  }

  lemma BlankIs(c: char)
    ensures Blank(c) <==> JsText.IsSpaceCode(c as int)
  {
    if c as int < 0x1_0000 {
      JsText.SpaceCodes(c as int);
    }
  }

  /** How much white space, and how many digits, a text begins with. */
  function SpaceRun(s: string): (n: nat)
    ensures n <= |s|
  {
    if s == "" || !JsText.IsSpaceCode(s[0] as int) then 0 else 1 + SpaceRun(s[1..])
  }

  function DigitRun(s: string): (n: nat)
    ensures n <= |s|
  {
    if s == "" || !IsDigit(s[0]) then 0 else 1 + DigitRun(s[1..])
  }

  lemma {:induction false} RunsAre(s: string)
    ensures Blanks(s) == SpaceRun(s) && DigitPrefix(s) == DigitRun(s)
  {
    if s != "" {
      BlankIs(s[0]);
      DigitIs(s[0]);
      RunsAre(s[1..]);
    }
  }

  /** The number these decimal digits write. */
  function Decimal(digits: string): int {
    if digits == "" then 0 else 10 * Decimal(digits[..|digits| - 1]) + (digits[|digits| - 1] as int - 0x30)
  }

  lemma {:induction false} ShiftedSnoc(s: string, c: char, n: nat)
    requires forall i :: 0 <= i < |s| ==> Digit(s[i]).Some?
    requires Digit(c).Some?
    ensures Shifted(s + [c], n) == 10 * Shifted(s, n) + Digit(c).value
    decreases |s|
  {
    if s == "" {
      assert [c][1..] == "" && "" + [c] == [c];
    } else {
      assert (s + [c])[1..] == s[1..] + [c];
      ShiftedSnoc(s[1..], c, 10 * n + Digit(s[0]).value);
    }
  }

  lemma {:induction false} ShiftedIsDecimal(s: string)
    requires forall i :: 0 <= i < |s| ==> Digit(s[i]).Some?
    ensures Shifted(s, 0) == Decimal(s)
    decreases |s|
  {
    if s != "" {
      var init, c := s[..|s| - 1], s[|s| - 1];
      ShiftedIsDecimal(init);
      ShiftedSnoc(init, c, 0);
      DigitIs(c);
      assert init + [c] == s;
    }
  }

  lemma DigitsValue(s: string)
    ensures ReadDigits(s, None) == if DigitRun(s) == 0 then None else Some(Decimal(s[..DigitRun(s)]))
  {
    RunsAre(s);
    DigitsExactly(s);
    ShiftedIsDecimal(s[..DigitRun(s)]);
  }

  /** The text after the white space and one sign. */
  function AfterSign(s: string): string {
    var t := s[SpaceRun(s)..];
    if t != "" && (t[0] == '-' || t[0] == '+') then t[1..] else t
  }

  /**
   What parseInt makes of a text: white space and one sign aside, the number written by the digits it
   then starts with, and nothing without one, whatever comes after them.
   */
  lemma ParseIntReads(s: string)
    ensures var n, digits := SpaceRun(s), AfterSign(s)[..DigitRun(AfterSign(s))];
      ParseInt(s) ==
        if digits == "" then None
        else Some(if s[n] == '-' then -Decimal(digits) else Decimal(digits))
  {
    RunsAre(s);
    TrimmedReads(s[SpaceRun(s)..]);
  }

  lemma TrimmedReads(t: string)
    ensures var u := if t != "" && (t[0] == '-' || t[0] == '+') then t[1..] else t;
      var digits := u[..DigitRun(u)];
      ParseTrimmed(t) ==
        if digits == "" then None
        else Some(if t[0] == '-' then -Decimal(digits) else Decimal(digits))
  {
    var u := if t != "" && (t[0] == '-' || t[0] == '+') then t[1..] else t;
    SignOf(t);
    assert t[|Sign(t)|..] == u;
    DigitsValue(u);
  }

  lemma SignOf(t: string)
    ensures Sign(t) == "-" <==> t != "" && t[0] == '-'
  {
    if t != "" {
      assert t[..1] == [t[0]];
    }
  }

  /** The default daily token limit, written 1_000_000, is one token: the underscore ends the number. */
  lemma DefaultTokenLimit()
    ensures ParseInt("1_000_000") == Some(1)
  {
    OneDigit('1', '_', "000_000");
    assert ['1'] + (['_'] + "000_000") == "1_000_000";
  }

  /** A digit, and then something else. */
  lemma OneDigit(c: char, next: char, rest: string)
    requires IsDigit(c) && !IsDigit(next)
    ensures ParseInt([c] + ([next] + rest)) == Some(c as int - 0x30)
  {
    var text := [c] + ([next] + rest);
    ParseIntReads(text);
    assert SpaceRun(text) == 0 && text[0..] == text && AfterSign(text) == text;
    assert text[1..] == [next] + rest && DigitRun(text) == 1;
    assert text[..1] == [c] && [c][..0] == "";
  }

  // ---- What the operations compute ----

  function NewUsage(now: int): Usage {
    Usage(0.0, 0.0, 0, now, now)
  }

  /** getState on an existing entry: restart what has run out. */
  function Refreshed(u: Usage, now: int): Usage {
    var d := if now - u.dayStart >= DAY_MS then u.(tokensUsed := 0.0, costUsed := 0.0, dayStart := now) else u;
    if now - d.windowStart >= MINUTE_MS then d.(requestCount := 0, windowStart := now) else d
  }

  function Current(states: map<string, Usage>, namespace: string, now: int): Usage {
    if namespace in states then Refreshed(states[namespace], now) else NewUsage(now)
  }

  function Decide(alloc: Allocation, u: Usage, tokens: real, cost: real): Outcome {
    if u.requestCount >= alloc.maxRequestsPerMinute then RpmExceeded
    else if u.tokensUsed + tokens > alloc.maxTokensPerDay then TokensExceeded
    else if u.costUsed + cost > alloc.maxCostPerDay then CostExceeded
    else Allowed
  }

  function Consumed(u: Usage, tokens: real, cost: real): Usage {
    u.(requestCount := u.requestCount + 1, tokensUsed := u.tokensUsed + tokens, costUsed := u.costUsed + cost)
  }

  function Exhausted(alloc: Allocation, u: Usage): bool {
    u.tokensUsed >= alloc.maxTokensPerDay || u.costUsed >= alloc.maxCostPerDay
  }

  // ---- The tracker itself ----

  class TokenBudget {
    const defaultAllocation: Allocation
    var allocations: map<string, Allocation>
    var states: map<string, Usage>

    constructor (defaults: Allocation)
      ensures defaultAllocation == defaults && allocations == map[] && states == map[]
    {
      defaultAllocation, allocations, states := defaults, map[], map[];
    }

    function AllocationOf(namespace: string): Allocation
      reads this`allocations
    {
      if namespace in allocations then allocations[namespace] else defaultAllocation
    }

    /** Each limit not given keeps its present value. */
    method SetAllocation(namespace: string, tokens: Option<real>, cost: Option<real>, rpm: Option<int>)
      modifies this`allocations
      ensures allocations.Keys == old(allocations).Keys + {namespace}
      ensures forall n :: n in old(allocations) && n != namespace ==> allocations[n] == old(allocations)[n]
      ensures var before := if namespace in old(allocations) then old(allocations)[namespace] else defaultAllocation;
        var now := allocations[namespace];
        && now.maxTokensPerDay == (if tokens.Some? then tokens.value else before.maxTokensPerDay)
        && now.maxCostPerDay == (if cost.Some? then cost.value else before.maxCostPerDay)
        && now.maxRequestsPerMinute == if rpm.Some? then rpm.value else before.maxRequestsPerMinute
    {
      var alloc := AllocationOf(namespace);
      if tokens.Some? {
        alloc := alloc.(maxTokensPerDay := tokens.value);
      }
      if cost.Some? {
        alloc := alloc.(maxCostPerDay := cost.value);
      }
      if rpm.Some? {
        alloc := alloc.(maxRequestsPerMinute := rpm.value);
      }
      allocations := allocations[namespace := alloc];
    }

    method GetState(namespace: string, now: int) returns (u: Usage)
      modifies this`states
      ensures u == Current(old(states), namespace, now) && states == old(states)[namespace := u]
      ensures if namespace !in old(states) then u == Usage(0.0, 0.0, 0, now, now)
        else
          var was := old(states)[namespace];
          && (if now - was.dayStart < 86_400_000
              then u.tokensUsed == was.tokensUsed && u.costUsed == was.costUsed && u.dayStart == was.dayStart
              else u.tokensUsed == 0.0 && u.costUsed == 0.0 && u.dayStart == now)
          && (if now - was.windowStart < 60_000
              then u.requestCount == was.requestCount && u.windowStart == was.windowStart
              else u.requestCount == 0 && u.windowStart == now)
    {
      if namespace !in states {
        states := states[namespace := NewUsage(now)];
      }
      u := states[namespace];
      if now - u.dayStart >= DAY_MS {
        u := u.(tokensUsed := 0.0, costUsed := 0.0, dayStart := now);
      }
      if now - u.windowStart >= MINUTE_MS {
        u := u.(requestCount := 0, windowStart := now);
      }
      states := states[namespace := u];
    }

    method TryConsume(namespace: string, tokens: real, costCents: real, now: int) returns (outcome: Outcome)
      modifies this`states
      ensures outcome == Decide(
        if namespace in allocations then allocations[namespace] else defaultAllocation,
        Current(old(states), namespace, now), tokens, costCents)
      ensures states == old(states)[namespace :=
        var u := Current(old(states), namespace, now); if outcome == Allowed then Consumed(u, tokens, costCents) else u]
    {
      var allocation := AllocationOf(namespace);
      var u := GetState(namespace, now);
      if u.requestCount >= allocation.maxRequestsPerMinute {
        return RpmExceeded;
      }
      if u.tokensUsed + tokens > allocation.maxTokensPerDay {
        return TokensExceeded;
      }
      if u.costUsed + costCents > allocation.maxCostPerDay {
        return CostExceeded;
      }
      u := u.(requestCount := u.requestCount + 1);
      u := u.(tokensUsed := u.tokensUsed + tokens);
      u := u.(costUsed := u.costUsed + costCents);
      states := states[namespace := u];
      outcome := Allowed;
    }

    method IsExhausted(namespace: string, now: int) returns (exhausted: bool)
      modifies this`states
      ensures exhausted == Exhausted(
        if namespace in allocations then allocations[namespace] else defaultAllocation,
        Current(old(states), namespace, now))
      ensures states == old(states)[namespace := Current(old(states), namespace, now)]
    {
      var u := GetState(namespace, now);
      var allocation := AllocationOf(namespace);
      exhausted := u.tokensUsed >= allocation.maxTokensPerDay || u.costUsed >= allocation.maxCostPerDay;
    }
  }

  // ---- Runs ----

  /** Use is a tryConsume; Look is any other call that reads the counters. */
  datatype Event = Use(namespace: string, tokens: real, cost: real, now: int) | Look(namespace: string, now: int)

  function Apply(alloc: Allocation, states: map<string, Usage>, e: Event): map<string, Usage> {
    var u := Current(states, e.namespace, e.now);
    states[e.namespace :=
      if e.Use? && Decide(alloc, u, e.tokens, e.cost) == Allowed then Consumed(u, e.tokens, e.cost) else u]
  }

  /** A granted request, with the starts of the windows it was counted in. */
  datatype Grant = Grant(at: int, tokens: real, cost: real, dayStart: int, windowStart: int)

  function GrantOf(alloc: Allocation, states: map<string, Usage>, e: Event, namespace: string): seq<Grant> {
    var u := Current(states, e.namespace, e.now);
    if e.namespace == namespace && e.Use? && Decide(alloc, u, e.tokens, e.cost) == Allowed
    then [Grant(e.now, e.tokens, e.cost, u.dayStart, u.windowStart)]
    else []
  }

  function Grants(alloc: Allocation, states: map<string, Usage>, es: seq<Event>, namespace: string): seq<Grant>
    decreases |es|
  {
    if es == [] then []
    else GrantOf(alloc, states, es[0], namespace) + Grants(alloc, Apply(alloc, states, es[0]), es[1..], namespace)
  }

  /** Clock readings never go back; requests ask for non-negative amounts. */
  predicate RunOk(clock: int, es: seq<Event>)
    decreases |es|
  {
    es == [] ||
    (clock <= es[0].now && (es[0].Use? ==> es[0].tokens >= 0.0 && es[0].cost >= 0.0) && RunOk(es[0].now, es[1..]))
  }

  // ---- The three budgets, seen alike ----

  datatype Kind = Tokens | Cost | Requests

  function Amount(kind: Kind, g: Grant): real {
    match kind case Tokens => g.tokens case Cost => g.cost case Requests => 1.0
  }

  function Start(kind: Kind, g: Grant): int {
    if kind == Requests then g.windowStart else g.dayStart
  }

  function Period(kind: Kind): int {
    if kind == Requests then MINUTE_MS else DAY_MS
  }

  function Max0(x: real): real {
    if x > 0.0 then x else 0.0
  }

  function Limit(kind: Kind, alloc: Allocation): real {
    match kind
    case Tokens => Max0(alloc.maxTokensPerDay)
    case Cost => Max0(alloc.maxCostPerDay)
    case Requests => Max0(alloc.maxRequestsPerMinute as real)
  }

  function UsedOf(kind: Kind, u: Usage): real {
    match kind case Tokens => u.tokensUsed case Cost => u.costUsed case Requests => u.requestCount as real
  }

  function StartOf(kind: Kind, u: Usage): int {
    if kind == Requests then u.windowStart else u.dayStart
  }

  /** What was granted in the window that started at start. */
  function SumStarted(kind: Kind, gs: seq<Grant>, start: int): real {
    if gs == [] then 0.0
    else
      var g := gs[|gs| - 1];
      SumStarted(kind, gs[..|gs| - 1], start) + if Start(kind, g) == start then Amount(kind, g) else 0.0
  }

  /** What was granted in [from, from + length). */
  function SumDuring(kind: Kind, gs: seq<Grant>, from: int, length: int): real {
    if gs == [] then 0.0
    else
      var g := gs[|gs| - 1];
      SumDuring(kind, gs[..|gs| - 1], from, length) + if from <= g.at < from + length then Amount(kind, g) else 0.0
  }

  // ---- The invariant ----

  /** Grants lie inside the window they were counted in, and distinct windows do not overlap. */
  predicate Windowed(kind: Kind, gs: seq<Grant>) {
    && (forall i :: 0 <= i < |gs| ==>
      && Start(kind, gs[i]) <= gs[i].at < Start(kind, gs[i]) + Period(kind) && Amount(kind, gs[i]) >= 0.0)
    && (forall i, j :: 0 <= i < j < |gs| ==>
      Start(kind, gs[i]) == Start(kind, gs[j]) || Start(kind, gs[i]) + Period(kind) <= Start(kind, gs[j]))
  }

  ghost predicate WithinLimit(kind: Kind, alloc: Allocation, gs: seq<Grant>) {
    forall start :: SumStarted(kind, gs, start) <= Limit(kind, alloc)
  }

  /** The current window is no earlier than any logged one, and its counter is exact. */
  predicate Counts(kind: Kind, u: Usage, gs: seq<Grant>, clock: int) {
    && StartOf(kind, u) <= clock
    && UsedOf(kind, u) == SumStarted(kind, gs, StartOf(kind, u))
    && (forall i :: 0 <= i < |gs| ==>
      Start(kind, gs[i]) == StartOf(kind, u) || Start(kind, gs[i]) + Period(kind) <= StartOf(kind, u))
  }

  ghost predicate Inv(kind: Kind, alloc: Allocation, states: map<string, Usage>, namespace: string, gs: seq<Grant>,
                      clock: int) {
    && Windowed(kind, gs) && WithinLimit(kind, alloc, gs)
    && (if namespace in states then Counts(kind, states[namespace], gs, clock) else gs == [])
  }

  lemma {:induction false} NothingStarted(kind: Kind, gs: seq<Grant>, start: int)
    requires forall i :: 0 <= i < |gs| ==> Start(kind, gs[i]) != start
    ensures SumStarted(kind, gs, start) == 0.0
  {
    if gs != [] {
      NothingStarted(kind, gs[..|gs| - 1], start);
    }
  }

  lemma CountsRefreshed(kind: Kind, u: Usage, gs: seq<Grant>, clock: int, now: int)
    requires Windowed(kind, gs) && Counts(kind, u, gs, clock) && clock <= now
    ensures Counts(kind, Refreshed(u, now), gs, now)
    ensures StartOf(kind, Refreshed(u, now)) <= now < StartOf(kind, Refreshed(u, now)) + Period(kind)
  {
    if now - StartOf(kind, u) >= Period(kind) {
      NothingStarted(kind, gs, now);
    }
  }

  lemma WindowedGranted(kind: Kind, gs: seq<Grant>, g: Grant, u: Usage, clock: int)
    requires Windowed(kind, gs) && Counts(kind, u, gs, clock)
    requires Start(kind, g) == StartOf(kind, u) <= g.at < StartOf(kind, u) + Period(kind) && Amount(kind, g) >= 0.0
    ensures Windowed(kind, gs + [g])
  {
  }

  lemma SumGranted(kind: Kind, gs: seq<Grant>, g: Grant, start: int)
    ensures SumStarted(kind, gs + [g], start)
         == SumStarted(kind, gs, start) + if Start(kind, g) == start then Amount(kind, g) else 0.0
  {
    assert (gs + [g])[..|gs|] == gs;
  }

  lemma WithinGranted(kind: Kind, alloc: Allocation, gs: seq<Grant>, g: Grant)
    requires WithinLimit(kind, alloc, gs)
    requires SumStarted(kind, gs, Start(kind, g)) + Amount(kind, g) <= Limit(kind, alloc)
    ensures WithinLimit(kind, alloc, gs + [g])
  {
    forall start
      ensures SumStarted(kind, gs + [g], start) <= Limit(kind, alloc)
    {
      SumGranted(kind, gs, g, start);
      assert SumStarted(kind, gs, start) <= Limit(kind, alloc);
    }
  }

  lemma AllowedFits(kind: Kind, alloc: Allocation, u: Usage, tokens: real, cost: real, g: Grant)
    requires Decide(alloc, u, tokens, cost) == Allowed && g.tokens == tokens && g.cost == cost
    ensures UsedOf(kind, u) + Amount(kind, g) <= Limit(kind, alloc)
    ensures UsedOf(kind, Consumed(u, tokens, cost)) == UsedOf(kind, u) + Amount(kind, g)
    ensures StartOf(kind, Consumed(u, tokens, cost)) == StartOf(kind, u)
  {
  }

  lemma Granted(kind: Kind, alloc: Allocation, u: Usage, gs: seq<Grant>, e: Event)
    requires Windowed(kind, gs) && WithinLimit(kind, alloc, gs) && Counts(kind, u, gs, e.now)
    requires StartOf(kind, u) <= e.now < StartOf(kind, u) + Period(kind)
    requires e.Use? && e.tokens >= 0.0 && e.cost >= 0.0 && Decide(alloc, u, e.tokens, e.cost) == Allowed
    ensures var gs' := gs + [Grant(e.now, e.tokens, e.cost, u.dayStart, u.windowStart)];
      && Windowed(kind, gs') && WithinLimit(kind, alloc, gs')
      && Counts(kind, Consumed(u, e.tokens, e.cost), gs', e.now)
  {
    var g := Grant(e.now, e.tokens, e.cost, u.dayStart, u.windowStart);
    AllowedFits(kind, alloc, u, e.tokens, e.cost, g);
    WindowedGranted(kind, gs, g, u, e.now);
    WithinGranted(kind, alloc, gs, g);
    CountsGranted(kind, u, Consumed(u, e.tokens, e.cost), gs, g, e.now);
  }

  lemma CountsGranted(kind: Kind, u: Usage, v: Usage, gs: seq<Grant>, g: Grant, clock: int)
    requires Counts(kind, u, gs, clock) && StartOf(kind, v) == StartOf(kind, u) == Start(kind, g)
    requires UsedOf(kind, v) == UsedOf(kind, u) + Amount(kind, g)
    ensures Counts(kind, v, gs + [g], clock)
  {
    SumGranted(kind, gs, g, StartOf(kind, u));
  }

  lemma InvStep(kind: Kind, alloc: Allocation, states: map<string, Usage>, namespace: string, gs: seq<Grant>,
                clock: int, e: Event)
    requires Inv(kind, alloc, states, namespace, gs, clock)
    requires clock <= e.now && (e.Use? ==> e.tokens >= 0.0 && e.cost >= 0.0)
    ensures Inv(kind, alloc, Apply(alloc, states, e), namespace, gs + GrantOf(alloc, states, e, namespace), e.now)
  {
    assert gs + [] == gs;
    if e.namespace == namespace {
      var u := Current(states, namespace, e.now);
      if namespace in states {
        CountsRefreshed(kind, states[namespace], gs, clock, e.now);
      }
      if e.Use? && Decide(alloc, u, e.tokens, e.cost) == Allowed {
        Granted(kind, alloc, u, gs, e);
      }
    }
  }

  lemma GrantsStep(alloc: Allocation, states: map<string, Usage>, namespace: string, gs: seq<Grant>, es: seq<Event>)
    requires es != []
    ensures gs + Grants(alloc, states, es, namespace)
         == (gs + GrantOf(alloc, states, es[0], namespace))
            + Grants(alloc, Apply(alloc, states, es[0]), es[1..], namespace)
  {
    var g := GrantOf(alloc, states, es[0], namespace);
    var rest := Grants(alloc, Apply(alloc, states, es[0]), es[1..], namespace);
    assert Grants(alloc, states, es, namespace) == g + rest;
    assert gs + (g + rest) == (gs + g) + rest;
  }

  lemma {:induction false} InvRun(kind: Kind, alloc: Allocation, states: map<string, Usage>, namespace: string,
                                  gs: seq<Grant>,
                                  clock: int, es: seq<Event>, all: seq<Grant>)
    requires Inv(kind, alloc, states, namespace, gs, clock) && RunOk(clock, es)
    requires all == gs + Grants(alloc, states, es, namespace)
    ensures Windowed(kind, all) && WithinLimit(kind, alloc, all)
    decreases |es|
  {
    if es == [] {
      assert gs + [] == gs;
    } else {
      var g := GrantOf(alloc, states, es[0], namespace);
      InvStep(kind, alloc, states, namespace, gs, clock, es[0]);
      GrantsStep(alloc, states, namespace, gs, es);
      InvRun(kind, alloc, Apply(alloc, states, es[0]), namespace, gs + g, es[0].now, es[1..], all);
    }
  }

  // ---- Main results ----

  /**
   Between two resets, what is granted to a namespace never exceeds its limit: tokens and cost
   per daily window, requests per minute window, whatever other namespaces do.
   */
  lemma WindowBound(kind: Kind, alloc: Allocation, clock: int, es: seq<Event>, namespace: string, start: int)
    requires RunOk(clock, es)
    ensures SumStarted(kind, Grants(alloc, map[], es, namespace), start) <= Limit(kind, alloc)
  {
    var gs := Grants(alloc, map[], es, namespace);
    assert [] + gs == gs;
    InvRun(kind, alloc, map[], namespace, [], clock, es, gs);
  }

  function Final(alloc: Allocation, states: map<string, Usage>, es: seq<Event>): map<string, Usage>
    decreases |es|
  {
    if es == [] then states else Final(alloc, Apply(alloc, states, es[0]), es[1..])
  }

  function LastClock(clock: int, es: seq<Event>): int {
    if es == [] then clock else es[|es| - 1].now
  }

  lemma {:induction false} InvFinal(kind: Kind, alloc: Allocation, states: map<string, Usage>, namespace: string,
                                    gs: seq<Grant>, clock: int, es: seq<Event>, all: seq<Grant>)
    requires Inv(kind, alloc, states, namespace, gs, clock) && RunOk(clock, es)
    requires all == gs + Grants(alloc, states, es, namespace)
    ensures Inv(kind, alloc, Final(alloc, states, es), namespace, all, LastClock(clock, es))
    decreases |es|
  {
    if es == [] {
      assert gs + [] == gs;
    } else {
      var g, next := GrantOf(alloc, states, es[0], namespace), Apply(alloc, states, es[0]);
      InvStep(kind, alloc, states, namespace, gs, clock, es[0]);
      GrantsStep(alloc, states, namespace, gs, es);
      InvFinal(kind, alloc, next, namespace, gs + g, es[0].now, es[1..], all);
      FinalStep(alloc, states, clock, es);
    }
  }

  lemma FinalStep(alloc: Allocation, states: map<string, Usage>, clock: int, es: seq<Event>)
    requires es != []
    ensures Final(alloc, states, es) == Final(alloc, Apply(alloc, states, es[0]), es[1..])
    ensures LastClock(clock, es) == LastClock(es[0].now, es[1..])
  {
  }

  /** The counters a request meets are what was granted since its windows began, less than a period ago. */
  lemma CountersExactly(kind: Kind, alloc: Allocation, clock: int, es: seq<Event>, namespace: string, now: int)
    requires RunOk(clock, es) && LastClock(clock, es) <= now
    ensures var u := Current(Final(alloc, map[], es), namespace, now);
      && StartOf(kind, u) <= now < StartOf(kind, u) + Period(kind)
      && UsedOf(kind, u) == SumStarted(kind, Grants(alloc, map[], es, namespace), StartOf(kind, u))
  {
    var gs, states := Grants(alloc, map[], es, namespace), Final(alloc, map[], es);
    assert [] + gs == gs;
    InvFinal(kind, alloc, map[], namespace, [], clock, es, gs);
    if namespace in states {
      CountsRefreshed(kind, states[namespace], gs, LastClock(clock, es), now);
    }
  }

  /**
   How a request is answered after any run, exactly: refused for the requests of its minute, then for
   the tokens of its day, then for their cost, whichever limit it is the first to meet or to exceed
   together with what has been granted since those windows began; and granted otherwise.
   */
  lemma AnsweredExactly(alloc: Allocation, clock: int, es: seq<Event>, namespace: string, tokens: real, cost: real,
                        now: int)
    requires RunOk(clock, es) && LastClock(clock, es) <= now
    ensures var gs, u := Grants(alloc, map[], es, namespace), Current(Final(alloc, map[], es), namespace, now);
      var rpmLeft := SumStarted(Requests, gs, u.windowStart) < alloc.maxRequestsPerMinute as real;
      var tokensFit := SumStarted(Tokens, gs, u.dayStart) + tokens <= alloc.maxTokensPerDay;
      var costFits := SumStarted(Cost, gs, u.dayStart) + cost <= alloc.maxCostPerDay;
      && now - 60_000 < u.windowStart <= now && now - 86_400_000 < u.dayStart <= now
      && Decide(alloc, u, tokens, cost) ==
           if !rpmLeft then RpmExceeded
           else if !tokensFit then TokensExceeded
           else if !costFits then CostExceeded
           else Allowed
  {
    CountersExactly(Requests, alloc, clock, es, namespace, now);
    CountersExactly(Tokens, alloc, clock, es, namespace, now);
    CountersExactly(Cost, alloc, clock, es, namespace, now);
  }

  /** Grants of an interval that all belong to window a or window b add up to at most both windows' sums. */
  lemma {:induction false} TwoWindows(kind: Kind, gs: seq<Grant>, from: int, length: int, a: int, b: int)
    requires forall i :: 0 <= i < |gs| ==> Amount(kind, gs[i]) >= 0.0
    requires forall i :: 0 <= i < |gs| && from <= gs[i].at < from + length ==>
      Start(kind, gs[i]) == a || Start(kind, gs[i]) == b
    ensures SumDuring(kind, gs, from, length) <= SumStarted(kind, gs, a) + SumStarted(kind, gs, b)
    ensures a == b ==> SumDuring(kind, gs, from, length) <= SumStarted(kind, gs, a)
  {
    if gs != [] {
      TwoWindows(kind, gs[..|gs| - 1], from, length, a, b);
    }
  }

  /**
   No interval as long as a window sees more than twice the limit, although windows restart
   whenever a call happens to come: at most two of them can meet it.
   */
  lemma IntervalBound(kind: Kind, alloc: Allocation, clock: int, es: seq<Event>, namespace: string, from: int)
    requires RunOk(clock, es)
    ensures SumDuring(kind, Grants(alloc, map[], es, namespace), from, Period(kind)) <= 2.0 * Limit(kind, alloc)
  {
    var gs := Grants(alloc, map[], es, namespace);
    assert [] + gs == gs;
    InvRun(kind, alloc, map[], namespace, [], clock, es, gs);
    var a, b := FirstAndLast(kind, gs, from);
    AmountsPositive(kind, gs);
    TwoWindows(kind, gs, from, Period(kind), a, b);
    WindowBound(kind, alloc, clock, es, namespace, a);
    WindowBound(kind, alloc, clock, es, namespace, b);
  }

  lemma AmountsPositive(kind: Kind, gs: seq<Grant>)
    requires Windowed(kind, gs)
    ensures forall i :: 0 <= i < |gs| ==> Amount(kind, gs[i]) >= 0.0
  {
  }

  /** The windows of the first and the last grant in the interval are the only ones. */
  lemma FirstAndLast(kind: Kind, gs: seq<Grant>, from: int) returns (a: int, b: int)
    requires Windowed(kind, gs)
    ensures forall i :: 0 <= i < |gs| && from <= gs[i].at < from + Period(kind) ==>
      Start(kind, gs[i]) == a || Start(kind, gs[i]) == b
  {
    a, b := 0, 0;
    var n, first := 0, true;
    while n < |gs|
      invariant 0 <= n <= |gs|
      invariant first ==> forall i :: 0 <= i < n ==> !(from <= gs[i].at < from + Period(kind))
      invariant !first ==> from - Period(kind) < a <= b < from + Period(kind)
      invariant !first ==> exists i :: 0 <= i < n && Start(kind, gs[i]) == a
      invariant !first ==> exists i :: 0 <= i < n && Start(kind, gs[i]) == b
      invariant forall i :: 0 <= i < n && from <= gs[i].at < from + Period(kind) ==>
        Start(kind, gs[i]) == a || Start(kind, gs[i]) == b
    {
      if from <= gs[n].at < from + Period(kind) {
        if first {
          a, b, first := Start(kind, gs[n]), Start(kind, gs[n]), false;
        } else if Start(kind, gs[n]) != b {
          b := Start(kind, gs[n]);
        }
      }
      n := n + 1;
    }
  }

  /**
   isExhausted means what it says: with requests left in the minute, a namespace is exhausted
   exactly when no request for a positive number of tokens at a positive cost would be granted.
   */
  lemma ExhaustedExactly(alloc: Allocation, u: Usage)
    requires u.requestCount < alloc.maxRequestsPerMinute
    ensures Exhausted(alloc, u) <==>
      forall tokens, cost :: tokens > 0.0 && cost > 0.0 ==> Decide(alloc, u, tokens, cost) != Allowed
  {
    if !Exhausted(alloc, u) {
      assert Decide(alloc, u, alloc.maxTokensPerDay - u.tokensUsed, alloc.maxCostPerDay - u.costUsed) == Allowed;
    }
  }
}
