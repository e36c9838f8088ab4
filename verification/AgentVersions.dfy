/**
 Agent rows with version snapshots. Each SQL statement is one atomic step; update and rollback
 are several statements, so concurrent calls interleave between them. Rows are never removed:
 a row's position in the agents table is its id.
 */
module AgentVersions {
  import opened Options

  type Fields = map<string, string>
  datatype Key = Key(namespace: string, name: string)
  datatype Content = Content(spec: Fields, labels: Fields, annotations: Fields)
  datatype Agent = Agent(key: Key, version: nat, content: Content, deleted: bool)
  datatype Snapshot = Snapshot(agent: nat, key: Key, version: nat, content: Content)
  datatype Params = Params(spec: Option<Fields>, labels: Option<Fields>, annotations: Option<Fields>)

  // ---- Statements ----

  predicate Live(a: Agent, key: Key) {
    a.key == key && !a.deleted
  }

  /** SELECT ... WHERE namespace = $1 AND name = $2 AND deleted_at IS NULL */
  function FindLive(agents: seq<Agent>, key: Key): (i: int)
    ensures -1 <= i < |agents|
    ensures i >= 0 ==> Live(agents[i], key)
    ensures i < 0 ==> forall j :: 0 <= j < |agents| ==> !Live(agents[j], key)
  {
    if agents == [] then -1
    else if Live(agents[0], key) then 0
    else
      var r := FindLive(agents[1..], key);
      if r < 0 then -1 else r + 1
  }

  /** column || $n::jsonb, for the columns given */
  function Merge(c: Content, p: Params): Content {
    Content(
      if p.spec.Some? then c.spec + p.spec.value else c.spec,
      if p.labels.Some? then c.labels + p.labels.value else c.labels,
      if p.annotations.Some? then c.annotations + p.annotations.value else c.annotations)
  }

  predicate Empty(p: Params) {
    p.spec.None? && p.labels.None? && p.annotations.None?
  }

  function MergeRow(a: Agent, key: Key, p: Params): Agent {
    if Live(a, key) then a.(version := a.version + 1, content := Merge(a.content, p)) else a
  }

  function RestoreRow(a: Agent, key: Key, c: Content): Agent {
    if Live(a, key) then a.(version := a.version + 1, content := c) else a
  }

  function DeleteRow(a: Agent, key: Key): Agent {
    if Live(a, key) then a.(deleted := true) else a
  }

  /** UPDATE agents SET ... WHERE the row is live under that name */
  function MergeLive(agents: seq<Agent>, key: Key, p: Params): seq<Agent> {
    seq(|agents|, i requires 0 <= i < |agents| => MergeRow(agents[i], key, p))
  }

  function RestoreLive(agents: seq<Agent>, key: Key, c: Content): seq<Agent> {
    seq(|agents|, i requires 0 <= i < |agents| => RestoreRow(agents[i], key, c))
  }

  function DeleteLive(agents: seq<Agent>, key: Key): seq<Agent> {
    seq(|agents|, i requires 0 <= i < |agents| => DeleteRow(agents[i], key))
  }

  /** The snapshot row of the agent as it is now. */
  function CopyOf(agents: seq<Agent>, i: nat): Snapshot
    requires i < |agents|
  {
    Snapshot(i, agents[i].key, agents[i].version, agents[i].content)
  }

  predicate Matches(r: Snapshot, key: Key, version: nat) {
    r.key == key && r.version == version
  }

  // ---- What the UPDATE statements mean, row by row ----

  /** A live row of the name is marked deleted and otherwise kept; every other row stays as it is. */
  predicate Deletes(before: seq<Agent>, after: seq<Agent>, key: Key) {
    && |after| == |before|
    && forall i :: 0 <= i < |before| ==>
      if before[i].key == key && !before[i].deleted
      then after[i] == Agent(key, before[i].version, before[i].content, true)
      else after[i] == before[i]
  }

  /** It gets the next version and, column by column, what is given laid over what it has. */
  predicate Merges(before: seq<Agent>, after: seq<Agent>, key: Key, p: Params) {
    && |after| == |before|
    && forall i :: 0 <= i < |before| ==>
      if before[i].key == key && !before[i].deleted
      then
        && after[i].key == key && !after[i].deleted && after[i].version == before[i].version + 1
        && Overlaid(before[i].content.spec, p.spec, after[i].content.spec)
        && Overlaid(before[i].content.labels, p.labels, after[i].content.labels)
        && Overlaid(before[i].content.annotations, p.annotations, after[i].content.annotations)
      else after[i] == before[i]
  }

  /** Top-level keys given have the value given, the others keep theirs, and there are no more. */
  predicate Overlaid(had: Fields, given: Option<Fields>, has: Fields) {
    if given.None? then has == had
    else
      && has.Keys == had.Keys + given.value.Keys
      && forall k :: k in has ==> has[k] == if k in given.value then given.value[k] else had[k]
  }

  /** It gets the next version and the whole content. */
  predicate Restores(before: seq<Agent>, after: seq<Agent>, key: Key, content: Content) {
    && |after| == |before|
    && forall i :: 0 <= i < |before| ==>
      if before[i].key == key && !before[i].deleted
      then after[i] == Agent(key, before[i].version + 1, content, false)
      else after[i] == before[i]
  }

  /** The row of the agent as it is, if there is a live one of the name, is the one snapshot more. */
  predicate Saves(agents: seq<Agent>, before: seq<Snapshot>, after: seq<Snapshot>, key: Key, ok: bool) {
    || (after == before && (!ok || forall i :: 0 <= i < |agents| ==> agents[i].key != key || agents[i].deleted))
    || (ok && exists i ::
          && 0 <= i < |agents| && agents[i].key == key && !agents[i].deleted
          && after == before + [Snapshot(i, key, agents[i].version, agents[i].content)])
  }

  /** One of the rows that were live under the name, as it is now; or nothing, when none was. */
  predicate Answers(before: seq<Agent>, after: seq<Agent>, key: Key, row: Option<Agent>) {
    && |after| == |before|
    && if row.None? then forall i :: 0 <= i < |before| ==> before[i].key != key || before[i].deleted
       else exists i :: 0 <= i < |before| && before[i].key == key && !before[i].deleted && after[i] == row.value
  }

  lemma DeletesLive(agents: seq<Agent>, key: Key)
    ensures Deletes(agents, DeleteLive(agents, key), key)
  {
  }

  lemma MergesLive(agents: seq<Agent>, key: Key, p: Params)
    ensures Merges(agents, MergeLive(agents, key, p), key, p)
  {
    var after := MergeLive(agents, key, p);
    forall i | 0 <= i < |agents| && agents[i].key == key && !agents[i].deleted
      ensures Overlaid(agents[i].content.spec, p.spec, after[i].content.spec)
      ensures Overlaid(agents[i].content.labels, p.labels, after[i].content.labels)
      ensures Overlaid(agents[i].content.annotations, p.annotations, after[i].content.annotations)
    {
    }
  }

  lemma RestoresLive(agents: seq<Agent>, key: Key, content: Content)
    ensures Restores(agents, RestoreLive(agents, key, content), key, content)
  {
  }

  // ---- The repository, one call at a time ----

  datatype Clause = SetSpec(f: Fields) | SetLabels(f: Fields) | SetAnnotations(f: Fields)

  function ApplyClause(c: Content, set_: Clause): Content {
    match set_
    case SetSpec(f) => c.(spec := c.spec + f)
    case SetLabels(f) => c.(labels := c.labels + f)
    case SetAnnotations(f) => c.(annotations := c.annotations + f)
  }

  function ApplyClauses(c: Content, sets: seq<Clause>): Content {
    if sets == [] then c else ApplyClause(ApplyClauses(c, sets[..|sets| - 1]), sets[|sets| - 1])
  }

  /** An UPDATE with these SET clauses, and the version bump that goes with them. */
  function SetRow(a: Agent, key: Key, sets: seq<Clause>): Agent {
    if Live(a, key) then a.(version := a.version + 1, content := ApplyClauses(a.content, sets)) else a
  }

  function SetLive(agents: seq<Agent>, key: Key, sets: seq<Clause>): seq<Agent> {
    seq(|agents|, i requires 0 <= i < |agents| => SetRow(agents[i], key, sets))
  }

  lemma ClauseAdded(c: Content, sets: seq<Clause>, set_: Clause)
    ensures ApplyClauses(c, sets + [set_]) == ApplyClause(ApplyClauses(c, sets), set_)
  {
    assert (sets + [set_])[..|sets|] == sets;
  }

  function Clauses(p: Params): seq<Clause> {
    (if p.spec.Some? then [SetSpec(p.spec.value)] else [])
    + (if p.labels.Some? then [SetLabels(p.labels.value)] else [])
    + (if p.annotations.Some? then [SetAnnotations(p.annotations.value)] else [])
  }

  /** The SET clauses the parameters give rise to merge them column by column. */
  lemma ClausesMerge(agents: seq<Agent>, key: Key, p: Params)
    ensures SetLive(agents, key, Clauses(p)) == MergeLive(agents, key, p)
    ensures Clauses(p) == [] <==> Empty(p)
  {
    forall i | 0 <= i < |agents|
      ensures ApplyClauses(agents[i].content, Clauses(p)) == Merge(agents[i].content, p)
    {
      ClausesMergeContent(agents[i].content, p);
    }
  }

  lemma ClausesMergeContent(c: Content, p: Params)
    ensures ApplyClauses(c, Clauses(p)) == Merge(c, p)
  {
    var s1 := if p.spec.Some? then [SetSpec(p.spec.value)] else [];
    var s2 := s1 + if p.labels.Some? then [SetLabels(p.labels.value)] else [];
    assert ApplyClauses(c, []) == c;
    assert [] + s1 == s1 && s1 + [] == s1 && s2 + [] == s2;
    if p.spec.Some? {
      ClauseAdded(c, [], SetSpec(p.spec.value));
      assert s1 == [] + [SetSpec(p.spec.value)];
    }
    var c1 := ApplyClauses(c, s1);
    assert c1 == Merge(c, Params(p.spec, None, None));
    if p.labels.Some? {
      ClauseAdded(c, s1, SetLabels(p.labels.value));
    }
    var c2 := ApplyClauses(c, s2);
    assert c2 == Merge(c, Params(p.spec, p.labels, None));
    if p.annotations.Some? {
      ClauseAdded(c, s2, SetAnnotations(p.annotations.value));
    }
  }

  datatype Outcome = Restored(row: Agent) | Missing | Threw

  class AgentRepository {
    var agents: seq<Agent>
    var versions: seq<Snapshot>

    constructor ()
      ensures agents == [] && versions == []
    {
      agents, versions := [], [];
    }

    /** The partial unique index refuses a second live row of the same name. */
    method Create(key: Key, content: Content) returns (ok: bool)
      modifies this
      ensures ok <==> forall i :: 0 <= i < |old(agents)| ==> old(agents)[i].key != key || old(agents)[i].deleted
      ensures agents == if ok then old(agents) + [Agent(key, 1, content, false)] else old(agents)
      ensures versions == old(versions)
    {
      if FindLive(agents, key) >= 0 {
        return false;
      }
      agents := agents + [Agent(key, 1, content, false)];
      ok := true;
    }

    method CreateVersionSnapshot(agent: nat, key: Key, version: nat, content: Content, ok: bool)
      modifies this`versions
      ensures versions == if ok then old(versions) + [Snapshot(agent, key, version, content)] else old(versions)
    {
      if ok {
        versions := versions + [Snapshot(agent, key, version, content)];
      }
    }

    /** Some row of that name and version, whichever the database returns first. */
    method GetVersion(key: Key, version: nat) returns (row: Option<Snapshot>)
      ensures row.Some? ==> row.value in versions && row.value.key == key && row.value.version == version
      ensures row.None? ==> forall r :: r in versions ==> r.key != key || r.version != version
    {
      for i := 0 to |versions|
        invariant forall j :: 0 <= j < i ==> !Matches(versions[j], key, version)
      {
        if Matches(versions[i], key, version) {
          return Some(versions[i]);
        }
      }
      row := None;
    }

    /** snapshotOk is whether the snapshot statement succeeds; its failure is ignored. */
    method Update(key: Key, p: Params, snapshotOk: bool) returns (row: Option<Agent>)
      modifies this
      ensures versions == old(versions) +
        (var i := FindLive(old(agents), key); if i >= 0 && snapshotOk then [CopyOf(old(agents), i)] else [])
      ensures agents == if Empty(p) then old(agents) else MergeLive(old(agents), key, p)
      ensures Saves(old(agents), old(versions), versions, key, snapshotOk)
      ensures if p.spec.None? && p.labels.None? && p.annotations.None? then agents == old(agents)
              else Merges(old(agents), agents, key, p)
      ensures Answers(old(agents), agents, key, row)
    {
      var current := FindLive(agents, key);
      if current >= 0 {
        CreateVersionSnapshot(current, key, agents[current].version, agents[current].content, snapshotOk);
      }
      var sets: seq<Clause> := [];
      if p.spec.Some? {
        sets := sets + [SetSpec(p.spec.value)];
      }
      if p.labels.Some? {
        sets := sets + [SetLabels(p.labels.value)];
      }
      if p.annotations.Some? {
        sets := sets + [SetAnnotations(p.annotations.value)];
      }
      ClausesMerge(agents, key, p);
      MergesLive(agents, key, p);
      assert sets == Clauses(p);
      if sets == [] {
        return if current < 0 then None else Some(agents[current]);
      }
      agents := SetLive(agents, key, sets);
      row := if current < 0 then None else Some(agents[current]);
    }

    method SoftDelete(key: Key) returns (row: Option<Agent>)
      modifies this`agents
      ensures agents == DeleteLive(old(agents), key)
      ensures |agents| == |old(agents)|
      ensures forall i :: 0 <= i < |agents| ==>
        if old(agents)[i].key == key && !old(agents)[i].deleted
        then agents[i] == Agent(key, old(agents)[i].version, old(agents)[i].content, true)
        else agents[i] == old(agents)[i]
      ensures Answers(old(agents), agents, key, row)
    {
      var current := FindLive(agents, key);
      agents := DeleteLive(agents, key);
      row := if current < 0 then None else Some(agents[current]);
    }

    /** Nothing to restore, or nowhere to restore it, is answered with null; a failing snapshot throws. */
    method RollbackToVersion(key: Key, target: nat, snapshotOk: bool) returns (row: Outcome)
      modifies this
      ensures var i := FindLive(old(agents), key);
        if i < 0 || (forall r :: r in old(versions) ==> !Matches(r, key, target))
        then row == Missing && agents == old(agents) && versions == old(versions)
        else if !snapshotOk then row == Threw && agents == old(agents) && versions == old(versions)
        else
          && versions == old(versions) + [CopyOf(old(agents), i)]
          && (exists r :: r in old(versions) && Matches(r, key, target)
                && agents == RestoreLive(old(agents), key, r.content))
          && row == Restored(agents[i])
      ensures row.Missing? <==>
        || (forall i :: 0 <= i < |old(agents)| ==> old(agents)[i].key != key || old(agents)[i].deleted)
        || (forall r :: r in old(versions) ==> r.key != key || r.version != target)
      ensures row.Restored? ==>
        && Answers(old(agents), agents, key, Some(row.row))
        && Saves(old(agents), old(versions), versions, key, true)
        && exists r :: r in old(versions) && r.key == key && r.version == target
             && Restores(old(agents), agents, key, r.content)
    {
      var snapshot := GetVersion(key, target);
      if snapshot.None? {
        return Missing;
      }
      var current := FindLive(agents, key);
      if current < 0 {
        return Missing;
      }
      CreateVersionSnapshot(current, key, agents[current].version, agents[current].content, snapshotOk);
      if !snapshotOk {
        return Threw;
      }
      RestoresLive(agents, key, snapshot.value.content);
      agents := RestoreLive(agents, key, snapshot.value.content);
      row := Restored(agents[current]);
    }
  }

  // ---- Concurrent calls ----

  /** Where a call stands: the statement it is about to issue, with what it has read so far. */
  datatype Phase =
    | UpdateReading(key: Key, params: Params)
    | UpdateSaving(key: Key, params: Params, copy: Snapshot)
    | UpdateWriting(key: Key, params: Params)
    | RollbackLooking(key: Key, target: nat)
    | RollbackReading(key: Key, target: nat, found: Snapshot)
    | RollbackSaving(key: Key, target: nat, found: Snapshot, copy: Snapshot)
    | RollbackWriting(key: Key, target: nat, found: Snapshot)
    | Done

  datatype State = State(agents: seq<Agent>, snapshots: seq<Snapshot>, calls: map<nat, Phase>)

  datatype Event =
    | Create(key: Key, content: Content)
    | SoftDelete(key: Key)
    | BeginUpdate(call: nat, key: Key, params: Params)
    | BeginRollback(call: nat, key: Key, target: nat)
    | Look(call: nat, pick: nat)       // SELECT of the snapshot returned row pick
    | Miss(call: nat)                  // SELECT of the snapshot returned nothing
    | Read(call: nat)                  // SELECT of the live row
    | Save(call: nat, ok: bool)        // INSERT of the snapshot
    | Write(call: nat)                 // UPDATE

  predicate Possible(s: State, e: Event) {
    match e
    case Create(key, _) => FindLive(s.agents, key) < 0
    case SoftDelete(_) => true
    case BeginUpdate(c, _, _) => c !in s.calls
    case BeginRollback(c, _, _) => c !in s.calls
    case Look(c, pick) =>
      c in s.calls && s.calls[c].RollbackLooking? && pick < |s.snapshots|
      && Matches(s.snapshots[pick], s.calls[c].key, s.calls[c].target)
    case Miss(c) =>
      c in s.calls && s.calls[c].RollbackLooking?
      && forall r :: r in s.snapshots ==> !Matches(r, s.calls[c].key, s.calls[c].target)
    case Read(c) => c in s.calls && (s.calls[c].UpdateReading? || s.calls[c].RollbackReading?)
    case Save(c, _) => c in s.calls && (s.calls[c].UpdateSaving? || s.calls[c].RollbackSaving?)
    case Write(c) => c in s.calls && (s.calls[c].UpdateWriting? || s.calls[c].RollbackWriting?)
  }

  function Goto(s: State, c: nat, p: Phase): State {
    s.(calls := s.calls[c := p])
  }

  function ReadStep(s: State, c: nat): State
    requires Possible(s, Read(c))
  {
    var p := s.calls[c];
    var i := FindLive(s.agents, p.key);
    if p.UpdateReading? then
      Goto(s, c, if i >= 0 then UpdateSaving(p.key, p.params, CopyOf(s.agents, i)) else UpdateWriting(p.key, p.params))
    else
      Goto(s, c, if i >= 0 then RollbackSaving(p.key, p.target, p.found, CopyOf(s.agents, i)) else Done)
  }

  function SaveStep(s: State, c: nat, ok: bool): State
    requires Possible(s, Save(c, ok))
  {
    var p := s.calls[c];
    var t := if ok then s.(snapshots := s.snapshots + [p.copy]) else s;
    Goto(t, c,
      if p.UpdateSaving? then UpdateWriting(p.key, p.params)
      else if ok then RollbackWriting(p.key, p.target, p.found)
      else Done)
  }

  function WriteStep(s: State, c: nat): State
    requires Possible(s, Write(c))
  {
    var p := s.calls[c];
    Goto(s.(agents :=
      if p.RollbackWriting? then RestoreLive(s.agents, p.key, p.found.content)
      else if Empty(p.params) then s.agents
      else MergeLive(s.agents, p.key, p.params)), c, Done)
  }

  function Step(s: State, e: Event): State
    requires Possible(s, e)
  {
    match e
    case Create(key, content) => s.(agents := s.agents + [Agent(key, 1, content, false)])
    case SoftDelete(key) => s.(agents := DeleteLive(s.agents, key))
    case BeginUpdate(c, key, p) => Goto(s, c, UpdateReading(key, p))
    case BeginRollback(c, key, target) => Goto(s, c, RollbackLooking(key, target))
    case Look(c, pick) => Goto(s, c, RollbackReading(s.calls[c].key, s.calls[c].target, s.snapshots[pick]))
    case Miss(c) => Goto(s, c, Done)
    case Read(c) => ReadStep(s, c)
    case Save(c, ok) => SaveStep(s, c, ok)
    case Write(c) => WriteStep(s, c)
  }

  // ---- What the statements of the machine change, and what they leave alone ----

  lemma SoftDeleteChanges(s: State, key: Key)
    ensures var t := Step(s, SoftDelete(key));
      Deletes(s.agents, t.agents, key) && t.snapshots == s.snapshots && t.calls == s.calls
  {
    DeletesLive(s.agents, key);
  }

  /** The UPDATE of a call reads nothing but what the call holds. */
  lemma WriteChanges(s: State, c: nat)
    requires Possible(s, Write(c))
    ensures var t, p := Step(s, Write(c)), s.calls[c];
      && t.snapshots == s.snapshots && t.calls == s.calls[c := Done]
      && (p.RollbackWriting? ==> Restores(s.agents, t.agents, p.key, p.found.content))
      && (p.UpdateWriting? ==>
            if p.params == Params(None, None, None) then t.agents == s.agents
            else Merges(s.agents, t.agents, p.key, p.params))
  {
    var p := s.calls[c];
    if p.RollbackWriting? {
      RestoresLive(s.agents, p.key, p.found.content);
    } else {
      MergesLive(s.agents, p.key, p.params);
    }
  }

  /** The two statements before it, of a call that finds a live row: it is copied, and the copy saved. */
  lemma ReadThenSave(s: State, c: nat, ok: bool)
    requires Possible(s, Read(c))
    ensures var t, p := Step(s, Read(c)), s.calls[c];
      && t.agents == s.agents && t.snapshots == s.snapshots
      && (if forall i :: 0 <= i < |s.agents| ==> s.agents[i].key != p.key || s.agents[i].deleted
          then t.calls == s.calls[c := if p.UpdateReading? then UpdateWriting(p.key, p.params) else Done]
          else
            && Possible(t, Save(c, ok))
            && Saves(s.agents, s.snapshots, Step(t, Save(c, ok)).snapshots, p.key, ok)
            && Step(t, Save(c, ok)).agents == s.agents
            && Step(t, Save(c, ok)).calls == s.calls[c :=
                 if p.UpdateReading? then UpdateWriting(p.key, p.params)
                 else if ok then RollbackWriting(p.key, p.target, p.found)
                 else Done])
  {
    var t := Step(s, Read(c));
    if Possible(t, Save(c, ok)) {
      assert t.calls[c := Step(t, Save(c, ok)).calls[c]] == s.calls[c := Step(t, Save(c, ok)).calls[c]];
    }
  }

  /** A call begins with what it was given; its search takes a row of that name and version, or ends it. */
  lemma SearchChanges(s: State, e: Event)
    requires Possible(s, e) && (e.BeginUpdate? || e.BeginRollback? || e.Look? || e.Miss?)
    ensures var t := Step(s, e);
      && t.agents == s.agents && t.snapshots == s.snapshots
      && (e.BeginUpdate? ==> t.calls == s.calls[e.call := UpdateReading(e.key, e.params)])
      && (e.BeginRollback? ==> t.calls == s.calls[e.call := RollbackLooking(e.key, e.target)])
      && (e.Look? ==> exists r ::
        && r in s.snapshots && r.key == s.calls[e.call].key && r.version == s.calls[e.call].target
        && t.calls == s.calls[e.call := RollbackReading(s.calls[e.call].key, s.calls[e.call].target, r)])
      && (e.Miss? ==>
        && t.calls == s.calls[e.call := Done]
        && forall r :: r in s.snapshots ==> r.key != s.calls[e.call].key || r.version != s.calls[e.call].target)
  {
    if e.Look? {
      assert s.snapshots[e.pick] in s.snapshots;
    }
  }

  const INIT := State([], [], map[])

  predicate Can(es: seq<Event>)
    decreases |es|, 0
  {
    es == [] || (Can(es[..|es| - 1]) && Possible(Run(es[..|es| - 1]), es[|es| - 1]))
  }

  function Run(es: seq<Event>): State
    requires Can(es)
    decreases |es|, 1
  {
    if es == [] then INIT else Step(Run(es[..|es| - 1]), es[|es| - 1])
  }

  // ---- Every version has one content ----

  predicate At(s: State, a: nat, version: nat, content: Content) {
    a < |s.agents| && s.agents[a].version == version && s.agents[a].content == content
  }

  /** Rows keep their name, versions never go down, and content only changes with the version. */
  predicate Onward(s: State, t: State) {
    && |s.agents| <= |t.agents|
    && forall a :: 0 <= a < |s.agents| ==>
      && s.agents[a].key == t.agents[a].key && s.agents[a].version <= t.agents[a].version
      && (s.agents[a].version == t.agents[a].version ==> s.agents[a].content == t.agents[a].content)
  }

  lemma StepOnward(s: State, e: Event)
    requires Possible(s, e)
    ensures Onward(s, Step(s, e))
  {
  }

  lemma {:induction false} CanPrefix(es: seq<Event>, n: nat)
    requires Can(es) && n <= |es|
    ensures Can(es[..n])
  {
    if n == |es| {
      assert es[..n] == es;
    } else {
      CanPrefix(es[..|es| - 1], n);
      assert es[..|es| - 1][..n] == es[..n];
    }
  }

  /** The state after the first n events. */
  function StateAt(es: seq<Event>, n: nat): State
    requires Can(es) && n <= |es|
  {
    CanPrefix(es, n);
    Run(es[..n])
  }

  lemma {:induction false} RunOnward(es: seq<Event>, i: nat, j: nat)
    requires Can(es) && i <= j <= |es|
    ensures Onward(StateAt(es, i), StateAt(es, j))
    decreases j - i
  {
    if i < j {
      RunOnward(es, i, j - 1);
      CanPrefix(es, j);
      CanPrefix(es, j - 1);
      assert es[..j][..j - 1] == es[..j - 1];
      StepOnward(Run(es[..j - 1]), es[j - 1]);
    }
  }

  // ---- Where snapshots come from ----

  /** At some point of the run, agent r.agent was as the row says. */
  ghost predicate Sourced(es: seq<Event>, r: Snapshot)
    requires Can(es)
  {
    exists i :: 0 <= i <= |es| && SourcedAt(es, r, i)
  }

  predicate SourcedAt(es: seq<Event>, r: Snapshot, i: nat)
    requires Can(es) && i <= |es|
  {
    At(StateAt(es, i), r.agent, r.version, r.content) && StateAt(es, i).agents[r.agent].key == r.key
  }

  predicate HasCopy(p: Phase) {
    p.UpdateSaving? || p.RollbackSaving?
  }

  predicate HasFound(p: Phase) {
    p.RollbackReading? || p.RollbackSaving? || p.RollbackWriting?
  }

  predicate Holds(p: Phase, r: Snapshot) {
    (HasCopy(p) && p.copy == r) || (HasFound(p) && p.found == r)
  }

  /** Row r is in the table or in the hands of a call. */
  predicate Held(s: State, r: Snapshot) {
    r in s.snapshots || exists c :: c in s.calls && Holds(s.calls[c], r)
  }

  lemma StateAtPrefix(es: seq<Event>, n: nat, i: nat)
    requires n <= |es| && Can(es) && Can(es[..n]) && i <= n
    ensures StateAt(es[..n], i) == StateAt(es, i)
  {
    assert es[..n][..i] == es[..i];
  }

  lemma SourcedLater(es: seq<Event>, r: Snapshot)
    requires es != [] && Can(es) && Can(es[..|es| - 1]) && Sourced(es[..|es| - 1], r)
    ensures Sourced(es, r)
  {
    var n := |es| - 1;
    var i :| 0 <= i <= n && SourcedAt(es[..n], r, i);
    StateAtPrefix(es, n, i);
    assert SourcedAt(es, r, i);
  }

  lemma SourcedNow(es: seq<Event>, a: nat)
    requires Can(es) && a < |Run(es).agents|
    ensures Sourced(es, CopyOf(Run(es).agents, a))
  {
    assert es[..|es|] == es;
    assert SourcedAt(es, CopyOf(Run(es).agents, a), |es|);
  }

  /** What a step leaves behind was there before, or is a copy of a row as it was just before. */
  lemma StepHeld(s: State, e: Event, r: Snapshot)
    requires Possible(s, e) && Held(Step(s, e), r) && !Held(s, r)
    ensures exists a :: 0 <= a < |s.agents| && r == CopyOf(s.agents, a)
  {
    var t := Step(s, e);
    assert r !in s.snapshots;
    forall c | c in s.calls
      ensures !Holds(s.calls[c], r)
    {
    }
    if e.Read? {
      assert t.snapshots == s.snapshots;
      var c :| c in t.calls && Holds(t.calls[c], r);
      assert c == e.call && r == CopyOf(s.agents, FindLive(s.agents, s.calls[c].key));
    } else {
      StepHeldElsewhere(s, e, r);
    }
  }

  lemma StepHeldElsewhere(s: State, e: Event, r: Snapshot)
    requires Possible(s, e) && !e.Read? && Held(Step(s, e), r)
    ensures Held(s, r)
  {
    var t := Step(s, e);
    if r in t.snapshots {
      if r !in s.snapshots {
        assert Holds(s.calls[e.call], r);
      }
    } else {
      var c :| c in t.calls && Holds(t.calls[c], r);
      if !e.Look? || c != e.call {
        assert c in s.calls && Holds(s.calls[c], r);
      }
    }
  }

  lemma {:induction false} RunSourced(es: seq<Event>, r: Snapshot)
    requires Can(es) && Held(Run(es), r)
    ensures Sourced(es, r)
    decreases |es|
  {
    var init := es[..|es| - 1];
    if Held(Run(init), r) {
      RunSourced(init, r);
    } else {
      StepHeld(Run(init), es[|es| - 1], r);
      var a :| 0 <= a < |Run(init).agents| && r == CopyOf(Run(init).agents, a);
      SourcedNow(init, a);
    }
    SourcedLater(es, r);
  }

  /**
   Version history is faithful under every interleaving of updates, rollbacks, creations and
   deletions: a snapshot row holds exactly what its agent had whenever it was at that version,
   and the agent was at that version at some point.
   */
  lemma SnapshotsFaithful(es: seq<Event>, r: Snapshot, i: nat)
    requires Can(es) && r in Run(es).snapshots && i <= |es|
    ensures Sourced(es, r)
    ensures r.agent < |StateAt(es, i).agents| && StateAt(es, i).agents[r.agent].version == r.version ==>
      StateAt(es, i).agents[r.agent].content == r.content
  {
    RunSourced(es, r);
    SourcedAgrees(es, r, i);
  }

  lemma SourcedAgrees(es: seq<Event>, r: Snapshot, i: nat)
    requires Can(es) && Sourced(es, r) && i <= |es|
    ensures r.agent < |StateAt(es, i).agents| && StateAt(es, i).agents[r.agent].version == r.version ==>
      StateAt(es, i).agents[r.agent].content == r.content
  {
    var k :| 0 <= k <= |es| && SourcedAt(es, r, k);
    if k <= i {
      RunOnward(es, k, i);
    } else {
      RunOnward(es, i, k);
    }
  }

  // ---- Rollback, by name ----

  /** No two agents ever had this name. */
  predicate NameUnique(s: State, key: Key) {
    forall a, b :: 0 <= a < b < |s.agents| ==> !(s.agents[a].key == key && s.agents[b].key == key)
  }

  lemma {:induction false} FoundMatches(es: seq<Event>, c: nat)
    requires Can(es) && c in Run(es).calls && HasFound(Run(es).calls[c])
    ensures Matches(Run(es).calls[c].found, Run(es).calls[c].key, Run(es).calls[c].target)
    ensures Held(Run(es), Run(es).calls[c].found)
    decreases |es|
  {
    assert Holds(Run(es).calls[c], Run(es).calls[c].found);
    var s, e := Run(es[..|es| - 1]), es[|es| - 1];
    if c in s.calls && HasFound(s.calls[c]) {
      FoundMatches(es[..|es| - 1], c);
    }
  }

  /**
   A rollback that reaches its last statement writes exactly what the agent its snapshot came
   from had whenever that agent was at the target version, and moves the live row to a new
   version: under every interleaving.
   */
  lemma RollbackRestoresFound(es: seq<Event>, c: nat, a: nat, i: nat)
    requires es != [] && Can(es) && es[|es| - 1] == Write(c) && i <= |es|
    requires Can(es[..|es| - 1])
    requires var s := Run(es[..|es| - 1]);
      && c in s.calls && s.calls[c].RollbackWriting?
      && a < |s.agents| && Live(s.agents[a], s.calls[c].key)
    ensures var s, t := Run(es[..|es| - 1]), Run(es);
      var from := s.calls[c].found.agent;
      && t.agents[a].version == s.agents[a].version + 1
      && from < |s.agents| && s.agents[from].key == s.calls[c].key
      && (from < |StateAt(es, i).agents| && StateAt(es, i).agents[from].version == s.calls[c].target ==>
            t.agents[a].content == StateAt(es, i).agents[from].content)
  {
    var init := es[..|es| - 1];
    var s := Run(init);
    var r := s.calls[c].found;
    FoundMatches(init, c);
    RunSourced(init, r);
    SourceNamed(init, r);
    SourcedLater(es, r);
    SourcedAgrees(es, r, i);
  }

  /**
   When a rollback restores what the rolled back agent itself had at the target version, exactly:
   if and only if the snapshot found is of that agent, which its agent id tells, or the agent it is
   of happened to have the same content at its own version of that number.
   */
  lemma RollbackRestoresExactly(es: seq<Event>, c: nat, a: nat, i: nat, j: nat)
    requires es != [] && Can(es) && es[|es| - 1] == Write(c) && i <= |es| && j <= |es|
    requires Can(es[..|es| - 1])
    requires var s := Run(es[..|es| - 1]);
      && c in s.calls && s.calls[c].RollbackWriting?
      && a < |s.agents| && Live(s.agents[a], s.calls[c].key)
      && AtVersion(StateAt(es, i), a, s.calls[c].target)
      && AtVersion(StateAt(es, j), s.calls[c].found.agent, s.calls[c].target)
    ensures var s, t := Run(es[..|es| - 1]), Run(es);
      var from := s.calls[c].found.agent;
      t.agents[a].content == StateAt(es, i).agents[a].content
      <==> from == a || StateAt(es, j).agents[from].content == StateAt(es, i).agents[a].content
  {
    RollbackRestoresFound(es, c, a, i);
    RollbackRestoresFound(es, c, a, j);
  }

  predicate AtVersion(s: State, a: nat, version: nat) {
    a < |s.agents| && s.agents[a].version == version
  }

  /** So an agent's own snapshot brings back its own content, and moves it to a new version. */
  lemma RollbackRestores(es: seq<Event>, c: nat, a: nat, i: nat)
    requires es != [] && Can(es) && es[|es| - 1] == Write(c) && i <= |es|
    requires Can(es[..|es| - 1])
    requires var s := Run(es[..|es| - 1]);
      && c in s.calls && s.calls[c].RollbackWriting?
      && a < |s.agents| && Live(s.agents[a], s.calls[c].key) && s.calls[c].found.agent == a
    ensures var s, t := Run(es[..|es| - 1]), Run(es);
      && t.agents[a].version == s.agents[a].version + 1
      && (AtVersion(StateAt(es, i), a, s.calls[c].target) ==>
            t.agents[a].content == StateAt(es, i).agents[a].content)
  {
    RollbackRestoresFound(es, c, a, i);
  }

  /** A name that was never reused has no other agent's snapshots. */
  lemma UniqueNameFindsOwn(es: seq<Event>, c: nat, a: nat)
    requires Can(es) && c in Run(es).calls && HasFound(Run(es).calls[c])
    requires a < |Run(es).agents| && Run(es).agents[a].key == Run(es).calls[c].key
    requires NameUnique(Run(es), Run(es).calls[c].key)
    ensures Run(es).calls[c].found.agent == a
  {
    FoundMatches(es, c);
    RunSourced(es, Run(es).calls[c].found);
    SourceNamed(es, Run(es).calls[c].found);
  }

  /** The agent a row came from still has the row's name. */
  lemma SourceNamed(es: seq<Event>, r: Snapshot)
    requires Can(es) && Sourced(es, r)
    ensures r.agent < |Run(es).agents| && Run(es).agents[r.agent].key == r.key
  {
    var k :| 0 <= k <= |es| && SourcedAt(es, r, k);
    RunOnward(es, k, |es|);
    assert es[..|es|] == es;
  }

  // ---- A call whose statements run without interruption ----

  lemma Extend(es: seq<Event>, e: Event)
    requires Can(es) && Possible(Run(es), e)
    ensures Can(es + [e]) && Run(es + [e]) == Step(Run(es), e)
  {
    assert (es + [e])[..|es|] == es;
  }

  function RollbackCall(c: nat, key: Key, target: nat, pick: nat): seq<Event> {
    [BeginRollback(c, key, target), Look(c, pick), Read(c), Save(c, true), Write(c)]
  }

  function UpdateCall(c: nat, key: Key, p: Params, ok: bool): seq<Event> {
    [BeginUpdate(c, key, p), Read(c), Save(c, ok), Write(c)]
  }

  /** The two tables then change as the method says they do. */
  lemma RollbackUninterrupted(es: seq<Event>, c: nat, key: Key, target: nat, pick: nat)
    requires Can(es) && c !in Run(es).calls && FindLive(Run(es).agents, key) >= 0
    requires pick < |Run(es).snapshots| && Matches(Run(es).snapshots[pick], key, target)
    ensures var s := Run(es);
      && Can(es + RollbackCall(c, key, target, pick))
      && Run(es + RollbackCall(c, key, target, pick)) == State(
          RestoreLive(s.agents, key, s.snapshots[pick].content),
          s.snapshots + [CopyOf(s.agents, FindLive(s.agents, key))],
          s.calls[c := Done])
  {
    var s := Run(es);
    var found, copy := s.snapshots[pick], CopyOf(s.agents, FindLive(s.agents, key));
    var e3 := es + [BeginRollback(c, key, target)] + [Look(c, pick)] + [Read(c)];
    RollbackFirstHalf(es, c, key, target, pick);
    RollbackLastHalf(c, key, target, found, copy, s, e3);
    RollbackCallIs(es, c, key, target, pick);
  }

  lemma RollbackCallIs(es: seq<Event>, c: nat, key: Key, target: nat, pick: nat)
    ensures es + [BeginRollback(c, key, target)] + [Look(c, pick)] + [Read(c)] + [Save(c, true)] + [Write(c)]
         == es + RollbackCall(c, key, target, pick)
  {
  }

  lemma GotoTwice(s: State, c: nat, p: Phase, q: Phase)
    ensures Goto(Goto(s, c, p), c, q) == Goto(s, c, q)
  {
    assert s.calls[c := p][c := q] == s.calls[c := q];
  }

  lemma RollbackFirstHalf(es: seq<Event>, c: nat, key: Key, target: nat, pick: nat)
    requires Can(es) && c !in Run(es).calls && FindLive(Run(es).agents, key) >= 0
    requires pick < |Run(es).snapshots| && Matches(Run(es).snapshots[pick], key, target)
    ensures var s, es' := Run(es), es + [BeginRollback(c, key, target)] + [Look(c, pick)] + [Read(c)];
      && Can(es')
      && Run(es') == Goto(s, c,
          RollbackSaving(key, target, s.snapshots[pick], CopyOf(s.agents, FindLive(s.agents, key))))
  {
    var s := Run(es);
    var found := s.snapshots[pick];
    var looking, reading := RollbackLooking(key, target), RollbackReading(key, target, found);
    var e1 := es + [BeginRollback(c, key, target)];
    Extend(es, BeginRollback(c, key, target));
    var e2 := e1 + [Look(c, pick)];
    Extend(e1, Look(c, pick));
    GotoTwice(s, c, looking, reading);
    Extend(e2, Read(c));
    GotoTwice(s, c, reading, RollbackSaving(key, target, found, CopyOf(s.agents, FindLive(s.agents, key))));
  }

  lemma RollbackLastHalf(c: nat, key: Key, target: nat, found: Snapshot, copy: Snapshot, s: State, e3: seq<Event>)
    requires Can(e3) && Run(e3) == Goto(s, c, RollbackSaving(key, target, found, copy))
    ensures var es' := e3 + [Save(c, true)] + [Write(c)];
      && Can(es')
      && Run(es') == State(RestoreLive(s.agents, key, found.content), s.snapshots + [copy], s.calls[c := Done])
  {
    var saved := s.(snapshots := s.snapshots + [copy]);
    var saving, writing := RollbackSaving(key, target, found, copy), RollbackWriting(key, target, found);
    var e4 := e3 + [Save(c, true)];
    Extend(e3, Save(c, true));
    GotoTwice(saved, c, saving, writing);
    assert Run(e4) == Goto(saved, c, writing);
    Extend(e4, Write(c));
    GotoTwice(saved, c, writing, Done);
  }

  lemma UpdateUninterrupted(es: seq<Event>, c: nat, key: Key, p: Params, ok: bool)
    requires Can(es) && c !in Run(es).calls && FindLive(Run(es).agents, key) >= 0
    ensures var s := Run(es);
      && Can(es + UpdateCall(c, key, p, ok))
      && Run(es + UpdateCall(c, key, p, ok)) == State(
          if Empty(p) then s.agents else MergeLive(s.agents, key, p),
          s.snapshots + (if ok then [CopyOf(s.agents, FindLive(s.agents, key))] else []),
          s.calls[c := Done])
  {
    var s := Run(es);
    var e2 := es + [BeginUpdate(c, key, p)] + [Read(c)];
    UpdateFirstHalf(es, c, key, p);
    UpdateLastHalf(c, key, p, ok, CopyOf(s.agents, FindLive(s.agents, key)), s, e2);
    assert e2 + [Save(c, ok)] + [Write(c)] == es + UpdateCall(c, key, p, ok);
  }

  lemma UpdateFirstHalf(es: seq<Event>, c: nat, key: Key, p: Params)
    requires Can(es) && c !in Run(es).calls && FindLive(Run(es).agents, key) >= 0
    ensures var s, es' := Run(es), es + [BeginUpdate(c, key, p)] + [Read(c)];
      && Can(es')
      && Run(es') == Goto(s, c, UpdateSaving(key, p, CopyOf(s.agents, FindLive(s.agents, key))))
  {
    var s := Run(es);
    var e1 := es + [BeginUpdate(c, key, p)];
    Extend(es, BeginUpdate(c, key, p));
    Extend(e1, Read(c));
    GotoTwice(s, c, UpdateReading(key, p), UpdateSaving(key, p, CopyOf(s.agents, FindLive(s.agents, key))));
  }

  lemma UpdateLastHalf(c: nat, key: Key, p: Params, ok: bool, copy: Snapshot, s: State, e2: seq<Event>)
    requires Can(e2) && Run(e2) == Goto(s, c, UpdateSaving(key, p, copy))
    ensures var es' := e2 + [Save(c, ok)] + [Write(c)];
      && Can(es')
      && Run(es') == State(if Empty(p) then s.agents else MergeLive(s.agents, key, p),
          s.snapshots + (if ok then [copy] else []), s.calls[c := Done])
  {
    var saved := s.(snapshots := s.snapshots + if ok then [copy] else []);
    var saving, writing := UpdateSaving(key, p, copy), UpdateWriting(key, p);
    var e3 := e2 + [Save(c, ok)];
    Extend(e2, Save(c, ok));
    GotoTwice(saved, c, saving, writing);
    assert Run(e3) == Goto(saved, c, writing);
    Extend(e3, Write(c));
    GotoTwice(saved, c, writing, Done);
  }

  /**
   Without unique names restoring is not undoing: rows are looked up by name, so rolling back an
   agent that took over a deleted agent's name can bring back the other one's content.
   */
  lemma ReusedNameRestoresOther(key: Key, old_: Content, new_: Content)
    ensures var es := FirstLife(key, old_) + [Create(key, new_)];
      var after := es + RollbackCall(1, key, 1, 0);
      && Can(es) && At(Run(es), 1, 1, new_)
      && Can(after) && |Run(after).agents| == 2 && Run(after).agents[1] == Agent(key, 2, old_, false)
  {
    FirstLifeEnds(key, old_);
    var first := FirstLife(key, old_);
    var es := first + [Create(key, new_)];
    Extend(first, Create(key, new_));
    var gone, taken := Agent(key, 1, old_, true), Agent(key, 1, new_, false);
    assert Run(es).agents == [gone, taken];
    SecondIsLive(gone, taken, key);
    RollbackUninterrupted(es, 1, key, 1, 0);
  }

  lemma SecondIsLive(gone: Agent, taken: Agent, key: Key)
    requires gone.deleted && Live(taken, key)
    ensures FindLive([gone, taken], key) == 1
  {
    assert [gone, taken][1] == taken;
  }

  /** Created, updated with nothing, which leaves a snapshot of version 1, and deleted. */
  function FirstLife(key: Key, content: Content): seq<Event> {
    [] + [Create(key, content)] + UpdateCall(0, key, Params(None, None, None), true) + [SoftDelete(key)]
  }

  lemma FirstLifeEnds(key: Key, content: Content)
    ensures Can(FirstLife(key, content))
    ensures Run(FirstLife(key, content)) ==
      State([Agent(key, 1, content, true)], [Snapshot(0, key, 1, content)], map[0 := Done])
  {
    var none := Params(None, None, None);
    var agent := Agent(key, 1, content, false);
    Extend([], Create(key, content));
    var e1 := [] + [Create(key, content)];
    assert Run(e1) == State([agent], [], map[]);
    assert Live([agent][0], key);
    UpdateUninterrupted(e1, 0, key, none, true);
    var e2 := e1 + UpdateCall(0, key, none, true);
    assert Run(e2) == State([agent], [Snapshot(0, key, 1, content)], map[0 := Done]);
    Extend(e2, SoftDelete(key));
    assert DeleteLive([agent], key) == [Agent(key, 1, content, true)];
  }

  // ---- When the whole history is kept ----

  predicate Has(s: State, a: nat, version: nat) {
    exists r :: r in s.snapshots && r.agent == a && r.version == version
  }

  /** Every past version of every agent has its snapshot; versions start at one. */
  predicate Kept(s: State) {
    forall a :: 0 <= a < |s.agents| ==> KeptOf(s, a)
  }

  predicate KeptOf(s: State, a: nat)
    requires a < |s.agents|
  {
    s.agents[a].version >= 1 && forall v :: 1 <= v < s.agents[a].version ==> Has(s, a, v)
  }

  /** The version a call is about to leave behind has its snapshot, for every row the UPDATE meets. */
  predicate LiveSaved(s: State, key: Key) {
    forall a :: 0 <= a < |s.agents| && Live(s.agents[a], key) ==> Has(s, a, s.agents[a].version)
  }

  predicate NoUpdate(p: Phase) {
    p.UpdateWriting? && Empty(p.params)
  }

  predicate Covered(s: State, c: nat)
    requires Possible(s, Write(c))
  {
    NoUpdate(s.calls[c]) || LiveSaved(s, s.calls[c].key)
  }

  lemma HasStays(s: State, e: Event, a: nat, v: nat)
    requires Possible(s, e) && Has(s, a, v)
    ensures Has(Step(s, e), a, v)
  {
    var r :| r in s.snapshots && r.agent == a && r.version == v;
    assert r in Step(s, e).snapshots;
  }

  lemma KeptOfStays(s: State, e: Event, a: nat)
    requires Possible(s, e) && a < |s.agents| && KeptOf(s, a)
    requires a < |Step(s, e).agents| && Step(s, e).agents[a].version == s.agents[a].version
    ensures KeptOf(Step(s, e), a)
  {
    forall v | 1 <= v < s.agents[a].version
      ensures Has(Step(s, e), a, v)
    {
      HasStays(s, e, a, v);
    }
  }

  /** No step but the last statement of a call can lose a version. */
  lemma OthersKeep(s: State, e: Event)
    requires Kept(s) && Possible(s, e) && !e.Write?
    ensures Kept(Step(s, e))
  {
    var t := Step(s, e);
    forall a | 0 <= a < |t.agents|
      ensures KeptOf(t, a)
    {
      if a < |s.agents| {
        KeptOfStays(s, e, a);
      }
    }
  }

  lemma WriteVersion(s: State, c: nat, a: nat)
    requires Possible(s, Write(c)) && a < |s.agents|
    ensures var t, p := Step(s, Write(c)), s.calls[c];
      && |t.agents| == |s.agents| && t.snapshots == s.snapshots
      && t.agents[a].version == s.agents[a].version + if !NoUpdate(p) && Live(s.agents[a], p.key) then 1 else 0
  {
  }

  lemma WriteKeepsRow(s: State, c: nat, a: nat)
    requires Kept(s) && Possible(s, Write(c)) && a < |s.agents|
    ensures a < |Step(s, Write(c)).agents|
    ensures KeptOf(Step(s, Write(c)), a) <==>
      NoUpdate(s.calls[c]) || !Live(s.agents[a], s.calls[c].key) || Has(s, a, s.agents[a].version)
  {
    var t, n := Step(s, Write(c)), s.agents[a].version;
    WriteVersion(s, c, a);
    assert KeptOf(s, a);
    forall v
      ensures Has(t, a, v) <==> Has(s, a, v)
    {
    }
  }

  /**
   That statement keeps the history if and only if it updates nothing, or every row it updates
   already has a snapshot of its present version.
   */
  lemma WriteKeepsExactly(s: State, c: nat)
    requires Kept(s) && Possible(s, Write(c))
    ensures Kept(Step(s, Write(c))) <==> Covered(s, c)
  {
    var t := Step(s, Write(c));
    forall a | 0 <= a < |s.agents|
      ensures a < |t.agents|
      ensures KeptOf(t, a) <==>
        NoUpdate(s.calls[c]) || !Live(s.agents[a], s.calls[c].key) || Has(s, a, s.agents[a].version)
    {
      WriteKeepsRow(s, c, a);
    }
    assert |t.agents| == |s.agents|;
  }

  /** The i-th event of a run happens in the state before it. */
  lemma StateStep(es: seq<Event>, i: nat)
    requires Can(es) && i < |es|
    ensures Possible(StateAt(es, i), es[i]) && StateAt(es, i + 1) == Step(StateAt(es, i), es[i])
  {
    CanPrefix(es, i + 1);
    assert es[..i + 1][..i] == es[..i];
  }

  ghost predicate CoveredAt(es: seq<Event>, i: nat)
    requires Can(es) && i < |es|
  {
    StateStep(es, i);
    es[i].Write? ==> Covered(StateAt(es, i), es[i].call)
  }

  lemma {:induction false} KeptUpTo(es: seq<Event>, n: nat)
    requires Can(es) && n <= |es|
    requires forall i :: 0 <= i < n ==> CoveredAt(es, i)
    ensures Kept(StateAt(es, n))
  {
    if n > 0 {
      KeptUpTo(es, n - 1);
      StateStep(es, n - 1);
      assert CoveredAt(es, n - 1);
      if es[n - 1].Write? {
        WriteKeepsExactly(StateAt(es, n - 1), es[n - 1].call);
      } else {
        OthersKeep(StateAt(es, n - 1), es[n - 1]);
      }
    }
  }

  /**
   When the whole history is kept, exactly: all through a run, whatever the interleaving, every past
   version has its snapshot if and only if every UPDATE of the run was covered when it was issued.
   */
  lemma HistoryKeptExactly(es: seq<Event>)
    requires Can(es)
    ensures (forall n :: 0 <= n <= |es| ==> Kept(StateAt(es, n))) <==> (forall i :: 0 <= i < |es| ==> CoveredAt(es, i))
  {
    if forall i :: 0 <= i < |es| ==> CoveredAt(es, i) {
      forall n | 0 <= n <= |es|
        ensures Kept(StateAt(es, n))
      {
        KeptUpTo(es, n);
      }
    }
    if forall n :: 0 <= n <= |es| ==> Kept(StateAt(es, n)) {
      forall i | 0 <= i < |es|
        ensures CoveredAt(es, i)
      {
        StateStep(es, i);
        assert Kept(StateAt(es, i)) && Kept(StateAt(es, i + 1));
        if es[i].Write? {
          WriteKeepsExactly(StateAt(es, i), es[i].call);
        }
      }
    }
  }

  // ---- What a call needs to be covered ----

  /** The index on live names: no two live rows have the same one. */
  predicate OneLive(s: State) {
    forall a, b :: 0 <= a < b < |s.agents| ==>
      s.agents[a].key != s.agents[b].key || s.agents[a].deleted || s.agents[b].deleted
  }

  /** No step brings a row back to life or renames it. */
  lemma LiveBefore(s: State, e: Event, a: nat)
    requires Possible(s, e) && a < |s.agents|
    ensures a < |Step(s, e).agents| && Step(s, e).agents[a].key == s.agents[a].key
    ensures s.agents[a].deleted ==> Step(s, e).agents[a].deleted
  {
  }

  lemma OneLiveStep(s: State, e: Event)
    requires OneLive(s) && Possible(s, e)
    ensures OneLive(Step(s, e))
  {
    var t := Step(s, e);
    forall a, b | 0 <= a < b < |t.agents|
      ensures t.agents[a].key != t.agents[b].key || t.agents[a].deleted || t.agents[b].deleted
    {
      LiveBefore(s, e, a);
      if b < |s.agents| {
        LiveBefore(s, e, b);
      } else {
        assert e.Create? && !Live(s.agents[a], e.key);
      }
    }
  }

  lemma {:induction false} RunOneLive(es: seq<Event>)
    requires Can(es)
    ensures OneLive(Run(es))
    decreases |es|
  {
    if es != [] {
      RunOneLive(es[..|es| - 1]);
      OneLiveStep(Run(es[..|es| - 1]), es[|es| - 1]);
    }
  }

  /** While a call goes on, what it has read is what the live row still is; and then that is saved. */
  predicate Guarded(s: State, p: Phase) {
    && (HasCopy(p) ==> forall a :: 0 <= a < |s.agents| && Live(s.agents[a], p.key) ==> CopyOf(s.agents, a) == p.copy)
    && (p.UpdateWriting? || p.RollbackWriting? ==> LiveSaved(s, p.key))
  }

  /** A statement that changes which content and version a name has. */
  predicate Disturbs(s: State, e: Event, key: Key)
    requires Possible(s, e)
  {
    (e.Create? && e.key == key) || (e.Write? && s.calls[e.call].key == key && !NoUpdate(s.calls[e.call]))
  }

  lemma GuardRead(s: State, c: nat)
    requires OneLive(s) && Possible(s, Read(c))
    ensures Guarded(Step(s, Read(c)), Step(s, Read(c)).calls[c])
  {
    var key := s.calls[c].key;
    var i := FindLive(s.agents, key);
    forall a | 0 <= a < |s.agents| && Live(s.agents[a], key)
      ensures a == i
    {
      assert i >= 0 && Live(s.agents[i], key);
    }
  }

  lemma GuardSave(s: State, c: nat)
    requires Possible(s, Save(c, true)) && Guarded(s, s.calls[c])
    ensures Guarded(Step(s, Save(c, true)), Step(s, Save(c, true)).calls[c])
  {
    var p, t := s.calls[c], Step(s, Save(c, true));
    assert t.snapshots[|s.snapshots|] == p.copy;
    forall a | 0 <= a < |t.agents| && Live(t.agents[a], p.key)
      ensures Has(t, a, t.agents[a].version)
    {
      assert CopyOf(s.agents, a) == p.copy && p.copy in t.snapshots;
    }
  }

  /** A step of another call, or of none, that leaves the name alone. */
  lemma RowsUndisturbed(s: State, e: Event, key: Key, a: nat)
    requires Possible(s, e) && !Disturbs(s, e, key)
    requires a < |Step(s, e).agents| && Live(Step(s, e).agents[a], key)
    ensures a < |s.agents| && s.agents[a] == Step(s, e).agents[a]
  {
  }

  lemma GuardElsewhere(s: State, e: Event, p: Phase)
    requires p != Done && Possible(s, e) && Guarded(s, p) && !Disturbs(s, e, p.key)
    ensures Guarded(Step(s, e), p)
  {
    var t := Step(s, e);
    forall a | 0 <= a < |t.agents| && Live(t.agents[a], p.key)
      ensures HasCopy(p) ==> CopyOf(t.agents, a) == p.copy
      ensures p.UpdateWriting? || p.RollbackWriting? ==> Has(t, a, t.agents[a].version)
    {
      RowsUndisturbed(s, e, p.key, a);
      if p.UpdateWriting? || p.RollbackWriting? {
        HasStays(s, e, a, s.agents[a].version);
      }
    }
  }

  predicate OwnStep(e: Event, c: nat) {
    (e.Look? || e.Miss? || e.Read? || e.Save? || e.Write?) && e.call == c
  }

  lemma OtherStepsLeave(s: State, e: Event, c: nat)
    requires Possible(s, e) && c in s.calls && !OwnStep(e, c)
    ensures c in Step(s, e).calls && Step(s, e).calls[c] == s.calls[c]
  {
  }

  /** One step of a run in which a call's name is left alone and its snapshot, if taken now, succeeds. */
  lemma GuardStep(s: State, e: Event, c: nat)
    requires OneLive(s) && Possible(s, e) && c in s.calls && Guarded(s, s.calls[c])
    requires s.calls[c] != Done ==> !Disturbs(s, e, s.calls[c].key)
    requires e != Save(c, false)
    ensures c in Step(s, e).calls && Guarded(Step(s, e), Step(s, e).calls[c])
    ensures Step(s, e).calls[c] != Done ==> s.calls[c] != Done && Step(s, e).calls[c].key == s.calls[c].key
  {
    if e == Read(c) {
      GuardRead(s, c);
    } else if e.Save? && e.call == c {
      GuardSave(s, c);
    } else if !OwnStep(e, c) {
      OtherStepsLeave(s, e, c);
      if s.calls[c] != Done {
        GuardElsewhere(s, e, s.calls[c]);
      }
    }
  }

  /** Between event r and event n nobody writes or creates a row of that name, and call c's snapshot succeeds. */
  ghost predicate LeftAlone(es: seq<Event>, c: nat, key: Key, r: nat, n: nat)
    requires Can(es) && n <= |es|
  {
    forall i :: r < i < n ==> LeftAloneAt(es, c, key, i)
  }

  ghost predicate LeftAloneAt(es: seq<Event>, c: nat, key: Key, i: nat)
    requires Can(es) && i < |es|
  {
    StateStep(es, i);
    !Disturbs(StateAt(es, i), es[i], key) && es[i] != Save(c, false)
  }

  lemma {:induction false} GuardedSince(es: seq<Event>, c: nat, key: Key, r: nat, n: nat)
    requires Can(es) && r < n <= |es| && es[r] == Read(c) && c in StateAt(es, r).calls
    requires StateAt(es, r).calls[c] != Done && StateAt(es, r).calls[c].key == key
    requires LeftAlone(es, c, key, r, n)
    ensures var s := StateAt(es, n);
      c in s.calls && Guarded(s, s.calls[c]) && (s.calls[c] != Done ==> s.calls[c].key == key)
    decreases n
  {
    StateStep(es, n - 1);
    CanPrefix(es, n - 1);
    RunOneLive(es[..n - 1]);
    if n == r + 1 {
      GuardRead(StateAt(es, r), c);
    } else {
      GuardedSince(es, c, key, r, n - 1);
      assert LeftAloneAt(es, c, key, n - 1);
      GuardStep(StateAt(es, n - 1), es[n - 1], c);
    }
  }

  /**
   What a caller can do about it: a call whose own snapshot succeeded is covered if nobody else
   wrote to the name or created it between the call's SELECT and its UPDATE.
   */
  lemma CallCovered(es: seq<Event>, c: nat, r: nat, n: nat)
    requires Can(es) && r < n < |es| && es[r] == Read(c) && es[n] == Write(c)
    requires c in StateAt(es, r).calls && StateAt(es, r).calls[c] != Done
    requires LeftAlone(es, c, StateAt(es, r).calls[c].key, r, n)
    ensures CoveredAt(es, n)
  {
    GuardedSince(es, c, StateAt(es, r).calls[c].key, r, n);
    StateStep(es, n);
  }

  // ---- Sequential runs ----

  predicate Idle(s: State) {
    forall c :: c in s.calls ==> s.calls[c] == Done
  }

  /** One call at a time, nothing between its statements, and no snapshot statement fails. */
  predicate Sequential(es: seq<Event>)
    requires Can(es)
    decreases |es|
  {
    es == [] ||
    var s, e := Run(es[..|es| - 1]), es[|es| - 1];
    && Sequential(es[..|es| - 1])
    && (e.Create? || e.SoftDelete? || e.BeginUpdate? || e.BeginRollback? ==> Idle(s))
    && (e.Save? ==> e.ok)
  }

  predicate OneBusy(s: State) {
    forall b, c :: b in s.calls && c in s.calls && s.calls[b] != Done && s.calls[c] != Done ==> b == c
  }

  predicate AllGuarded(s: State) {
    forall c :: c in s.calls ==> Guarded(s, s.calls[c])
  }

  /** In a sequential run every past version of every agent has its snapshot. */
  lemma {:induction false} SequentialComplete(es: seq<Event>)
    requires Can(es) && Sequential(es)
    ensures Kept(Run(es)) && OneBusy(Run(es)) && AllGuarded(Run(es))
    decreases |es|
  {
    if es != [] {
      var s, e := Run(es[..|es| - 1]), es[|es| - 1];
      SequentialComplete(es[..|es| - 1]);
      RunOneLive(es[..|es| - 1]);
      if e.Write? {
        assert Guarded(s, s.calls[e.call]);
        WriteKeepsExactly(s, e.call);
      } else {
        OthersKeep(s, e);
      }
      SequentialGuards(s, e);
    }
  }

  lemma SequentialGuards(s: State, e: Event)
    requires OneBusy(s) && AllGuarded(s) && OneLive(s) && Possible(s, e)
    requires e.Create? || e.SoftDelete? || e.BeginUpdate? || e.BeginRollback? ==> Idle(s)
    requires e.Save? ==> e.ok
    ensures OneBusy(Step(s, e)) && AllGuarded(Step(s, e))
  {
    var t := Step(s, e);
    forall c | c in t.calls
      ensures Guarded(t, t.calls[c])
    {
      if c in s.calls {
        assert Guarded(s, s.calls[c]);
        if e.Write? && e.call == c {
          assert t.calls[c] == Done;
        } else {
          GuardStep(s, e, c);
        }
      }
    }
  }

  /** The live row of that name is row a, and no other row has or had the name. */
  predicate Only(s: State, key: Key, a: nat) {
    a < |s.agents| && Live(s.agents[a], key) && NameUnique(s, key)
  }

  lemma OnlyIsFound(s: State, key: Key, a: nat)
    requires Only(s, key, a)
    ensures FindLive(s.agents, key) == a
  {
    assert FindLive(s.agents, key) >= 0;
  }

  /** A row of version v of agent a is in the table under a's name. */
  lemma PickOf(es: seq<Event>, key: Key, a: nat, v: nat) returns (pick: nat)
    requires Can(es) && a < |Run(es).agents| && Run(es).agents[a].key == key && Has(Run(es), a, v)
    ensures pick < |Run(es).snapshots| && Matches(Run(es).snapshots[pick], key, v)
  {
    var s := Run(es);
    var r :| r in s.snapshots && r.agent == a && r.version == v;
    pick :| 0 <= pick < |s.snapshots| && s.snapshots[pick] == r;
    RunSourced(es, r);
    SourceNamed(es, r);
  }

  /** One uninterrupted rollback of an agent whose name was never reused, from any run. */
  lemma RollbackOnly(es: seq<Event>, c: nat, key: Key, a: nat, target: nat, pick: nat, i: nat)
    requires Can(es) && c !in Run(es).calls && Only(Run(es), key, a) && i <= |es|
    requires pick < |Run(es).snapshots| && Matches(Run(es).snapshots[pick], key, target)
    ensures var s, es' := Run(es), es + RollbackCall(c, key, target, pick);
      && Can(es') && Only(Run(es'), key, a) && Run(es').calls == s.calls[c := Done]
      && Run(es').snapshots == s.snapshots + [CopyOf(s.agents, a)]
      && Run(es').agents[a].version == s.agents[a].version + 1
      && (a < |StateAt(es, i).agents| && StateAt(es, i).agents[a].version == target ==>
            Run(es').agents[a].content == StateAt(es, i).agents[a].content)
  {
    var s := Run(es);
    OnlyIsFound(s, key, a);
    RollbackUninterrupted(es, c, key, target, pick);
    var r := s.snapshots[pick];
    RunSourced(es, r);
    SourceNamed(es, r);
    assert r.agent == a;
    SourcedAgrees(es, r, i);
  }

  /** Some row answers the search for that version, and whichever one does, the rollback gives that content. */
  predicate RollsBack(es: seq<Event>, c: nat, key: Key, a: nat, target: nat, content: Content) {
    && Can(es) && a < |Run(es).agents|
    && (exists pick :: 0 <= pick < |Run(es).snapshots| && Matches(Run(es).snapshots[pick], key, target))
    && (forall pick | 0 <= pick < |Run(es).snapshots| && Matches(Run(es).snapshots[pick], key, target) ::
          var es' := es + RollbackCall(c, key, target, pick);
          && Can(es') && a < |Run(es').agents| && Run(es').agents[a].content == content
          && Run(es').agents[a].version == Run(es).agents[a].version + 1)
  }

  /** The version left behind by one rollback is found again, and brings back what it held. */
  lemma RollsBackAgain(es: seq<Event>, c: nat, d: nat, key: Key, a: nat, v: nat, pick: nat)
    requires Can(es) && c !in Run(es).calls && d !in Run(es).calls && c != d && Only(Run(es), key, a)
    requires pick < |Run(es).snapshots| && Matches(Run(es).snapshots[pick], key, v)
    ensures RollsBack(es + RollbackCall(c, key, v, pick), d, key, a, Run(es).agents[a].version,
                      Run(es).agents[a].content)
  {
    var s, once := Run(es), es + RollbackCall(c, key, v, pick);
    RollbackOnly(es, c, key, a, v, pick, |es|);
    assert once[..|es|] == es && StateAt(once, |es|) == s;
    assert Run(once).snapshots[|s.snapshots|] == CopyOf(s.agents, a);
    assert Matches(Run(once).snapshots[|s.snapshots|], key, s.agents[a].version);
    forall undo: nat | undo < |Run(once).snapshots| && Matches(Run(once).snapshots[undo], key, s.agents[a].version)
      ensures var es' := once + RollbackCall(d, key, s.agents[a].version, undo);
        && Can(es') && a < |Run(es').agents| && Run(es').agents[a].content == s.agents[a].content
        && Run(es').agents[a].version == Run(once).agents[a].version + 1
    {
      RollbackOnly(once, d, key, a, s.agents[a].version, undo, |es|);
    }
  }

  lemma RollsBackOnce(es: seq<Event>, c: nat, key: Key, a: nat, v: nat, i: nat)
    requires Can(es) && Sequential(es) && c !in Run(es).calls
    requires Only(Run(es), key, a) && 1 <= v < Run(es).agents[a].version
    requires i <= |es| && a < |StateAt(es, i).agents| && StateAt(es, i).agents[a].version == v
    ensures RollsBack(es, c, key, a, v, StateAt(es, i).agents[a].content)
  {
    var s := Run(es);
    SequentialComplete(es);
    assert KeptOf(s, a) && Has(s, a, v);
    var found := PickOf(es, key, a, v);
    forall pick: nat | pick < |s.snapshots| && Matches(s.snapshots[pick], key, v)
      ensures var es' := es + RollbackCall(c, key, v, pick);
        && Can(es') && a < |Run(es').agents| && Run(es').agents[a].content == StateAt(es, i).agents[a].content
        && Run(es').agents[a].version == s.agents[a].version + 1
    {
      RollbackOnly(es, c, key, a, v, pick, i);
    }
  }

  /**
   In a sequential run a rollback to any past version v succeeds and brings back what the agent
   had at v, and a second rollback, to the version left behind, undoes it. The database may answer
   either search with any row that matches: there is one each time, and every one will do.
   */
  lemma RollbackThenUndo(es: seq<Event>, c: nat, d: nat, key: Key, a: nat, v: nat, i: nat)
    requires Can(es) && Sequential(es) && c !in Run(es).calls && d !in Run(es).calls && c != d
    requires Only(Run(es), key, a) && 1 <= v < Run(es).agents[a].version
    requires i <= |es| && a < |StateAt(es, i).agents| && StateAt(es, i).agents[a].version == v
    ensures RollsBack(es, c, key, a, v, StateAt(es, i).agents[a].content)
    ensures forall pick: nat | pick < |Run(es).snapshots| && Matches(Run(es).snapshots[pick], key, v) ::
      RollsBack(es + RollbackCall(c, key, v, pick), d, key, a, Run(es).agents[a].version, Run(es).agents[a].content)
  {
    RollsBackOnce(es, c, key, a, v, i);
    forall pick: nat | pick < |Run(es).snapshots| && Matches(Run(es).snapshots[pick], key, v)
      ensures RollsBack(es + RollbackCall(c, key, v, pick), d, key, a, Run(es).agents[a].version,
                        Run(es).agents[a].content)
    {
      RollsBackAgain(es, c, d, key, a, v, pick);
    }
  }

  // ---- Overlapping updates lose a version ----

  /** Two updates read the same version 1, save it twice and both write: version 2 has no snapshot. */
  lemma OverlapLosesVersion(key: Key, content: Content, p: Params)
    requires !Empty(p)
    ensures var es := OverlapRun(key, p, content);
      && Can(es) && |Run(es).agents| == 1 && Run(es).agents[0].version == 3
      && Has(Run(es), 0, 1) && !Has(Run(es), 0, 2)
  {
    var agent := Agent(key, 1, content, false);
    var copy := Snapshot(0, key, 1, content);
    OverlapReads(key, p, content);
    var e4 := OverlapHalf(key, p, content);
    var e5 := e4 + [Save(0, true)];
    Extend(e4, Save(0, true));
    assert Run(e5) == State([agent], [copy], map[0 := UpdateWriting(key, p), 1 := UpdateSaving(key, p, copy)]);
    var e6 := e5 + [Save(1, true)];
    Extend(e5, Save(1, true));
    assert Run(e6) == State([agent], [copy, copy], map[0 := UpdateWriting(key, p), 1 := UpdateWriting(key, p)]);
    OverlapWrites(key, p, e6, agent, copy);
    assert Run(OverlapRun(key, p, content)).snapshots[0] == copy;
  }

  function OverlapHalf(key: Key, p: Params, content: Content): seq<Event> {
    [] + [Create(key, content)] + [BeginUpdate(0, key, p)] + [BeginUpdate(1, key, p)] + [Read(0)] + [Read(1)]
  }

  function OverlapRun(key: Key, p: Params, content: Content): seq<Event> {
    OverlapHalf(key, p, content) + [Save(0, true)] + [Save(1, true)] + [Write(0)] + [Write(1)]
  }

  lemma OverlapReads(key: Key, p: Params, content: Content)
    ensures var copy := Snapshot(0, key, 1, content);
      && Can(OverlapHalf(key, p, content))
      && Run(OverlapHalf(key, p, content)) == State([Agent(key, 1, content, false)], [],
          map[0 := UpdateSaving(key, p, copy), 1 := UpdateSaving(key, p, copy)])
  {
    var agent := Agent(key, 1, content, false);
    var reading, saving := UpdateReading(key, p), UpdateSaving(key, p, Snapshot(0, key, 1, content));
    OverlapBegins(key, p, content);
    var e2 := [] + [Create(key, content)] + [BeginUpdate(0, key, p)] + [BeginUpdate(1, key, p)];
    assert Live([agent][0], key);
    var e3 := e2 + [Read(0)];
    Extend(e2, Read(0));
    assert Run(e3) == Goto(Run(e2), 0, saving);
    assert Run(e3).calls == map[0 := saving, 1 := reading];
    Extend(e3, Read(1));
    assert Run(e3 + [Read(1)]) == Goto(Run(e3), 1, saving);
  }

  lemma OverlapBegins(key: Key, p: Params, content: Content)
    ensures var es := [] + [Create(key, content)] + [BeginUpdate(0, key, p)] + [BeginUpdate(1, key, p)];
      && Can(es)
      && Run(es) == State([Agent(key, 1, content, false)], [],
                          map[0 := UpdateReading(key, p), 1 := UpdateReading(key, p)])
  {
    var e0 := [] + [Create(key, content)];
    Extend([], Create(key, content));
    assert Run(e0) == State([Agent(key, 1, content, false)], [], map[]);
    var e1 := e0 + [BeginUpdate(0, key, p)];
    Extend(e0, BeginUpdate(0, key, p));
    assert Run(e1) == Goto(Run(e0), 0, UpdateReading(key, p));
    Extend(e1, BeginUpdate(1, key, p));
  }

  lemma OverlapWrites(key: Key, p: Params, es: seq<Event>, agent: Agent, copy: Snapshot)
    requires Can(es) && !Empty(p) && Live(agent, key)
    requires Run(es) == State([agent], [copy, copy], map[0 := UpdateWriting(key, p), 1 := UpdateWriting(key, p)])
    ensures var after := es + [Write(0)] + [Write(1)];
      && Can(after) && Run(after).snapshots == [copy, copy]
      && |Run(after).agents| == 1 && Run(after).agents[0].version == agent.version + 2
  {
    var e1 := es + [Write(0)];
    Extend(es, Write(0));
    Extend(e1, Write(1));
  }
}
