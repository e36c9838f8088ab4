/**
 The audit hash chain. An entry's hash is taken over the JSON text of its content followed by the
 hash of the entry before it. The hash function and the JSON printer are parameters.
 */
module AuditChains {
  import opened Options

  const GENESIS: string := "0000000000000000000000000000000000000000000000000000000000000000"
  const MAX_ENTRIES: nat := 10000

  datatype Actor = Actor(
    kind: string, id: string, namespace: Option<string>, authMethod: Option<string>, spiffeId: Option<string>)
  datatype Target = Target(kind: string, id: string, namespace: Option<string>)
  datatype Action = Action(name: string, parameters: Option<map<string, string>>, result: string,
                           reason: Option<string>)
  datatype Context = Context(
    requestId: Option<string>, sessionId: Option<string>, ipAddress: Option<string>, userAgent: Option<string>)

  /** Everything but the integrity fields, in the order in which it is printed. */
  datatype Content = Content(
    version: string, timestamp: string, eventId: string, eventType: string, severity: string,
    actor: Actor, target: Option<Target>, action: Action, context: Context)

  /** previousHash is the field integrity.previousHash, which holds the entry's own hash. */
  datatype AuditEntry = AuditEntry(content: Content, chainId: string, previousHash: string)
  datatype Log = Log(entries: seq<AuditEntry>, lastHash: string)

  /** What the hashing sees of an entry, and of a chain. */
  datatype Entry = Entry(text: string, hash: string)
  datatype Chain = Chain(entries: seq<Entry>, lastHash: string)

  type Hash = string -> string
  type Stringify = Content -> string

  // ---- What the operations compute ----

  function LastHash(start: string, entries: seq<Entry>): string {
    if entries == [] then start else entries[|entries| - 1].hash
  }

  /** Each entry's hash is that of its text and of the hash before it, from start on. */
  predicate VerifiesFrom(h: Hash, start: string, entries: seq<Entry>) {
    entries == [] ||
    var init, last := entries[..|entries| - 1], entries[|entries| - 1];
    VerifiesFrom(h, start, init) && last.hash == h(last.text + LastHash(start, init))
  }

  function NewChain(): Chain {
    Chain([], GENESIS)
  }

  function Truncated<T>(entries: seq<T>): seq<T> {
    if |entries| > MAX_ENTRIES then entries[|entries| - MAX_ENTRIES..] else entries
  }

  function Appended(h: Hash, c: Chain, text: string): Chain {
    var hash := h(text + c.lastHash);
    Chain(Truncated(c.entries + [Entry(text, hash)]), hash)
  }

  function Seen(json: Stringify, entries: seq<AuditEntry>): seq<Entry> {
    seq(|entries|, i requires 0 <= i < |entries| => Entry(json(entries[i].content), entries[i].previousHash))
  }

  function ChainOf(json: Stringify, log: Log): Chain {
    Chain(Seen(json, log.entries), log.lastHash)
  }

  function NewEntry(h: Hash, json: Stringify, log: Log, chainId: string, content: Content): AuditEntry {
    AuditEntry(content, chainId, h(json(content) + log.lastHash))
  }

  function Added(h: Hash, json: Stringify, log: Log, chainId: string, content: Content): Log {
    var entry := NewEntry(h, json, log, chainId, content);
    Log(Truncated(log.entries + [entry]), entry.previousHash)
  }

  /** What the hashing sees of a log grows as a chain does. */
  lemma AddedSeen(h: Hash, json: Stringify, log: Log, chainId: string, content: Content)
    ensures ChainOf(json, Added(h, json, log, chainId, content)) == Appended(h, ChainOf(json, log), json(content))
  {
    var all := log.entries + [NewEntry(h, json, log, chainId, content)];
    assert Seen(json, all) == Seen(json, log.entries) + [Entry(json(content), h(json(content) + log.lastHash))];
    assert Seen(json, Truncated(all)) == Truncated(Seen(json, all));
  }

  // ---- The log itself ----

  class AuditLog {
    const hash: Hash
    const json: Stringify
    var chains: map<string, Log>

    constructor (hash: Hash, json: Stringify)
      ensures this.hash == hash && this.json == json && chains == map[]
    {
      this.hash, this.json, chains := hash, json, map[];
    }

    function GetChain(chainId: string): Log
      reads this
    {
      if chainId in chains then chains[chainId] else Log([], GENESIS)
    }

    /** Only the four known fields of the context are kept. */
    method CreateAuditEntry(chainId: string, eventId: string, timestamp: string, eventType: string, severity: string,
                            actor: Actor, action: Action, target: Option<Target>, context: Context)
      returns (entry: AuditEntry)
      modifies this
      ensures var content :=
          Content("egaop-audit/1.0", timestamp, eventId, eventType, severity, actor, target, action, context);
        && entry == NewEntry(hash, json, old(GetChain(chainId)), chainId, content)
        && chains == old(chains)[chainId := Added(hash, json, old(GetChain(chainId)), chainId, content)]
      ensures entry.chainId == chainId && entry.previousHash == hash(json(entry.content) +
        if chainId in old(chains) then old(chains)[chainId].lastHash
        else "0000000000000000000000000000000000000000000000000000000000000000")
      ensures var all := (if chainId in old(chains) then old(chains)[chainId].entries else []) + [entry];
        && chains.Keys == old(chains).Keys + {chainId}
        && chains[chainId] == Log(if |all| > 10_000 then all[|all| - 10_000..] else all, entry.previousHash)
        && forall other :: other in old(chains) && other != chainId ==> chains[other] == old(chains)[other]
    {
      var chain := GetChain(chainId);
      var previousHash := chain.lastHash;
      var content :=
        Content("egaop-audit/1.0", timestamp, eventId, eventType, severity, actor, target, action, context);
      entry := AuditEntry(content, chainId, hash(json(content) + previousHash));
      var entries := chain.entries + [entry];
      if |entries| > MAX_ENTRIES {
        entries := entries[|entries| - MAX_ENTRIES..];
      }
      chains := chains[chainId := Log(entries, entry.previousHash)];
    }
  }

  lemma {:induction false} PrefixVerifies(h: Hash, start: string, entries: seq<Entry>, n: nat)
    requires n <= |entries| && VerifiesFrom(h, start, entries)
    ensures VerifiesFrom(h, start, entries[..n])
  {
    if n < |entries| {
      PrefixVerifies(h, start, entries[..|entries| - 1], n);
      assert entries[..|entries| - 1][..n] == entries[..n];
    } else {
      assert entries[..n] == entries;
    }
  }

  /** The entry carries the hash of its own text followed by the hash before it, or by 64 zeros at the start. */
  predicate LinkHolds(h: Hash, json: Stringify, entries: seq<AuditEntry>, i: nat)
    requires i < |entries|
  {
    entries[i].previousHash == h(json(entries[i].content) +
      if i == 0 then "0000000000000000000000000000000000000000000000000000000000000000"
      else entries[i - 1].previousHash)
  }

  method VerifyAuditChain(h: Hash, json: Stringify, entries: seq<AuditEntry>) returns (ok: bool)
    ensures ok <==> VerifiesFrom(h, GENESIS, Seen(json, entries))
    ensures ok <==> forall i :: 0 <= i < |entries| ==> LinkHolds(h, json, entries, i)
  {
    ghost var seen := Seen(json, entries);
    var previousHash := GENESIS;
    for i := 0 to |entries|
      invariant VerifiesFrom(h, GENESIS, seen[..i]) && previousHash == LastHash(GENESIS, seen[..i])
      invariant previousHash == if i == 0 then GENESIS else entries[i - 1].previousHash
      invariant forall j :: 0 <= j < i ==> LinkHolds(h, json, entries, j)
    {
      var expectedHash := h(json(entries[i].content) + previousHash);
      assert seen[..i + 1][..i] == seen[..i];
      if entries[i].previousHash != expectedHash {
        assert !LinkHolds(h, json, entries, i);
        if VerifiesFrom(h, GENESIS, seen) {
          PrefixVerifies(h, GENESIS, seen, i + 1);
        }
        return false;
      }
      previousHash := entries[i].previousHash;
    }
    assert seen[..|entries|] == seen;
    ok := true;
  }

  // ---- Growth ----

  /** The chain as it would be if nothing were ever dropped. */
  function Linked(h: Hash, texts: seq<string>): seq<Entry> {
    if texts == [] then []
    else
      var before := Linked(h, texts[..|texts| - 1]);
      var text := texts[|texts| - 1];
      before + [Entry(text, h(text + LastHash(GENESIS, before)))]
  }

  function Grown(h: Hash, texts: seq<string>): Chain {
    if texts == [] then NewChain() else Appended(h, Grown(h, texts[..|texts| - 1]), texts[|texts| - 1])
  }

  lemma {:induction false} LinkedVerifies(h: Hash, texts: seq<string>)
    ensures |Linked(h, texts)| == |texts| && VerifiesFrom(h, GENESIS, Linked(h, texts))
    ensures forall i :: 0 <= i < |texts| ==> Linked(h, texts)[i].text == texts[i]
  {
    if texts != [] {
      LinkedVerifies(h, texts[..|texts| - 1]);
      var all := Linked(h, texts);
      assert all[..|all| - 1] == Linked(h, texts[..|texts| - 1]);
    }
  }

  lemma TruncatedTwice(before: seq<Entry>, last: Entry)
    ensures Truncated(Truncated(before) + [last]) == Truncated(before + [last])
  {
    if |before| >= MAX_ENTRIES {
      assert (before[|before| - MAX_ENTRIES..] + [last])[1..] == (before + [last])[|before| + 1 - MAX_ENTRIES..];
    }
  }

  /** A grown chain is the end of the full one, and remembers the full one's last hash. */
  lemma {:induction false} GrownIsSuffix(h: Hash, texts: seq<string>)
    ensures var full := Linked(h, texts);
      && Grown(h, texts).entries == Truncated(full)
      && Grown(h, texts).lastHash == LastHash(GENESIS, full)
  {
    if texts != [] {
      var init, text := texts[..|texts| - 1], texts[|texts| - 1];
      GrownIsSuffix(h, init);
      var before := Linked(h, init);
      TruncatedTwice(before, Entry(text, h(text + LastHash(GENESIS, before))));
    }
  }

  lemma {:induction false} SuffixVerifies(h: Hash, start: string, entries: seq<Entry>, n: nat)
    requires n <= |entries| && VerifiesFrom(h, start, entries)
    ensures VerifiesFrom(h, LastHash(start, entries[..n]), entries[n..])
    ensures LastHash(LastHash(start, entries[..n]), entries[n..]) == LastHash(start, entries)
  {
    if n < |entries| {
      var init := entries[..|entries| - 1];
      SuffixVerifies(h, start, init, n);
      assert init[..n] == entries[..n];
      assert entries[n..][..|entries| - n - 1] == init[n..];
    } else {
      assert entries[..n] == entries;
    }
  }

  /**
   Chain soundness: every chain built entry by entry verifies until it is truncated. After
   that, what is kept is the end of the full chain, in order, and verifies from the hash of
   the entry dropped last.
   */
  lemma ChainSound(h: Hash, texts: seq<string>)
    ensures var kept, full := Grown(h, texts).entries, Linked(h, texts);
      if |texts| <= 10_000 then kept == full && VerifiesFrom(h, GENESIS, kept)
      else
        var n := |texts| - 10_000;
        && |full| == |texts| && |kept| == 10_000 && kept == full[n..]
        && VerifiesFrom(h, full[n - 1].hash, kept)
  {
    GrownIsSuffix(h, texts);
    LinkedVerifies(h, texts);
    if |texts| > MAX_ENTRIES {
      SuffixVerifies(h, GENESIS, Linked(h, texts), |texts| - MAX_ENTRIES);
    }
  }

  /** Verification from two different starts differs only at the first entry. */
  lemma {:induction false} StartMatters(h: Hash, a: string, b: string, entries: seq<Entry>)
    requires entries != [] && VerifiesFrom(h, a, entries)
    ensures VerifiesFrom(h, b, entries) <==> h(entries[0].text + a) == h(entries[0].text + b)
    ensures entries[0].hash == h(entries[0].text + a)
  {
    var init := entries[..|entries| - 1];
    if init != [] {
      StartMatters(h, a, b, init);
    } else {
      assert VerifiesFrom(h, a, init) && VerifiesFrom(h, b, init);
    }
  }

  /**
   Once truncated, a chain no longer passes verifyAuditChain, which always starts from the
   genesis value: it does so exactly when the hash cannot tell the oldest kept entry's true
   predecessor from the genesis value.
   */
  lemma TruncatedVerifiesExactly(h: Hash, texts: seq<string>)
    requires |texts| > 10_000
    ensures var n, full := |texts| - 10_000, Linked(h, texts);
      && |full| == |texts|
      && (VerifiesFrom(h, GENESIS, Grown(h, texts).entries)
          <==> h(texts[n] + full[n - 1].hash) == h(texts[n] + GENESIS))
  {
    ChainSound(h, texts);
    LinkedVerifies(h, texts);
    var n, full := |texts| - MAX_ENTRIES, Linked(h, texts);
    StartMatters(h, full[n - 1].hash, GENESIS, Grown(h, texts).entries);
  }

  // ---- Tamper evidence ----

  /** Everything that was hashed along a chain. */
  function Hashed(start: string, entries: seq<Entry>): set<string> {
    if entries == [] then {}
    else
      var init, last := entries[..|entries| - 1], entries[|entries| - 1];
      Hashed(start, init) + {last.text + LastHash(start, init)}
  }

  /** Two different inputs with the same hash, or one that hashes to the genesis value. */
  ghost predicate Broken(h: Hash, inputs: set<string>) {
    || (exists x, y :: x in inputs && y in inputs && x != y && h(x) == h(y))
    || (exists x :: x in inputs && h(x) == GENESIS)
  }

  lemma BrokenMore(h: Hash, some: set<string>, more: set<string>)
    requires Broken(h, some) && some <= more
    ensures Broken(h, more)
  {
    if x :| x in some && h(x) == GENESIS {
      assert x in more;
    } else {
      var x, y :| x in some && y in some && x != y && h(x) == h(y);
      assert x in more && y in more;
    }
  }

  /** The string hashed for the last entry. */
  function LastInput(entries: seq<Entry>): string
    requires entries != []
  {
    entries[|entries| - 1].text + LastHash(GENESIS, entries[..|entries| - 1])
  }

  lemma GenesisHit(h: Hash, entries: seq<Entry>, inputs: set<string>)
    requires entries != [] && VerifiesFrom(h, GENESIS, entries) && Hashed(GENESIS, entries) <= inputs
    requires LastHash(GENESIS, entries) == GENESIS
    ensures Broken(h, inputs)
  {
    assert LastInput(entries) in inputs && h(LastInput(entries)) == GENESIS;
  }

  /**
   Tamper evidence: two chains that both verify and end in the same hash have the same entries
   in the same order, unless the hash was broken on what they contain.
   */
  lemma {:induction false} TamperEvident(h: Hash, a: seq<Entry>, b: seq<Entry>)
    requires forall x :: |h(x)| == |GENESIS|
    requires VerifiesFrom(h, GENESIS, a) && VerifiesFrom(h, GENESIS, b)
    requires LastHash(GENESIS, a) == LastHash(GENESIS, b)
    ensures a == b || Broken(h, Hashed(GENESIS, a) + Hashed(GENESIS, b))
    decreases |a|
  {
    var inputs := Hashed(GENESIS, a) + Hashed(GENESIS, b);
    if a == [] && b == [] {
    } else if a == [] {
      GenesisHit(h, b, inputs);
    } else if b == [] {
      GenesisHit(h, a, inputs);
    } else if LastInput(a) != LastInput(b) {
      assert LastInput(a) in inputs && LastInput(b) in inputs;
    } else {
      var i, j := a[..|a| - 1], b[..|b| - 1];
      SameParts(h, a[|a| - 1].text, i, b[|b| - 1].text, j);
      TamperEvident(h, i, j);
      TamperLonger(h, a, b);
    }
  }

  lemma TamperLonger(h: Hash, a: seq<Entry>, b: seq<Entry>)
    requires a != [] && b != [] && a[|a| - 1] == b[|b| - 1]
    requires var i, j := a[..|a| - 1], b[..|b| - 1];
      i == j || Broken(h, Hashed(GENESIS, i) + Hashed(GENESIS, j))
    ensures a == b || Broken(h, Hashed(GENESIS, a) + Hashed(GENESIS, b))
  {
    var i, j := a[..|a| - 1], b[..|b| - 1];
    if i == j {
      assert a == i + [a[|a| - 1]] && b == j + [b[|b| - 1]];
    } else {
      BrokenMore(h, Hashed(GENESIS, i) + Hashed(GENESIS, j), Hashed(GENESIS, a) + Hashed(GENESIS, b));
    }
  }

  /** All hashes have the same length, so text and hash can be told apart in their concatenation. */
  lemma SameParts(h: Hash, s: string, i: seq<Entry>, t: string, j: seq<Entry>)
    requires forall x :: |h(x)| == |GENESIS|
    requires VerifiesFrom(h, GENESIS, i) && VerifiesFrom(h, GENESIS, j)
    requires s + LastHash(GENESIS, i) == t + LastHash(GENESIS, j)
    ensures s == t && LastHash(GENESIS, i) == LastHash(GENESIS, j)
  {
    var p, q := LastHash(GENESIS, i), LastHash(GENESIS, j);
    assert |p| == |q| == |GENESIS|;
    assert s == (s + p)[..|s|] && t == (t + q)[..|t|];
    assert p == (s + p)[|s|..] && q == (t + q)[|t|..];
  }

  // ---- Whole entries ----

  /** The log after these contents were added to a new chain, one by one. */
  function LogOf(h: Hash, json: Stringify, chainId: string, contents: seq<Content>): Log {
    if contents == [] then Log([], GENESIS)
    else Added(h, json, LogOf(h, json, chainId, contents[..|contents| - 1]), chainId, contents[|contents| - 1])
  }

  function TextsOf(json: Stringify, contents: seq<Content>): seq<string> {
    seq(|contents|, i requires 0 <= i < |contents| => json(contents[i]))
  }

  lemma {:induction false} LogSeen(h: Hash, json: Stringify, chainId: string, contents: seq<Content>)
    ensures ChainOf(json, LogOf(h, json, chainId, contents)) == Grown(h, TextsOf(json, contents))
  {
    if contents != [] {
      var init, last := contents[..|contents| - 1], contents[|contents| - 1];
      LogSeen(h, json, chainId, init);
      AddedSeen(h, json, LogOf(h, json, chainId, init), chainId, last);
      assert TextsOf(json, contents)[..|contents| - 1] == TextsOf(json, init);
    }
  }

  /** The entries hold the newest of the contents, in order. */
  predicate Holds(entries: seq<AuditEntry>, chainId: string, contents: seq<Content>) {
    && |entries| == (if |contents| > 10_000 then 10_000 else |contents|)
    && forall i :: 0 <= i < |entries| ==>
         entries[i].chainId == chainId && entries[i].content == contents[|contents| - |entries| + i]
  }

  lemma AddedHolds(h: Hash, json: Stringify, chainId: string, log: Log, contents: seq<Content>, content: Content)
    requires Holds(log.entries, chainId, contents)
    ensures Holds(Added(h, json, log, chainId, content).entries, chainId, contents + [content])
  {
    var entry := NewEntry(h, json, log, chainId, content);
    var all, more := log.entries + [entry], contents + [content];
    var kept, n := Truncated(all), |log.entries|;
    assert kept == all[|all| - |kept|..];
    forall i | 0 <= i < |kept|
      ensures kept[i].chainId == chainId && kept[i].content == more[|more| - |kept| + i]
    {
      var j := |all| - |kept| + i;
      assert kept[i] == all[j];
      if j < n {
        assert log.entries[j].content == contents[|contents| - n + j];
      }
    }
  }

  lemma {:induction false} LogHolds(h: Hash, json: Stringify, chainId: string, contents: seq<Content>)
    ensures Holds(LogOf(h, json, chainId, contents).entries, chainId, contents)
  {
    if contents != [] {
      var init := contents[..|contents| - 1];
      LogHolds(h, json, chainId, init);
      var log := LogOf(h, json, chainId, init);
      AddedHolds(h, json, chainId, log, init, contents[|contents| - 1]);
      assert init + [contents[|contents| - 1]] == contents;
    }
  }

  /**
   A log of at most 10000 entries passes verification and holds exactly what was logged, in order;
   a longer one holds the newest 10000 of them.
   */
  lemma LoggedEntriesVerify(h: Hash, json: Stringify, chainId: string, contents: seq<Content>)
    ensures var entries := LogOf(h, json, chainId, contents).entries;
      && (|contents| <= 10_000 ==> VerifiesFrom(h, GENESIS, Seen(json, entries)))
      && Holds(entries, chainId, contents)
  {
    LogHolds(h, json, chainId, contents);
    if |contents| <= 10_000 {
      LogVerifies(h, json, chainId, contents);
    }
  }

  lemma LogVerifies(h: Hash, json: Stringify, chainId: string, contents: seq<Content>)
    requires |contents| <= 10_000
    ensures VerifiesFrom(h, GENESIS, Seen(json, LogOf(h, json, chainId, contents).entries))
  {
    LogSeen(h, json, chainId, contents);
    ChainSound(h, TextsOf(json, contents));
    assert ChainOf(json, LogOf(h, json, chainId, contents)).entries == Grown(h, TextsOf(json, contents)).entries;
  }

  /** Two different contents with one JSON text. */
  predicate SameText(json: Stringify, a: Content, b: Content) {
    a != b && json(a) == json(b)
  }

  /**
   Tamper evidence for whole entries: two logs that verify and end in the same hash have, place by
   place, the same contents and hashes, unless the hash was broken or two contents print alike.
   */
  lemma ContentsTamperEvident(h: Hash, json: Stringify, a: seq<AuditEntry>, b: seq<AuditEntry>)
    requires forall x :: |h(x)| == |GENESIS|
    requires VerifiesFrom(h, GENESIS, Seen(json, a)) && VerifiesFrom(h, GENESIS, Seen(json, b))
    requires LastHash(GENESIS, Seen(json, a)) == LastHash(GENESIS, Seen(json, b))
    ensures Broken(h, Hashed(GENESIS, Seen(json, a)) + Hashed(GENESIS, Seen(json, b))) ||
      (|a| == |b| && forall i :: 0 <= i < |a| ==>
        && a[i].previousHash == b[i].previousHash
        && (a[i].content == b[i].content || SameText(json, a[i].content, b[i].content)))
  {
    TamperEvident(h, Seen(json, a), Seen(json, b));
    if Seen(json, a) == Seen(json, b) {
      assert |a| == |Seen(json, a)| && |b| == |Seen(json, b)|;
      forall i | 0 <= i < |a|
        ensures json(a[i].content) == json(b[i].content) && a[i].previousHash == b[i].previousHash
      {
        assert Seen(json, a)[i] == Seen(json, b)[i];
      }
    }
  }

  /** The chain id is not hashed: changing it in any entry goes unnoticed. */
  lemma ChainIdUnprotected(h: Hash, json: Stringify, entries: seq<AuditEntry>, i: nat, other: string)
    requires i < |entries|
    ensures VerifiesFrom(h, GENESIS, Seen(json, entries[i := entries[i].(chainId := other)]))
       <==> VerifiesFrom(h, GENESIS, Seen(json, entries))
  {
    assert Seen(json, entries[i := entries[i].(chainId := other)]) == Seen(json, entries);
  }
}
