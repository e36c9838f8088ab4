# E-GAOP, verified

A Dafny model of the self-contained algorithms and protocols of E-GAOP, the control plane for AI
agents, with proofs of what they promise. `dafny verify dfyconfig.toml` checks all of it.

Four groups, one module per component:

- **Concurrent resource protocols.** `Semaphores` (the FIFO semaphore with timeouts),
  `SandboxDrivers` (container slots of the Docker driver), `WriteQueues` (the durable write queue
  with its single flush loop) and `PolicyPlane` (circuit breaker, decision cache and the OPA call
  between them). JavaScript code between two awaits is one atomic step. Each component is a class
  whose methods are these steps, a function per step that says what it computes, and a machine
  over all interleavings of the steps, about which the main results are proved.
- **Stores with history.** `AgentVersions` (agent rows with version snapshots; every SQL statement
  is a step), `AgentPages` (keyset pagination) and `AuditChains` (the hash chain).
- **Printers and parsers.** `CanonicalJson` with `JsonParser` (cache identity), `Jwt` (base64url
  and HS256 tokens), `SandboxIps` (IPv4 and CIDR) and `StreamLines` (the chunked line splitter).
- **Time windows.** `RateLimiting`, `TokenBudgets` and `SloTrackers`.

`JsText` holds the JavaScript string operations several components share, as sequences of UTF-16
code units, `Arithmetic` facts about quotients and powers of two, `Sequences` places of a sequence,
and `Options` the option type.

What an operation means is stated in the fields it reads and writes and in numbers, apart from the
functions that compute it: row by row, place by place, unit by unit.

Conventions. The clock is an integer argument that never goes back over a run. SHA-256, HMAC, the
JSON codec of tokens and SQL's `ILIKE` are function parameters about which nothing is assumed
beyond what a lemma says; results that need a good hash function say instead "or the hash
function was broken, on these inputs". Docker, OPA and the durable store answer as they like.
Amounts of money and tokens, and rates, are real numbers. Fields marked ghost in a class record
what the outside world has seen, for the proofs only.

## What turned out otherwise

Where the code does not do what its name, comment or documentation suggests, the model follows the
code. For each case lemmas give the exact condition, and a failing input or run where the condition
does not show it.

- The default daily token budget is 1, not a million: `parseInt` stops at the underscore of
  `1_000_000` (`TokenBudgets.DefaultTokenLimit`). It reads white space, one sign and the digits that
  follow, and ignores the rest (`TokenBudgets.ParseIntReads`).
- When a write is accepted into a full queue while another one is being stored, the next answer of
  the store loses yet another one if it settles the write: if the store succeeds, or the try was the
  last one; with a try left after a failure nothing is lost (`WriteQueues.SecondWriteLost`; exactly
  then: `WriteQueues.OverflowLosesExactly`, and over whole runs `WriteQueues.PlacedExactly`). After
  such an overflow a disposed queue can ask the store once more than its queued writes have tries
  left (`WriteQueues.OrphanAnswersOnceMore`; exactly when: `WriteQueues.TriesBoundExactly`).
- A `cleanup` that overlaps a `terminateSandbox` of the same container, or a termination of a
  container the driver does not count, gives a slot back twice
  (`SandboxDrivers.OverlapRunLosesSlot`; exactly then: `SandboxDrivers.StepExact`, and over whole
  runs `SandboxDrivers.BooksExactly`).
- Version snapshots are looked up by name: after a soft delete, rolling back the next agent of
  that name can restore the deleted one's content (`AgentVersions.ReusedNameRestoresOther`). It
  restores the agent's own exactly when the snapshot found is of the agent itself, or the contents
  happen to agree (`AgentVersions.RollbackRestoresExactly`).
- Overlapping updates can skip a version's snapshot (`AgentVersions.OverlapLosesVersion`): exactly
  when an UPDATE meets a row whose present version has none (`AgentVersions.WriteKeepsExactly`,
  `AgentVersions.HistoryKeptExactly`), which a caller can avoid (`AgentVersions.CallCovered`).
- `totalCount` is counted behind the cursor, so it shrinks page by page (`AgentPages.TotalShrinks`);
  it is the number of matching rows exactly when all of them are behind the cursor
  (`AgentPages.TotalExactly`). A page size of zero throws on the missing last row
  (`AgentPages.ListByNamespace`).
- A truncated audit chain no longer passes `verifyAuditChain`
  (`AuditChains.TruncatedVerifiesExactly`). The chain id of an entry is not hashed, so changing it
  always goes unnoticed (`AuditChains.ChainIdUnprotected`).
- The policy path is not part of the decision cache's key, so an allow on one path answers the same
  input on another (`PolicyPlane.OtherPathAllowed`). Every allow is OPA's answer on the call's own
  path exactly if each key is asked on one path only, or the time to live is negative
  (`PolicyPlane.OwnPathExactly`).
- An array of one hole has the cache key of the empty array (`CanonicalJson.HoleCollides`). A value
  is read back from its canonical text exactly when its arrays have no holes
  (`CanonicalJson.ReadBackExactly`), and these are also exactly the values whose cache key agrees with
  that of the values without holes that mean the same, and of no others
  (`CanonicalJson.IdentityExactly`): a value with a hole never has the key of the same value with
  null there (`CanonicalJson.HoleSplits`).
- `verifyJWT` throws instead of answering when the header is the JSON text `null`, which takes no
  secret, or the payload of an authentic token is (`Jwt.NullHeaderThrows`, `Jwt.NullPayloadThrows`;
  exactly then: `Jwt.ThrowsExactly`). An empty secret cannot be retired: as the old secret it is
  never tried (`Jwt.EmptyOldSecretIgnored`).
- An SLO history with a maximum of zero is never trimmed, because `slice(-0)` keeps everything
  (`SloTrackers.HistoryBounded`). The availability views disagree for a target above one when
  nothing fails, and compliance and the error budget disagree without requests, unless the target
  is at most one exactly when nothing failed (`SloTrackers.BurnAgreesExactly`,
  `SloTrackers.BudgetAgreesExactly`). Those of a latency objective disagree when a percentile that
  is not positive misses a negative target (`SloTrackers.LatencyViewsExactly`). An error budget
  of nothing, with no failure, is shown as consumed and wholly remaining at once
  (`SloTrackers.ShareExactly`), and a latency budget is called consumed at the target but runs out at
  twice the target (`SloTrackers.LatencyLeftExactly`). The shown SLI can meet a target that the
  objective misses, by up to half a unit of the sixth decimal (`SloTrackers.ShownExactly`).
- With a limit below one request the rate limiter denies everything, and its advice is not a number
  (`RateLimiting.AdviceIsNumber`, `RateLimiting.RetryAdviceExact`). With a threshold below one the
  circuit breaker starts out Closed all the same (`PolicyPlane.BreakerClosedExactly`).
- The comment beside the always-denied blocks names the reserved addresses, but 240.0.0.0/4 is in
  none of them: a list that contains it admits it (`SandboxIps.ReservedAdmitted`; what is admitted,
  exactly: `SandboxIps.AllowedExactly`).

## Model

| member | source | states |
|---|---|---|
| `CanonicalJson.CanonicalIdentity` | packages/shared/src/crypto/index.ts:113-128 | two values have one canonical text if and only if they mean the same JSON: key order forgotten, undefined fields dropped, undefined elsewhere and whatever JSON cannot express read as null |
| `CanonicalJson.CanonicalParses` | packages/shared/src/crypto/index.ts:113-128 | a JSON parser (RFC 8259) applied to the canonical text, with any text after it that does not go on with a numeral, returns the value's meaning and exactly that rest |
| `CanonicalJson.SameMeaningSameText` | packages/shared/src/crypto/index.ts:121-127 | equal meaning gives equal text whatever order the objects' fields were created in and wherever undefined fields stood |
| `CanonicalJson.SortMeans` | packages/shared/src/crypto/index.ts:121 | sorting the keys changes neither which fields an object has nor their values |
| `CanonicalJson.KeysAscend` | packages/shared/src/crypto/index.ts:121 | for any two fields in the order of printing, the key of the first has the smaller code unit at the first place where they differ, or ends there |
| `CanonicalJson.EscapeParses` | packages/shared/src/crypto/index.ts:115 | every JavaScript string, lone surrogates included, is escaped so that unescaping gives it back |
| `CanonicalJson.EscapeWritten` | packages/shared/src/crypto/index.ts:115 | a string is printed unit by unit, in numbers: two-character escapes for quote, backslash and five control characters, lower-case u escapes for the other control characters and lone surrogates, surrogate pairs and everything else as they are |
| `CanonicalJson.PrintedAs` | packages/shared/src/crypto/index.ts:113-128 | the brackets, commas, words and quotes around them, in numbers: what is printed for each kind of value, undefined and unprintable ones as null |
| `CanonicalJson.PartPrinted` | packages/shared/src/crypto/index.ts:122-125 | a field is printed as its key in quotes, a colon and its value |
| `CanonicalJson.CanonicalPaired` | packages/shared/src/crypto/index.ts:130-132 | the canonical text has no lone surrogate, so encoding it as UTF-8 for the hash loses nothing |
| `CanonicalJson.CacheKeys` | packages/shared/src/crypto/index.ts:130-132 | two cache keys agree if and only if the inputs mean the same JSON or their two different texts collide under the hash function |
| `CanonicalJson.ReadBackExactly` | packages/shared/src/crypto/index.ts:117-118 | a value is what its canonical text means if and only if no array in it has a hole |
| `CanonicalJson.IdentityExactly` | packages/shared/src/crypto/index.ts:113-132 | a value prints like exactly those values without holes that mean the same if and only if it has no hole itself |
| `CanonicalJson.HoleSplits` | packages/shared/src/crypto/index.ts:118 | a value with a hole anywhere prints differently from the same value with null in its holes, which means the same and has none |
| `CanonicalJson.HoleCollides` | packages/shared/src/crypto/index.ts:118 | an array of one hole prints like the empty array |
| `CanonicalJson.Canonicalize` | packages/shared/src/crypto/index.ts:113-128 | the recursive printer throws exactly on a BigInt it meets and otherwise computes the canonical text the other results are about |
| `CanonicalJson.CanonicalizeFields` | packages/shared/src/crypto/index.ts:121-126 | the accumulation loop over the sorted keys gathers exactly the parts of the defined fields, in that order, or throws on a BigInt among them |
| `CanonicalJson.CanonicalizeAll` | packages/shared/src/crypto/index.ts:118 | mapping over an array gives the canonical texts of its elements in order, passing holes over, or throws on a BigInt |
| `AgentVersions.SnapshotsFaithful` | control-plane/api-server/src/agents/repository.ts:178-316 | over every interleaving of updates, rollbacks, creations and deletions, a snapshot of version v holds exactly what its agent had whenever it was at v, and the agent was at v at some point |
| `AgentVersions.RunOnward` | control-plane/api-server/src/agents/repository.ts:178-316 | over every run rows keep their names, versions never go down, and content never changes without its version |
| `AgentVersions.RollbackRestoresFound` | control-plane/api-server/src/agents/repository.ts:289-316 | under every interleaving a rollback writes what the agent its snapshot came from had at the target version, and moves the live row to a new version |
| `AgentVersions.RollbackRestoresExactly` | control-plane/api-server/src/agents/repository.ts:289-316 | under every interleaving a rollback restores the agent's own content at the target version if and only if the snapshot found is of that agent or the two agents' contents at that version agree |
| `AgentVersions.RollbackRestores` | control-plane/api-server/src/agents/repository.ts:289-316 | if the snapshot found carries the agent's own id, that is what the rolled back agent itself had at the target version |
| `AgentVersions.UniqueNameFindsOwn` | control-plane/api-server/src/agents/repository.ts:278-287 | a name that was never reused has no other agent's snapshots |
| `AgentVersions.ReusedNameRestoresOther` | control-plane/api-server/src/agents/repository.ts:278-287 | a concrete run: after a soft delete, rolling back the next agent of the name restores the deleted agent's content |
| `AgentVersions.HistoryKeptExactly` | control-plane/api-server/src/agents/repository.ts:178-316 | all through a run, whatever the interleaving, every past version has its snapshot if and only if every UPDATE met only rows whose present version was already saved |
| `AgentVersions.WriteKeepsExactly` | control-plane/api-server/src/agents/repository.ts:226-235 | an UPDATE keeps the history complete if and only if it updates nothing or every live row of the name has a snapshot of its present version |
| `AgentVersions.OthersKeep` | control-plane/api-server/src/agents/repository.ts:145-316 | no other statement of any call, creation or deletion loses a version |
| `AgentVersions.CallCovered` | control-plane/api-server/src/agents/repository.ts:192-235 | a call whose own snapshot succeeded loses no version if nobody else wrote to the name or created it between its SELECT and its UPDATE |
| `AgentVersions.RunOneLive` | migrations/003_namespaces_and_audit.sql:50-51 | over every run no two live rows have one name |
| `AgentVersions.SequentialComplete` | control-plane/api-server/src/agents/repository.ts:178-316 | in every sequential run without snapshot failures every past version of every agent has its snapshot |
| `AgentVersions.OverlapLosesVersion` | control-plane/api-server/src/agents/repository.ts:192-206 | a concrete run of two overlapping updates: the agent passes through version 2, which has no snapshot |
| `AgentVersions.RollbackThenUndo` | control-plane/api-server/src/agents/repository.ts:278-316 | after any sequential run a rollback to any past version finds a snapshot and, whichever matching row the database returns, restores its content; a second rollback to the version left behind finds one too and, whichever row it gets, undoes the first |
| `AgentVersions.SoftDeleteChanges` | control-plane/api-server/src/agents/repository.ts:240-251 | in every state of a run a deletion marks the live rows of the name deleted, keeps the rest of them, and touches no other row, no snapshot and no call |
| `AgentVersions.WriteChanges` | control-plane/api-server/src/agents/repository.ts:226-310 | the UPDATE of a call moves exactly the live rows of its name to the next version, with the given columns laid over key by key or the content of the snapshot found, and changes nothing else |
| `AgentVersions.ReadThenSave` | control-plane/api-server/src/agents/repository.ts:189-306 | the SELECT and the INSERT before it save the live row as it is, or end a rollback; they change no agent row |
| `AgentVersions.SearchChanges` | control-plane/api-server/src/agents/repository.ts:273-291 | a call begins with its arguments; its search takes a row of that name and version, and only without one it ends |
| `AgentVersions.RollbackUninterrupted` | control-plane/api-server/src/agents/repository.ts:289-316 | the statements of a rollback, run without interruption, change the two tables as the method does |
| `AgentVersions.UpdateUninterrupted` | control-plane/api-server/src/agents/repository.ts:178-238 | the same for an update, whether or not its snapshot statement succeeds |
| `AgentVersions.ClausesMerge` | control-plane/api-server/src/agents/repository.ts:207-224 | the SET clauses built up for the parameters given merge exactly those columns; there are none exactly when no parameter is given |
| `AgentVersions.AgentRepository.Create` | control-plane/api-server/src/agents/repository.ts:145-176 | a row at version 1, refused exactly when a row of the name is not deleted |
| `AgentVersions.AgentRepository.CreateVersionSnapshot` | control-plane/api-server/src/agents/repository.ts:255-264 | one more snapshot row, or none when the statement fails |
| `AgentVersions.AgentRepository.GetVersion` | control-plane/api-server/src/agents/repository.ts:278-287 | some snapshot of that name and version, none only if there is none |
| `AgentVersions.AgentRepository.Update` | control-plane/api-server/src/agents/repository.ts:178-238 | the live row is saved to the snapshots as it was if the snapshot statement succeeds; then, row by row, the live ones of the name get the next version and each column given is laid over key by key, and every other row stays |
| `AgentVersions.AgentRepository.SoftDelete` | control-plane/api-server/src/agents/repository.ts:240-251 | row by row: a live row of the name is marked deleted and otherwise kept, every other row stays as it is; the row is returned, or null without one |
| `AgentVersions.AgentRepository.RollbackToVersion` | control-plane/api-server/src/agents/repository.ts:289-316 | null exactly without a live row or a snapshot of that name and version; otherwise the present state is saved and the live row gets the next version and a snapshot's whole content, every other row staying, or nothing changes and it throws when saving fails |
| `AgentPages.WalkAscending` | control-plane/api-server/src/agents/repository.ts:83-143 | following nextCursor never shows an id twice and shows ids in order, whatever happens to the table between the pages |
| `AgentPages.WalkSkipsNothing` | control-plane/api-server/src/agents/repository.ts:83-143 | a row that keeps matching while the pages are read has been shown when the walk ends |
| `AgentPages.ShownExactlyOnce` | control-plane/api-server/src/agents/repository.ts:83-143 | it is shown exactly once |
| `AgentPages.WalkShowsMatches` | control-plane/api-server/src/agents/repository.ts:130-139 | every row shown was in the table and matched when its page was read |
| `AgentPages.UnchangedWalk` | control-plane/api-server/src/agents/repository.ts:130-142 | on an unchanged table of m matching rows the walk ends with page floor(m / n) + 1 and shows exactly the matching rows |
| `AgentPages.MatchingPlaces` | control-plane/api-server/src/agents/repository.ts:95-128 | the rows asked for are exactly those at the places whose row has the namespace, is not deleted, has the phase, every label with its value and the search text, and an id above the cursor, in order |
| `AgentPages.UnchangedWalkShows` | control-plane/api-server/src/agents/repository.ts:130-142 | told by places: a walk over an unchanged table shows every such row, in order, and no other |
| `AgentPages.TotalShrinks` | control-plane/api-server/src/agents/repository.ts:119-128 | totalCount leaves out the rows before the cursor: each full page lowers it by the page size |
| `AgentPages.TotalExactly` | control-plane/api-server/src/agents/repository.ts:119-128 | totalCount is the number of matching rows if and only if all of them are beyond the cursor, and never more |
| `AgentPages.ListByNamespace` | control-plane/api-server/src/agents/repository.ts:83-143 | INVALID_ARGUMENT, with the first label key that is not one to 63 letters, digits, underscores, dots and hyphens beginning with a letter or digit, exactly when there is one; otherwise the first rows at the places asked for, fifty or as many as given up to a hundred, their total and the next cursor; failing exactly for page sizes below one |
| `AgentPages.ReadPage` | control-plane/api-server/src/agents/repository.ts:119-142 | the first rows up to the limit, the last id of a full page as the next cursor, and the number of all rows |
| `AuditChains.ChainSound` | packages/shared/src/audit/index.ts:90-141 | every chain built entry by entry verifies until it is truncated; then the kept entries are the end of the full chain and verify from the hash of the entry dropped last |
| `AuditChains.LoggedEntriesVerify` | packages/shared/src/audit/index.ts:95-141 | a log of at most 10000 entries passes verification and holds exactly what was logged, in order; a longer one holds the newest 10000 |
| `AuditChains.TruncatedVerifiesExactly` | packages/shared/src/audit/index.ts:209-218 | a truncated chain passes verification if and only if the hash cannot tell the oldest kept entry's predecessor from the genesis value |
| `AuditChains.TamperEvident` | packages/shared/src/audit/index.ts:209-218 | two verifying chains with equal last hashes have equal entries in the same order, or two hashed inputs collide or one hashes to the genesis value |
| `AuditChains.ContentsTamperEvident` | packages/shared/src/audit/index.ts:209-218 | two verifying logs with equal last hashes have the same contents and hashes place by place, unless the hash was broken or two contents have one JSON text |
| `AuditChains.ChainIdUnprotected` | packages/shared/src/audit/index.ts:209-218 | changing the chain id of any entry changes nothing about verification |
| `AuditChains.VerifyAuditChain` | packages/shared/src/audit/index.ts:209-218 | the loop accepts exactly the chains whose every entry carries the hash of its text followed by the hash before it, or by 64 zeros at the start |
| `AuditChains.AuditLog.CreateAuditEntry` | packages/shared/src/audit/index.ts:90-141 | the entry is put together from the arguments, its hash taken over its text and the last hash of the chain or 64 zeros, and appended; the newest 10000 entries are kept, and the other chains stay |
| `Semaphores.SemaphoreSafety` | packages/shared/src/grpc/async-semaphore.ts:20-48 | over every run outstanding grants equal current and never exceed max, calls wait only while every slot is taken, and each call is either waiting or resolved, exactly once |
| `Semaphores.NeverGrantedAfterTimeout` | packages/shared/src/grpc/async-semaphore.ts:27-34 | a call that timed out is never granted, however the run goes on |
| `Semaphores.GrantedWithin` | packages/shared/src/grpc/async-semaphore.ts:40-48 | a waiter with k ahead of it is granted within k + 1 releases unless it times out |
| `Semaphores.NoOvertaking` | packages/shared/src/grpc/async-semaphore.ts:40-48 | no barging, exactly: a waiter moves up by one with each release and each time-out ahead of it and by nothing else, and is granted with the one after the k-th |
| `Semaphores.StepSafe` | packages/shared/src/grpc/async-semaphore.ts:20-48 | each operation keeps the limit, loses no call and accounts for every slot |
| `Semaphores.AsyncSemaphore.Make` | packages/shared/src/grpc/async-semaphore.ts:10-13 | a limit below one is refused |
| `Semaphores.AsyncSemaphore.Acquire` | packages/shared/src/grpc/async-semaphore.ts:20-38 | a free slot is taken at once, otherwise the call queues last |
| `Semaphores.AsyncSemaphore.OnTimeout` | packages/shared/src/grpc/async-semaphore.ts:27-34 | the waiter leaves the queue with the answer false; a call no longer waiting is not touched |
| `Semaphores.AsyncSemaphore.Release` | packages/shared/src/grpc/async-semaphore.ts:40-48 | the slot passes to the first waiter, current unchanged; without waiters current goes down, never below zero |
| `SandboxDrivers.SlotsConserved` | execution-plane/sandbox-runtime/src/docker-driver.ts:47-203 | over every run in which callers terminate only this driver's containers and cleanup overlaps no termination: running equals creations holding a slot plus active containers, stays within the limit, and calls wait only when it is full |
| `SandboxDrivers.StepExact` | execution-plane/sandbox-runtime/src/docker-driver.ts:180-203 | a step keeps these books if and only if it gives no slot back for a container the driver does not count (or no slot is taken at all) |
| `SandboxDrivers.BooksExactly` | execution-plane/sandbox-runtime/src/docker-driver.ts:180-203 | the books are right all through a run of a new driver, whatever its callers do, if and only if every slot given back is for a container the driver counts or finds no slot taken |
| `SandboxDrivers.OverlapLosesSlot` | execution-plane/sandbox-runtime/src/docker-driver.ts:180-203 | a cleanup that overlaps the termination of the same container gives its slot back twice |
| `SandboxDrivers.OverlapRunLosesSlot` | execution-plane/sandbox-runtime/src/docker-driver.ts:180-203 | a concrete run: afterwards running counts no slot although a creation holds one |
| `SandboxDrivers.FailureReturnsOneSlot` | execution-plane/sandbox-runtime/src/docker-driver.ts:77-178 | every failure path of createSandbox gives back exactly one slot, to the first waiter if there is one; a time-out gives none back |
| `SandboxDrivers.RemovalsKept` | execution-plane/sandbox-runtime/src/docker-driver.ts:180-203 | callers that keep to those rules never make the driver give back a slot for an uncounted container |
| `SandboxDrivers.CleanupSweepsAll` | execution-plane/sandbox-runtime/src/docker-driver.ts:192-203 | in every run a cleanup has one turn for each container active at its start, whether or not Docker removes it, and none of them is active after the last turn |
| `SandboxDrivers.DockerSandboxDriver.constructor` | execution-plane/sandbox-runtime/src/docker-driver.ts:40-45 | an idle driver with room for at least one container |
| `SandboxDrivers.DockerSandboxDriver.AcquireContainerSlot` | execution-plane/sandbox-runtime/src/docker-driver.ts:47-65 | a free slot is taken at once, otherwise the creation queues last |
| `SandboxDrivers.DockerSandboxDriver.OnAcquireTimeout` | execution-plane/sandbox-runtime/src/docker-driver.ts:54-61 | the creation leaves the queue and fails without a slot |
| `SandboxDrivers.DockerSandboxDriver.ReleaseContainerSlot` | execution-plane/sandbox-runtime/src/docker-driver.ts:67-75 | the slot passes to the first waiting creation, or running goes down |
| `SandboxDrivers.DockerSandboxDriver.OnSlot` | execution-plane/sandbox-runtime/src/docker-driver.ts:109-117 | an image outside the allowlist gives the slot back before Docker is asked |
| `SandboxDrivers.DockerSandboxDriver.OnCreated` | execution-plane/sandbox-runtime/src/docker-driver.ts:115-131 | without a container the creation fails and gives its slot back |
| `SandboxDrivers.DockerSandboxDriver.OnStarted` | execution-plane/sandbox-runtime/src/docker-driver.ts:131-132 | a started container becomes active, taking over the creation's slot |
| `SandboxDrivers.DockerSandboxDriver.OnRemoveDone` | execution-plane/sandbox-runtime/src/docker-driver.ts:171-177 | after a failed start the slot goes back whether or not the container could be removed |
| `SandboxDrivers.DockerSandboxDriver.OnTerminateResume` | execution-plane/sandbox-runtime/src/docker-driver.ts:180-190 | the container is no longer active and its slot goes back |
| `SandboxDrivers.DockerSandboxDriver.OnCleanupNext` | execution-plane/sandbox-runtime/src/docker-driver.ts:192-203 | the same for the next container of a sweep, even if Docker could not remove it |
| `WriteQueues.WritesConserved` | memory-plane/src/write-queue.ts:31-92 | over every run that accepts nothing into a full queue during a store each accepted write is, exactly once, persisted, permanently failed, dropped or pending |
| `WriteQueues.TriesAndOrder` | memory-plane/src/write-queue.ts:31-92 | in every run whatsoever writes are persisted in acceptance order, each at most once and never after failing; each is tried at most maxAttempts times, exactly that often if it failed, and its backoff never exceeds backoffBaseMs * (2^(maxAttempts-1) - 1) |
| `WriteQueues.OverflowLosesExactly` | memory-plane/src/write-queue.ts:31-92 | when a write is accepted while another is being stored, the store's answer leaves some write in no place if and only if the queue was full and the answer settles the write, by storing it or failing its last try |
| `WriteQueues.OverflowAfterRun` | memory-plane/src/write-queue.ts:31-92 | that condition is exact, for either answer, at every point of every run without an earlier overflow during a store |
| `WriteQueues.PlacedExactly` | memory-plane/src/write-queue.ts:31-92 | every accepted write is in exactly one place all through a run if and only if every answer that settles a write finds that write at the head of the queue |
| `WriteQueues.SecondWriteLost` | memory-plane/src/write-queue.ts:33-36 | a concrete run: with a queue of one the second of two writes is lost |
| `WriteQueues.NoLostWakeup` | memory-plane/src/write-queue.ts:31-92 | in every run whatsoever a non-empty queue has exactly one flush loop running and an empty one none |
| `WriteQueues.DrainTerminates` | memory-plane/src/write-queue.ts:49-52 | after dispose nothing is accepted; the store is asked at most Most times, which is the tries left of the queued writes corrected for a write in flight that an overflow dropped, after which the queue is empty and the loop ended; until then the loop always waits for something |
| `WriteQueues.MostReached` | memory-plane/src/write-queue.ts:67-92 | a store that always fails is asked exactly that often, so the bound is the least one |
| `WriteQueues.TriesBoundExactly` | memory-plane/src/write-queue.ts:67-92 | the tries left of the queued writes alone bound the answers if and only if the write in flight was not dropped by an overflow with another try to come |
| `WriteQueues.OrphanAnswersOnceMore` | memory-plane/src/write-queue.ts:67-92 | a concrete run in which three answers follow two tries left |
| `WriteQueues.DisposeAnywhere` | memory-plane/src/write-queue.ts:49-52 | every run whatsoever leaves every queued write a try, so these bounds apply to a dispose at any point of any run |
| `WriteQueues.DrainAfterAnyRun` | memory-plane/src/write-queue.ts:49-52 | the two together, from a new queue on |
| `WriteQueues.MemoryWriteQueue.EnqueueWrite` | memory-plane/src/write-queue.ts:31-39 | refused once disposed; otherwise queued last, after dropping the oldest write of a full queue, with a flush loop started if none runs |
| `WriteQueues.MemoryWriteQueue.DropOldest` | memory-plane/src/write-queue.ts:54-65 | the oldest queued write, if any, is dropped |
| `WriteQueues.MemoryWriteQueue.LoopTop` | memory-plane/src/write-queue.ts:67-73 | the loop tries the oldest write, or ends and clears its promise when there is none |
| `WriteQueues.MemoryWriteQueue.OnSetDone` | memory-plane/src/write-queue.ts:72-91 | a stored write, or one out of tries, leaves the head of the queue at once; otherwise the loop backs off for exactly base times two to the tries before this one, and nothing else changes but the count of tries |
| `WriteQueues.MemoryWriteQueue.BeginDispose` | memory-plane/src/write-queue.ts:49-52 | only the disposed flag changes |
| `PolicyPlane.FailsClosed` | policy-plane/src/service.ts:260-379 | over every interleaving of calls, allow is returned only if the breaker admitted the call and OPA answered a 2xx with allow set to true for the same key, to this call or at most ttlMs ago; on the call's own path if the key was asked on no other |
| `PolicyPlane.EveryReturnExplained` | policy-plane/src/service.ts:260-379 | over every interleaving, each return is a refusal by an open breaker, a denial for a failed call, or just what a 2xx reply for the same key says, with the reason it gives |
| `PolicyPlane.ReplyDecides` | policy-plane/src/service.ts:304-379 | conversely, a 2xx reply decides the call that asked, allow exactly if the field is true, and answers that key from the cache until ttlMs later; any other reply leaves the cache alone |
| `PolicyPlane.OtherPathAllowed` | policy-plane/src/service.ts:289-302 | a run on two policy paths, for every breaker and every cache that can hit: OPA's allow on one path answers the same input on the other |
| `PolicyPlane.OwnPathExactly` | policy-plane/src/service.ts:289-302 | over all runs that ask given (path, key) pairs every allow is OPA's answer on the call's own path if and only if the pairs give each key one path, or the time to live is negative |
| `PolicyPlane.BreakerClosedExactly` | policy-plane/src/service.ts:44-84 | over every run Closed means exactly that failureCount is below the threshold, if and only if the threshold is at least one |
| `PolicyPlane.FailedProbeReopens` | policy-plane/src/service.ts:56-80 | one failed half-open probe reopens the breaker, which then refuses until exactly recoveryTimeMs later |
| `PolicyPlane.RefusedExactly` | policy-plane/src/service.ts:44-80 | for a threshold of at least one, a call is refused exactly if at least threshold failures have come since the last success, and neither it nor any call before it has come recoveryTimeMs after the last of them |
| `PolicyPlane.BreakerFollows` | policy-plane/src/service.ts:260-379 | over every run the breaker has the history of the calls: each asks it, a 2xx reply is a success and anything else a failure |
| `PolicyPlane.CacheStaysBounded` | policy-plane/src/service.ts:105-132 | over every run of evaluations and evictions the cache keeps one entry per key and no more entries than its size, or one entry when the size is below one |
| `PolicyPlane.StoredThenFound` | policy-plane/src/service.ts:105-123 | a stored decision is found until it expires; storing removes no other key's entry but the oldest of a full cache |
| `PolicyPlane.EvictionInvisible` | policy-plane/src/service.ts:125-132 | evicting expired entries changes no later look-up |
| `PolicyPlane.EvictStepInvisible` | policy-plane/src/service.ts:125-132 | in a run an eviction changes nothing but the cache, and no later look-up |
| `PolicyPlane.CircuitBreaker.RecordFailure` | policy-plane/src/service.ts:56-62 | one more failure at this time; Open from the threshold on |
| `PolicyPlane.CircuitBreaker.RecordSuccess` | policy-plane/src/service.ts:64-67 | Closed, and no failures counted |
| `PolicyPlane.CircuitBreaker.Admit` | policy-plane/src/service.ts:69-80 | refused exactly while Open and not yet recovered; an admitted call of an open breaker half-opens it |
| `PolicyPlane.LRUCache.Get` | policy-plane/src/service.ts:105-113 | an unexpired entry is returned, an expired one removed |
| `PolicyPlane.LRUCache.Set` | policy-plane/src/service.ts:115-123 | at capacity the oldest entry goes first, even when the key is replaced |
| `PolicyPlane.LRUCache.EvictExpired` | policy-plane/src/service.ts:125-132 | exactly the expired entries go, the others keep their order |
| `PolicyPlane.PolicyPlaneService.BeginEvaluate` | policy-plane/src/service.ts:260-303 | denied by the breaker, answered from the cache, or on the way to OPA |
| `PolicyPlane.PolicyPlaneService.FinishEvaluate` | policy-plane/src/service.ts:304-379 | a 2xx reply is cached and closes the breaker, allow exactly if its field is true and otherwise with its reason or the standard one; anything else is a denial and a recorded failure |
| `Jwt.JwtRoundTrip` | packages/shared/src/crypto/index.ts:181-235 | a token is accepted under its signing secret, as the primary or a non-empty old one, exactly until it expires, and with the caller's subject, mail, name, role and namespaces and the times of issue and expiry |
| `Jwt.VerifySigned` | packages/shared/src/crypto/index.ts:190-235 | what verification makes of a signed token under any secrets: exactly when it is accepted, and that it returns the caller's claims with the times of issue and expiry |
| `Jwt.TokenForm` | packages/shared/src/crypto/index.ts:181-188 | a token is the text of the header and of the caller's claims with the times of issue and expiry, and the signature over just that text |
| `Jwt.AcceptedExactly` | packages/shared/src/crypto/index.ts:190-235 | any token is accepted exactly if it has three parts, a header that names HS256, a signature that a tried secret gives to the first two, and a payload with an expiry time not yet past, which is what is returned |
| `Jwt.ThrowsExactly` | packages/shared/src/crypto/index.ts:190-235 | verification throws if and only if the header is the JSON text null, or the payload is, under an HS256 header and a signature that a tried secret authenticates |
| `Jwt.NullHeaderThrows` | packages/shared/src/crypto/index.ts:199-206 | a token with a null header makes it throw whatever the rest and the secrets are |
| `Jwt.NullPayloadThrows` | packages/shared/src/crypto/index.ts:214-221 | so does a signed null payload |
| `Jwt.EmptyOldSecretIgnored` | packages/shared/src/crypto/index.ts:230-232 | an empty old secret is never tried |
| `Jwt.SignatureBinds` | packages/shared/src/crypto/index.ts:208-233 | an accepted token whose signature decodes to that of a signed one, under any secrets, yields the signed claims, or HMAC gave two texts one code |
| `Jwt.DecodeEncode` | packages/shared/src/crypto/index.ts:168-179 | decoding inverts encoding for every byte sequence (section 5 of RFC 4648), and the encoding never contains a dot |
| `Jwt.DecodeReads` | packages/shared/src/crypto/index.ts:175-179 | decoding any text reads the characters of the two alphabets before the first padding and nothing else, three bytes for four of them |
| `Jwt.AlphabetsAlike` | packages/shared/src/crypto/index.ts:176 | the url-safe and the standard alphabet decode alike |
| `Jwt.SplitThree` | packages/shared/src/crypto/index.ts:190-197 | a compact token (section 7.1 of RFC 7515) splits into exactly its three parts |
| `Jwt.Base64UrlEncode` | packages/shared/src/crypto/index.ts:168-173 | the loop strips all the padding and nothing else |
| `Jwt.Base64UrlDecode` | packages/shared/src/crypto/index.ts:175-179 | the loop pads to a multiple of four, and the text is decoded up to its first padding character, other characters outside the alphabet skipped |
| `RateLimiting.SlidingWindowSafety` | packages/shared/src/rate-limiter.ts:36-67 | over every run of checks on any keys and cleanups, no window (x - windowMs, x] holds more than maxRequests allowed calls of a key |
| `RateLimiting.VerdictExactly` | packages/shared/src/rate-limiter.ts:36-54 | after any run a check is allowed exactly if fewer than maxRequests allowed calls of the key lie in the window (t - windowMs, t], and then advises no delay |
| `RateLimiting.BucketsStaySorted` | packages/shared/src/rate-limiter.ts:44-52 | over every run buckets are sorted and hold at most maxRequests times |
| `RateLimiting.RetryAdviceExact` | packages/shared/src/rate-limiter.ts:44-53 | after a denial advising r, checks on the key before t + r are all denied whatever else happens and one at t + r is allowed, if and only if the limit is at least one |
| `RateLimiting.AdviceIsNumber` | packages/shared/src/rate-limiter.ts:46-51 | over every run a denial's advice is a number if and only if the limit is at least one; below that every check is denied without one |
| `RateLimiting.CleanupInvisible` | packages/shared/src/rate-limiter.ts:56-67 | a cleanup changes the outcome of no later check |
| `RateLimiting.RateLimiter.Check` | packages/shared/src/rate-limiter.ts:36-54 | the verdict from the calls still in the window, which alone are kept, with this one added when allowed |
| `RateLimiting.RateLimiter.Cleanup` | packages/shared/src/rate-limiter.ts:56-67 | every bucket is pruned and the empty ones removed, in whatever order they are visited |
| `StreamLines.Stream` | execution-plane/llm-router/src/index.ts:438-461 | for every way of cutting the text into chunks the lines are the non-empty trimmed pieces of the whole text split at newlines; none without a body |
| `StreamLines.TakeLines` | execution-plane/llm-router/src/index.ts:448-454 | the complete lines are taken off the buffer, and no text still to come changes them |
| `JsText.JoinSplit` | execution-plane/llm-router/src/index.ts:448-454 | splitting loses nothing: pieces are free of the separator and join back to the text |
| `JsText.TrimExact` | execution-plane/llm-router/src/index.ts:450 | trimming removes the white space and line terminators at the two ends, given by their code units, all of them, and nothing else |
| `TokenBudgets.WindowBound` | packages/shared/src/budget/tracker.ts:53-92 | what is granted between two resets never exceeds the limit: tokens and cost per daily window, requests per minute window |
| `TokenBudgets.AnsweredExactly` | packages/shared/src/budget/tracker.ts:53-92 | after any run a request is refused for the requests of its minute, the tokens or the cost of its day, the first that what was granted since the window began leaves no room for, and granted otherwise; the windows began less than 60 seconds and a day ago |
| `TokenBudgets.CountersExactly` | packages/shared/src/budget/tracker.ts:53-92 | a counter is what was granted since its window began |
| `TokenBudgets.IntervalBound` | packages/shared/src/budget/tracker.ts:53-92 | any interval as long as a window sees at most twice the limit, although windows restart lazily |
| `TokenBudgets.DefaultTokenLimit` | packages/shared/src/budget/tracker.ts:25 | the default daily token limit parses to 1 |
| `TokenBudgets.ParseIntReads` | packages/shared/src/budget/tracker.ts:25-27 | parseInt skips white space and one sign and reads the decimal digits that follow, whatever comes after them, and is not a number without any |
| `TokenBudgets.ExhaustedExactly` | packages/shared/src/budget/tracker.ts:117-124 | with requests left in the minute, isExhausted holds exactly when no request for positive amounts would be granted |
| `TokenBudgets.TokenBudget.SetAllocation` | packages/shared/src/budget/tracker.ts:47-51 | each limit given replaces the present one, the others and the other namespaces stay |
| `TokenBudgets.TokenBudget.GetState` | packages/shared/src/budget/tracker.ts:53-72 | the daily counters restart now exactly from 86400000 ms after their start on, the requests from 60000 ms on, and are kept before |
| `TokenBudgets.TokenBudget.TryConsume` | packages/shared/src/budget/tracker.ts:74-92 | refused for the first limit that would be exceeded, leaving the counters; otherwise all three are charged |
| `TokenBudgets.TokenBudget.IsExhausted` | packages/shared/src/budget/tracker.ts:117-124 | the token or cost counter has reached its limit |
| `SandboxIps.ParseExact` | execution-plane/tool-proxy/src/index.ts:137-149 | the parser accepts exactly the canonical dotted quads and inverts their printer, in both directions |
| `SandboxIps.InCidrExactly` | execution-plane/tool-proxy/src/index.ts:151-158 | masking with 32-bit shifts compares the quotients by 2^(32 - bits), for all 0 <= bits <= 32 (section 3.1 of RFC 4632); any other suffix or network matches nothing |
| `SandboxIps.AllowedExactly` | execution-plane/tool-proxy/src/index.ts:160-171 | exactly the canonical quads outside the always-denied blocks that a listed block contains are admitted: no list admits a denied address, an empty one admits nothing, no list admits the private addresses |
| `SandboxIps.ListsExactly` | execution-plane/tool-proxy/src/index.ts:126-135 | the two constant lists cover exactly loopback, link-local, carrier-grade NAT, 0/8 and 224/4, and exactly the private ranges |
| `SandboxIps.ReservedAdmitted` | execution-plane/tool-proxy/src/index.ts:123-132 | 240/4 is not denied: a list that contains it admits it |
| `SandboxIps.ParseAddress` | execution-plane/tool-proxy/src/index.ts:137-149 | the accumulating loop computes the parse |
| `SloTrackers.ViewsAgree` | packages/shared/src/slo/index.ts:62-222 | for a target up to one and a window with requests, in the sums over the history: compliant if and only if failures are within the allowed floor, if and only if the burn rate of any window that begins no later is at most one |
| `SloTrackers.WindowKeeps` | packages/shared/src/slo/index.ts:67-68 | a window keeps exactly the entries from the cutoff on, in their order |
| `SloTrackers.PercentileOfWindow` | packages/shared/src/slo/index.ts:130-134 | the percentile of a window is the least bucket that covers the hundredths of the requests asked for, told by the samples of the history themselves |
| `SloTrackers.PercentileSinceUnique` | packages/shared/src/slo/index.ts:224-241 | there is only one such percentile |
| `SloTrackers.BudgetAgreesExactly` | packages/shared/src/slo/index.ts:148-168 | compliance and the error budget agree exactly if there are requests, or the target is at most one exactly when nothing failed |
| `SloTrackers.BurnAgreesExactly` | packages/shared/src/slo/index.ts:188-222 | compliance and the burn rate agree exactly if the target is at most one or something failed |
| `SloTrackers.ConsumedAtTheEdge` | packages/shared/src/slo/index.ts:156-166 | with requests, compliant and consumed at once exactly at the last allowed failure |
| `SloTrackers.ShareExactly` | packages/shared/src/slo/index.ts:148-168 | an availability budget is consumed if and only if nothing remains, and a consumed one is shown with a share left exactly when nothing was allowed and nothing failed |
| `SloTrackers.LatencyLeftExactly` | packages/shared/src/slo/index.ts:170-186 | a latency budget is called consumed above the target, but nothing is left of it exactly from twice the target on, or without a positive target |
| `SloTrackers.ShownExactly` | packages/shared/src/slo/index.ts:254-257 | a rounded value meets a target with no more decimals exactly when the value misses it by at most half a unit of the last decimal |
| `SloTrackers.LatencyViewsExactly` | packages/shared/src/slo/index.ts:208-218 | compliance and the burn rate of a latency objective agree exactly unless a percentile that is not positive misses a negative target |
| `SloTrackers.OrderIrrelevant` | packages/shared/src/slo/index.ts:114-146 | aggregates and the percentile do not depend on the order of the samples |
| `SloTrackers.GroupingIrrelevant` | packages/shared/src/slo/index.ts:114-146 | nor on their grouping: the aggregate of two batches is the sum of theirs |
| `SloTrackers.AggregateMeans` | packages/shared/src/slo/index.ts:114-129 | every count in the aggregate is the sum of the samples' counts |
| `SloTrackers.PercentileUnique` | packages/shared/src/slo/index.ts:224-241 | the percentile is determined by what it is required to be |
| `SloTrackers.ComputePercentileFromBuckets` | packages/shared/src/slo/index.ts:224-241 | the least bucket whose cumulative count reaches ceil(percentile * total / 100) when the buckets cover it, the greatest bucket otherwise, zero without requests or buckets |
| `SloTrackers.AggregateSamples` | packages/shared/src/slo/index.ts:114-146 | the nested loops compute the aggregate the results above are about, and the 95th percentile of its histogram |
| `SloTrackers.HistoryBounded` | packages/shared/src/slo/index.ts:40-43 | a history stays within its maximum if and only if the maximum is at least one |
| `SloTrackers.NewestKept` | packages/shared/src/slo/index.ts:40-43 | what is kept are the newest samples, in order |
| `SloTrackers.SLOTracker.Define` | packages/shared/src/slo/index.ts:31-33 | the objective is set with its type and target and an empty history, the others stay |
| `SloTrackers.SLOTracker.Record` | packages/shared/src/slo/index.ts:35-44 | an error for an undefined objective; otherwise the sample is pushed and the history trimmed |
| `SloTrackers.SLOTracker.ComputeStatus` | packages/shared/src/slo/index.ts:62-112 | SLI, error budget, compliance and burn rates in the sums over the samples of the history from the cutoff on and their 95th percentile, without divisions where they are compared, shown to six and four decimals |
| `SloTrackers.ComputeBurnRates` | packages/shared/src/slo/index.ts:188-222 | for the last 5, 30 and 60 minutes as the clock then stands: burning exactly if more failed than the target allows, or the percentile is above it, and the rate shown to four decimals |

## Left out

- CanonicalJson.Canonicalize: dates, maps and other class instances appear as the objects of own enumerable fields the code takes them for.
- CanonicalJson.CacheKeys: takes SHA-256 as a function of the text; that its input is the UTF-8 encoding of the text is covered by CanonicalPaired.
- Numbers in canonical JSON are their JavaScript numerals; how a double is turned into its shortest numeral is not part of this model.
- AgentVersions.AgentRepository.GetVersion: the database may return any of several rows of one name and version, and the result holds for each.
- Agent rows without their status, kind, time stamps and authors, and JSON columns as maps from top-level keys to values, which is what the merge operator looks at.
- Snapshot history listing (`getVersionHistory`) and the other read-only queries: a filter and a sort.
- AgentPages.ListByNamespace: a table is given in the order of its ids, as the primary key index has it; fractional and NaN page sizes, and the two queries of one call seeing different tables, are not modelled.
- AuditChains.AuditLog.CreateAuditEntry: the JSON printer of contents is a parameter; event id, time stamp and chain id are arguments; logging and the persistence retries are not modelled.
- AuditChains.ContentsTamperEvident, AuditChains.TamperEvident: assume that all hashes have the length of the genesis value, as hexadecimal SHA-256 digests do.
- SandboxDrivers.SlotsConserved: Docker never reuses a container id and removes a container at most once; init commands, inspection and host configuration do not touch slots and are not modelled, and neither is an unreadable SANDBOX_MAX_CONTAINERS.
- WriteQueues.MemoryWriteQueue.EnqueueWrite: a write is its number in acceptance order; its key and value are passed through and not modelled.
- PolicyPlane.PolicyPlaneService.BeginEvaluate: the cache key is given; computing it is CanonicalJson's subject.
- Jwt.JwtRoundTrip: the JSON and UTF-8 codec is assumed to parse what it printed; HMAC-SHA-256 is any function; exp is an integer.
- StreamLines.Stream: starts from decoded chunks; the byte-level decoder is not modelled.
- TokenBudgets.WindowBound: assumes non-negative requests and a fixed allocation, without `reset` calls, over the run.
- SandboxIps.AllowedExactly: starts from blocks already split into network and numeric suffix; splitting the configuration text and Number() on suffixes are not modelled.
- SloTrackers.SLOTracker.ComputeStatus: rates, shares and targets are real numbers, so rounding is exact decimal rounding and not that of doubles.
- RateLimiting.RateLimiter.Check: configuration from the environment, timers and logging are not modelled.
- Quota enforcement, memory tiers, webhook retries, LLM fallback, servers, Kubernetes and telemetry: input and output around these cores, or easier loops of the same shape.
