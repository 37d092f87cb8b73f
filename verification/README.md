# Loadout coordination: a verified model

Loadout lets several coding agents work on one project. They share an append-only event log,
`.handoff/coordination.jsonl`, which is written under a lock file, rewritten in place by a compactor, followed by
lock-free watchers, and folded afresh whenever somebody asks who owns a path, which contract revision is active,
what an agent has acknowledged or which tasks are pending. On top of the log sit bounded design discussions and the
dispatch of their outcome as handoff tasks. Two self-contained parts are modelled too: the text-level editor of the Codex
TOML configuration, and the arithmetic of the agent health score.

The project models these parts in Dafny 4.11 and proves what they promise. `dafny verify dfyconfig.toml` checks
everything. Every lemma switches automatic induction off: each proof says what it recurses on.

## How the model is built

- `Events` has the typed events; a log is a `seq<Event>`, a cursor an `int`, `-1` before the first event.
- `Strings` and `Paths` model claim paths on their characters, step by step as the code does, including the ECMAScript
  meaning of `trim`, `split`, `join` and of `posix.normalize`. A normal form denotes its sequence of segments, `.` the
  empty one, and a claim covers the files below it.
- `Ownership`, `Contracts` and `Tasks` have the folds: the loops of the code as methods, proved equal to functions of
  the log, and the lemmas about those functions.
- `StateKeys` and `Retention` have the compactor, with its cut point, checkpoints, summary event and final sort.
- `Coordination` is the log as a state machine: the mutators, compaction and the kill switch are commands; a reference
  run executes the same commands and never compacts. `Coordinator` is the same as a class whose methods change
  the log, and carries the reference run as ghost state. `LedgerRuns` compares the working log of any run with all that
  it ever appended. `Addressing` says from the arguments of a command alone when it is accepted, what its event carries and
  who is told of it. `FailingRuns` has runs on which a promise fails. `UnstablePaths` and `DriftingClaims` have the claims of
  paths that do not read back as they were stored, `RecordedKeys` the state keys of the claims that a log can hold.
- `Watcher`, `EventStream` and `Locking` are state machines over steps that interleave freely: reads that overlap, a
  client registered before its backlog is read, calls queued in a process and processes racing for the lock file.
  `LockedLog` puts lock and log together: a call reads the file, decides and writes in separate steps, and every
  interleaving leaves the log of the same commands in a row. `LateRegistration` is the event stream with its two steps in
  the wrong order.
- `Discussion` runs the protocol against a world that decides every check, reply, append and read in advance, so its
  theorems quantify over all of them; `Transcript` spells out what its statements say. `Pipeline` builds and dispatches
  plans, `PlanMarkers` tells the plans apart, `OwnerLookup` finds the owner of a file.
- `TomlStrings`, `CodexConfig`, `CodexRoundTrip`, `CodexLineEnds` and `CodexRemoval` model the configuration editor on
  text.
- `Rounding`, `HealthScore`, `HealthTheorems`, `HealthMonotonicity`, `HealthPoints`, `HealthEvidence` and `FirstRuns` model the
  score in exact rationals (`real`).

## Where the code and its promise part

Each of these is a property the code is meant to have and has only under a condition. The model keeps the code, shows
an input on which the property fails, and proves exactly when it holds.

- Compaction "preserves ownership" (`CHANGELOG.md:111-113`) unless a shared claim has replaced another agent's entry at
  the same path and is released later: `Retention.CompactionSafeExactly`, `FailingRuns.SharedTakeoverRun`.
- State keys identify the state of claims without commas in paths and colons in agent names
  (`StateKeys.SameKeyExactly`, `StateKeys.CommaCollides`, `StateKeys.ColonCollides`). A claim that the log can hold shares
  its key with another such claim about something else only if it has several paths, or its key can be cut at another
  colon into a name and a path, or its path at a comma into two in ascending order; and exactly then, as long as the key
  is not so long that a path could exceed its limit: `RecordedKeys.SharesKeyExactly`, `StateKeys.UnsafeNeedNotCollide`.
- Normalising a claim path twice is normalising it once only if the first result has no edge whitespace and no drive
  prefix: `Paths.IdempotentExactly`, `Paths.EdgeWhitespaceIsNotStable`, `Paths.UncoveredDriveIsNotStable`. A claim is
  checked under the first result and read back under the second. If there is no second, as for `./C:/x`, the log cannot
  be folded any more, and every later claim and release is refused: `UnstablePaths.UnreadableForever`,
  `UnstablePaths.UnreadableExample`. If the two do not overlap, as for `./ a`, two agents can claim the path exclusively,
  and the second claim replaces the first: `UnstablePaths.SecondClaimRefusedExactly`, `UnstablePaths.SecondClaimExample`.
  And two exclusive claims can come to cover one file, as of `a/x` and `./ a` (`FailingRuns.UnstablePathExample`), or of
  `./ ./ a` and `./ ./ a/b` (`DriftingClaims.TwoDriftingClaims`). Claims of a path harm neither the log nor exclusion, in
  any state with exclusion that any commands reach, exactly when its stored form is read back and no path that can be
  claimed meets it as read without meeting it as stored (`DriftingClaims.KeepsExactly`). For a path of up to 1019
  characters that is exactly when its stored form reads back as itself (`DriftingClaims.KeepsExactlyWhenStable`). Only
  where all paths claimed before do so, forms that read back behind whitespace or as a bare drive are harmless too:
  `UnstablePaths.ClaimSafeExactly`, `UnstablePaths.HarmlessExactly`.
- A publication without an explicit revision is refused as stale when its name has edge whitespace and the trimmed name
  is published already: `Coordination.AutoRevisionStaleExactly`, `FailingRuns.AutoRevisionExample`.
- Compaction brings a finished task back when its resolution was logged before it: `Tasks.NoResurrectionExactly`,
  `Tasks.EarlyResolutionExample`.
- A discussion that stops throws the error that stopped it and records it, unless an append of the record fails: then the
  caller gets the error of the record instead, and the log none: `Discussion.ThrowsItsOwnExactly`,
  `Discussion.HaltReplacesError`.
- A plan gives every agent one task only if its agents are distinct, which fails when nobody owns a mentioned path and the
  participants differ in whitespace only: `Pipeline.OncePerAgentExactly`, `Pipeline.PlanAgentsDistinctExactly`,
  `Pipeline.ParticipantsCanCoincide`; a failed first dispatch then loses the second task for good:
  `Pipeline.SecondTaskIsLost`. A task whose context merely quotes the marker of a plan blocks that plan's own task:
  `Pipeline.SentExactly`, `Pipeline.QuotedMarkerBlocks`.
- The owner of a file can depend on the order of the map when the root and a directory with a one-letter name are claimed
  by two agents: `OwnerLookup.OrderIndependentExactly`, `OwnerLookup.RootTieExample`.
- JSON escaping leaves the delete character, which TOML forbids (`TomlStrings.ValueRoundTrip`), and the line and
  paragraph separators, at which the line splitter breaks (`CodexRoundTrip.ExtractsExactly`,
  `CodexRoundTrip.SeparatorHidesLine`).
- Adding a server is refused exactly when its table is found, in a text whose only line terminators are line feeds
  (`CodexLineEnds.RefusedExactlyWhenFound`). In a text with carriage returns before them no table is found at all, so
  that there is nothing to remove or to fingerprint, and adding is still refused: `CodexLineEnds.CrlfHidesTables`,
  `CodexLineEnds.CrlfRefusesToo`; in any text, `CodexLineEnds.FoundExactly`.
- Removing a server removes the first occurrence of the text that is found for it, which may be a quotation in a comment,
  or only part of its table: `CodexRemoval.RemovalRestoresExactly`, `CodexRemoval.QuotedTableIsDamaged`.
- Adding a server changes the text, and with it the fingerprint, that is found for the last one of the file:
  `CodexRemoval.OtherBlockExactly`, `CodexRemoval.SecondServerChangesFirst`.
- Better evidence never lowers the score but can lower the rating: `HealthMonotonicity.RatingDropsExactly`,
  `HealthMonotonicity.AcceptedOutcomeCostsRating`. First benchmark runs of a package that do not all pass can lower the
  score: `FirstRuns.FirstRunsLowerExactly`, `FirstRuns.FirstRunsCostPoints`.

## Model

| member | source | states |
|---|---|---|
| Paths.NormalizeMeaning | src/core/coordination/coordinator.ts:185-195 | normalising any relative path yields its reduced segments, or rejects it when they start with `..` |
| Paths.ClimbsExactly | src/core/coordination/coordinator.ts:185-195 | a walk ends above its start exactly when some prefix of it went below, even if later names lead down again |
| Paths.AcceptedExactly | src/core/coordination/coordinator.ts:185-195 | a path is accepted exactly when it is relative, has no drive prefix and never climbs above the project on the way |
| Paths.NormalizedIsCanonical | src/core/coordination/coordinator.ts:185-195 | whatever is accepted is in normal form and stays inside the project |
| Paths.IdempotentExactly | src/core/coordination/coordinator.ts:185-195 | normalising twice is normalising once exactly when the first result has no edge whitespace and no drive prefix |
| Paths.EdgeWhitespaceIsNotStable | src/core/coordination/coordinator.ts:185-195 | `./ a` is stored as a path that reads back as another one |
| Paths.UncoveredDriveIsNotStable | src/core/coordination/coordinator.ts:185-195 | `./C:/x` is stored as a path that is rejected when read back |
| Paths.OverlapIsSharedFile | src/core/coordination/coordinator.ts:337-345 | on normal forms the string test means that one segment sequence is a prefix of the other, which means that the subtrees share a file |
| Events.ComputeHighSeq | src/core/coordination/coordinator.ts:117-130 | the watermark loop computes the highest sequence number, -1 for an empty log |
| Events.AppendIncreasing | src/core/coordination/coordinator.ts:267-269 | an event numbered after the watermark keeps sequence numbers strictly increasing |
| StateKeys.SameKeyExactly | src/core/coordination/retention.ts:224-239 | for safe names, keys agree exactly on events about the same state: agent and paths in any order, contract name, decision title |
| StateKeys.OwnKeyExactly | src/core/coordination/retention.ts:224-239 | the key of a contract or a decision is that of no other state, whatever names claims have |
| RecordedKeys.SharesKeyExactly | src/core/coordination/retention.ts:224-239 | a claim that an append can record shares its key with another such claim about something else only if it has several paths, or its key is cut at another colon into a name and a path, or its path at a comma into two in ascending order; exactly then for keys up to 1020 characters |
| StateKeys.UnsafeNeedNotCollide | src/core/coordination/retention.ts:224-239 | a family of unsafe claims whose key no other claim has |
| StateKeys.ColonAlwaysCollides | src/core/coordination/retention.ts:224-239 | a colon in an agent's name makes every claim of one plain path collide |
| StateKeys.ColonCollides | src/core/coordination/retention.ts:224-239 | with a colon in an agent's name, claims of two agents get the same key |
| StateKeys.CommaCollides | src/core/coordination/retention.ts:224-239 | with a comma in a path, claims of different paths get the same key |
| Ownership.NormalizePaths | src/core/coordination/coordinator.ts:354-355 | the mapping loop normalises every path or reports the first that is rejected |
| Ownership.OwnershipFromEvents | src/core/coordination/coordinator.ts:347-371 | the loops over events and paths compute the ownership fold of the log |
| Ownership.FoldMeaning | src/core/coordination/coordinator.ts:347-371 | the fold maps each path to its owner: claims override, an agent releases only its own |
| Ownership.OwnedExactly | src/core/coordination/coordinator.ts:347-371 | an entry is in the map exactly when some claim of the path made it, with its agent, mode, id and number, and since then nobody claimed the path and its agent did not release it |
| Ownership.FindConflicts | src/core/coordination/coordinator.ts:427-445 | the conflict loop reports every clash with an overlapping claim of another agent, and nothing else |
| Ownership.EventKeepsExclusion | src/core/coordination/coordinator.ts:421-498 | a checked claim or release keeps exclusion: two agents' claims covering one file are both shared |
| Ownership.CheckIsExact | src/core/coordination/coordinator.ts:427-445 | the check lets a claim of free or own paths through exactly when the resulting map still excludes |
| Ownership.LastWordOwns | src/core/coordination/coordinator.ts:347-371 | without takeovers, an agent whose last event about a path is a claim owns the path, whatever others said since |
| Retention.CollectKeys | src/core/coordination/retention.ts:202-207 | the first loop collects exactly the keys of the retained events |
| Retention.ExtractStateCheckpoints | src/core/coordination/retention.ts:198-222 | the backward walk splits the removable events into the last one of each key that the kept events do not have, and the rest |
| Retention.AgeStartMeaning | src/core/coordination/retention.ts:61-71 | the age cut is before the first event that is young enough |
| Retention.KeepStartExactly | src/core/coordination/retention.ts:61-71 | an event is before the cut exactly when it is further from the end than the count limit, or all events up to it are too old |
| Retention.StaysExactly | src/core/coordination/retention.ts:59-142 | an event stays exactly when it is the latest of its key or within both limits; of those that are not the latest of a key at most `maxEvents` stay; something is removed exactly when another event exists |
| Retention.SummaryTells | src/core/coordination/retention.ts:102-110 | the summary is a broadcast of that time by `loadout` with the number of the last removed event |
| Retention.Compact | src/core/coordination/retention.ts:44-169 | the rewritten log is the checkpoints, one summary with the number of the last removed event, and the kept events, in order; exactly the latest events of their keys and those within both limits stay, beside the former at most `maxEvents`; it reports a compaction exactly when another event was there |
| Retention.CheckpointsAreLatest | src/core/coordination/retention.ts:198-222 | the checkpoints are exactly the removable events that are the latest of their key in the whole log |
| Retention.CompactedLog | src/core/coordination/retention.ts:87-142 | the new log is ordered, holds every current value and every event from the cut on, and has the same watermark |
| Retention.CompactionKeepsState | src/core/coordination/retention.ts:51-168 | for any cut, order, watermark and the latest event of every key survive, so no sequence number is given out twice |
| Retention.CompactSimulates | src/core/coordination/retention.ts:51-168 | a log that stands for an uncompacted history still does after another compaction at any cut |
| Retention.AppendSimulates | src/core/coordination/coordinator.ts:267-288 | appending the same event to both keeps the log standing for the history |
| Retention.OwnershipAgrees | src/core/coordination/retention.ts:198-239 | after any number of compactions the ownership map, with modes, event ids and numbers, is that of the history without takeovers |
| Retention.CompactionSafeExactly | src/core/coordination/retention.ts:44-169 | whatever its agent releases next, a claim keeps the right map through every cut exactly when it replaces no other agent's entry |
| Retention.TakeoverDiverges | src/core/coordination/retention.ts:44-169 | after a takeover and its release, a full compaction gives the path back to the replaced owner |
| Retention.SharedTakeoverExample | src/core/coordination/retention.ts:44-169 | the smallest such log: two shared claims of one path and a release |
| FailingRuns.SharedTakeoverRun | src/core/coordination/retention.ts:44-169 | the commands that lead there, and the two maps read with and without the compaction |
| Contracts.CurrentRevision | src/core/coordination/coordinator.ts:252-258 | the reduction computes the highest revision of the name, 0 without one |
| Contracts.ContractsFromEvents | src/core/coordination/coordinator.ts:514-540 | the loop computes, per name, the first event with the highest revision |
| Contracts.ShownContract | src/core/coordination/coordinator.ts:514-540 | a published name has an active contract: text, publisher, id and number of an event of that name with no higher revision anywhere and the same one nowhere before |
| Contracts.StaleCheckIsExact | src/core/coordination/coordinator.ts:250-265 | an appended revision keeps revisions strictly increasing per name exactly when the stale check lets it pass |
| Contracts.ContractsAgree | src/core/coordination/coordinator.ts:514-540 | on increasing revisions the fold is the latest event of the name, which compaction keeps whatever the names of claims, so a stale revision never becomes acceptable |
| Tasks.PendingTasks | src/core/coordination/coordinator.ts:679-692 | the two passes list exactly the tasks that no terminal event resolves, in log order |
| Tasks.PendingAfterCompaction | src/core/coordination/coordinator.ts:679-692 | when resolutions follow their tasks, the pending tasks afterwards are the previous ones that were retained |
| Tasks.EarlyResolutionExample | src/core/coordination/retention.ts:64-76 | a resolution in front of its task, and the cut that brings the task back |
| LedgerRuns.PendingOverRuns | src/core/coordination/coordinator.ts:679-692 | in any run, compactions and names whatever they are, the pending tasks are those of all that was ever appended that the log still has, when resolutions follow their tasks |
| LedgerRuns.AcksOverRuns | src/core/coordination/coordinator.ts:702-705 | in any run no agent's cursor exceeds that of all that was appended, and what an agent had not acknowledged stays listed for it |
| LedgerRuns.UnackedOverRuns | src/core/coordination/coordinator.ts:605-626 | in any run what nobody had acknowledged stays unacknowledged |
| LedgerRuns.ContractsOverRuns | src/core/coordination/coordinator.ts:250-265 | in any run the revisions of a name increase, and the active contract and the highest revision are those of all that was appended |
| LedgerRuns.NumbersOverRuns | src/core/coordination/coordinator.ts:267-269 | in any run no sequence number is given out twice, and the latest event of every state is still in the log |
| LedgerRuns.LedgerIsReference | src/core/coordination/retention.ts:51-168 | with clean names and no takeovers, what was appended is the log of the run that never compacts |
| Tasks.NoResurrectionExactly | src/core/coordination/retention.ts:64-76 | no cut brings finished work back exactly when every resolved task has a resolution after it |
| Tasks.AckCursors | src/core/coordination/coordinator.ts:605-626 | the loop computes each agent's highest acknowledged number |
| Tasks.UnackedForExactly | src/core/coordination/coordinator.ts:702-705 | listed for an agent is what others logged, acknowledgements apart, above all that the agent acknowledged |
| Tasks.UnackedExactly | src/core/coordination/coordinator.ts:605-626 | unacknowledged is an event, acknowledgements apart, that is above all that anybody but its sender acknowledged |
| Tasks.CompactionNeverAcknowledges | src/core/coordination/retention.ts:64-76 | no agent's acknowledgement cursor rises through compaction |
| Tasks.UnackedForStays | src/core/coordination/coordinator.ts:702-705 | a retained event that an agent had not acknowledged stays listed for it |
| Tasks.UnackedStaysUnacked | src/core/coordination/coordinator.ts:605-626 | a retained event that nobody had acknowledged stays unacknowledged |
| Coordination.StepKeepsOrderly | src/core/coordination/coordinator.ts:231-298 | every command keeps sequence order, readable paths, exclusion and increasing revisions, whatever the names |
| Coordination.StepKeepsSound | src/core/coordination/retention.ts:224-239 | with clean names it also keeps the keys of claims apart |
| Coordination.StepRefines | src/core/coordination/retention.ts:51-168 | every command, compaction included, has the outcome it has on the uncompacted history, and the log goes on standing for it |
| Coordination.CompactionIsInvisible | src/core/coordination/retention.ts:51-168 | over whole runs with any compactions: all outcomes and numbers, the ownership map, the contracts and the watermark are those of the run that never compacts |
| Coordination.ExclusionAlways | src/core/coordination/coordinator.ts:337-371 | in every state that claims and releases of any names reach, as long as stored paths read back as themselves, claims of two agents that cover one file are both shared |
| FailingRuns.UnstablePathExample | src/core/coordination/coordinator.ts:185-195 | for paths that read back as others it fails: `a/x` and `./ a` can both be claimed exclusively |
| DriftingClaims.KeepsExactly | src/core/coordination/coordinator.ts:421-463 | in every state with exclusion that any run reaches, whatever its commands, names and compactions, every claim of a path keeps the log readable and exclusion exactly when its stored form is read back and no claimable path meets it as read without meeting it as stored |
| DriftingClaims.KeepsExactlyWhenStable | src/core/coordination/coordinator.ts:185-195 | in those states claims of a path are always safe if its stored form reads back as itself, and for paths up to 1019 characters only then |
| DriftingClaims.TwoDriftingClaims | src/core/coordination/coordinator.ts:421-463 | `./ ./ a` and `./ ./ a/b`, claimed exclusively by two agents, come to cover one file |
| UnstablePaths.ClaimSafeExactly | src/core/coordination/coordinator.ts:421-463 | the special case of states that claims and releases of stable paths reach: there every claim of a path is safe exactly when its stored form reads back as itself, as a path behind whitespace, or as a bare drive |
| UnstablePaths.HarmlessExactly | src/core/coordination/coordinator.ts:337-345 | those are the stored forms for which no stable path meets the path read back without meeting the stored one |
| UnstablePaths.UnreadableForever | src/core/coordination/coordinator.ts:347-371 | after an accepted claim whose stored form is rejected on reading, no log that goes on from there can be folded, and every claim and release is refused |
| UnstablePaths.UnreadableExample | src/core/coordination/coordinator.ts:185-195 | `./C:/x` claimed on an empty log |
| UnstablePaths.SecondClaimRefusedExactly | src/core/coordination/coordinator.ts:427-445 | after one agent's exclusive claim of a path another's of the same path is refused exactly when the stored path overlaps the one read back; otherwise it takes its place |
| UnstablePaths.SecondClaimExample | src/core/coordination/coordinator.ts:427-445 | `./ a`, claimed exclusively by two agents in turn, is the second's |
| Coordination.ExclusionWithCompaction | src/core/coordination/coordinator.ts:337-371 | the same with compactions, when no claim replaces another agent's entry |
| Coordination.ExclusiveRunsAreClean | src/core/coordination/coordinator.ts:427-445 | a run whose claims are all exclusive never replaces another agent's entry |
| Coordination.AutoRevisionStaleExactly | src/core/coordination/coordinator.ts:551-583 | an automatic revision is refused as stale exactly when the name has edge whitespace and its trimmed form is published |
| FailingRuns.AutoRevisionExample | src/core/coordination/coordinator.ts:551-583 | publishing `n` and then ` n` without a revision is refused |
| Addressing.AppendsExactly | src/core/coordination/coordinator.ts:231-298 | an append is accepted exactly when the switch is off, names and payload are within their limits, an acknowledged event exists and a revision is above all of its name; the event then has the next number, the given id and time, the trimmed sender and addressee and the payload with trimmed names and normal paths |
| Addressing.AcceptedCarries | src/core/coordination/coordinator.ts:421-584 | what every accepted emission, claim, release and publication records, from its arguments; a publication without a revision gets the next after all of that name |
| Addressing.ClaimedExactly | src/core/coordination/coordinator.ts:421-463 | a claim is accepted exactly when it can be appended and overlaps no path of another agent unless both are shared |
| Addressing.ReleasedExactly | src/core/coordination/coordinator.ts:466-498 | a release is refused for a path of another agent, and the refusal names such a path and its owner |
| Addressing.EmittedToWatched | src/core/coordination/watcher.ts:45-71 | after an accepted emission from a to b, a watcher of c at the old watermark gets exactly that event if c is a or b or it goes to all, else nothing |
| Coordinator.CoordinationLog.Emit | src/core/coordination/coordinator.ts:300-307 | appends an event with the next number, the given id and time, the trimmed sender and addressee and the checked payload, exactly when the command is permitted, and else fails and changes nothing; in either case as the reference run does |
| Coordinator.CoordinationLog.ClaimOwnership | src/core/coordination/coordinator.ts:421-463 | the claim is decided and recorded as on the uncompacted history, from its agent to everybody with normal paths; a refusal lists every clash |
| Coordinator.CoordinationLog.ReleaseOwnership | src/core/coordination/coordinator.ts:466-498 | the release is decided and recorded as on the uncompacted history, from its agent to everybody with normal paths |
| Coordinator.CoordinationLog.PublishContract | src/core/coordination/coordinator.ts:551-584 | the publication is decided and recorded as on the uncompacted history, with the revision asked for or the next after all of its name |
| Coordinator.CoordinationLog.CompactLog | src/core/coordination/retention.ts:44-169 | rewrites the log to the latest events of their keys, the summary and the events within both limits, and leaves the history it stands for alone |
| Coordinator.CoordinationLog.GetOwnership | src/core/coordination/coordinator.ts:322-327 | a read of the compacted log returns the ownership map of the history |
| Watcher.CoordinationWatcher.Complete | src/core/coordination/watcher.ts:45-71 | a completed read delivers exactly the events above the cursor that go to everybody or to or from the agent, all of them without an agent, and moves the cursor up to the watermark |
| Watcher.DeliveredExactly | src/core/coordination/watcher.ts:45-71 | who gets what: above the cursor, broadcasts reach every watcher, other events the watchers of their addressee and sender and those without an agent, and nobody else |
| Watcher.WatchedInOrder | src/core/coordination/watcher.ts:40-71 | with overlapping reads finishing in any order and compactions in between, delivery is in order, without repeats, and complete for what the log still has |
| Watcher.ExactlyOnce | src/core/coordination/watcher.ts:40-71 | without compaction the batches end to end are exactly the relevant events above the start and up to the cursor |
| Watcher.CatchesUp | src/core/coordination/watcher.ts:45-71 | until it is stopped a watcher can catch up with the log, whatever reads are in flight, and is then handed exactly what concerns its agent above its cursor |
| Watcher.StopEndsReads | src/core/coordination/watcher.ts:45-47 | after stopping no read begins; the reads in flight still deliver, and when there are none nothing does |
| EventStream.SseClient.Send | src/core/coordination/daemon.ts:112-117 | writes the events in order and never lowers the client's cursor |
| EventStream.Filter | src/core/coordination/daemon.ts:124-129 | keeps exactly the events to everybody and those to or from the agent, in order |
| EventStream.Broadcast | src/core/coordination/daemon.ts:119-140 | every client is sent, of the new events, exactly those to everybody and those to or from its agent, whatever the order of the clients |
| EventStream.NothingLost | src/core/coordination/daemon.ts:333-348 | for a client past its backlog, every relevant event above its cursor that the log has was sent or is still above the daemon's cursor |
| EventStream.GoesLive | src/core/coordination/daemon.ts:318-348 | who subscribes with a cursor is live two steps later and has exactly its agent's events above the cursor; without one it is live at once with none |
| EventStream.OnlyMeantIsSent | src/core/coordination/daemon.ts:112-140 | over whole runs nobody is sent an event between other agents, or one that it already had when it came |
| LateRegistration.LosesExactly | src/core/coordination/daemon.ts:333-348 | in every run of a daemon that reads the backlog first, a client misses exactly the events logged after the read and broadcast before the registration |
| LateRegistration.LosingRun | src/core/coordination/daemon.ts:333-348 | the run with one such event |
| LockedLog.LogIsSerial | src/core/coordination/coordinator.ts:231-298 | in every interleaving of calls that read, decide and write inside their locks, the log is that of the writing commands in a row |
| LockedLog.NeverStuck | src/core/coordination/coordinator.ts:231-298 | while a call is unfinished, a call inside can read the log for the first time or some call can be taken further, and what it writes is decided on the log as it is |
| LockedLog.ConcurrentOwnership | src/core/coordination/coordinator.ts:421-463 | so the ownership map that concurrent processes leave, compactions included, excludes and is that of the uncompacted serial run |
| Locking.MutualExclusion | src/core/coordination/lock.ts:75-177 | one call of all processes is inside at most, the lock file holds its token, and calls of one process get there in arrival order |
| Locking.OnlyTheHolderRemoves | src/core/coordination/lock.ts:59-69 | the file disappears only by the release of the call whose token it holds |
| Locking.NoTailNoWork | src/core/coordination/lock.ts:75-94 | a process has a map entry exactly while some call of it runs or waits, also after calls that threw |
| Locking.OneMutationAfterKill | src/core/coordination/crash-recovery.ts:144-179 | while the switch is on, at most one mutation lands, the one that had passed its check |
| Locking.NoDeadlock | src/core/coordination/lock.ts:75-177 | while a call of any process is unfinished, some call can be taken further without throwing or timing out |
| Locking.ForwardMoves | src/core/coordination/lock.ts:75-177 | such a step takes its call further and moves no other, and leads past the check exactly when the switch is off |
| Discussion.BuildStatus | src/core/coordination/discussion.ts:38-77 | a started thread without a close is open; one that ends in a close has that close's outcome and decision |
| Discussion.TurnBudget | src/core/coordination/discussion.ts:208-210 | alternating questions charge the proposer half of them rounded up, the reviewer half rounded down |
| Discussion.Runner.Turn | src/core/coordination/discussion.ts:368-428 | a turn asks the right participant once and appends its reply, linked to the previous statement, or stops at the first failure with the thread unchanged |
| Discussion.Runner.Synthesize | src/core/coordination/discussion.ts:430-482 | one more question, then summary, decision and close with what the synthesis said, in one reply path |
| Discussion.Runner.RecordFailure | src/core/coordination/discussion.ts:302-333 | adds a failed close that replies to the given statement, or nothing and the error of the first append that fails |
| Discussion.ThrowsItsOwnExactly | src/core/coordination/discussion.ts:482-493 | the result that a stopped run leaves is the error that stopped it exactly when that needs no record or is recorded, else the error of the first append of the record that fails |
| Discussion.HaltReplacesError | src/core/coordination/discussion.ts:482-493 | an ordinary error and a kill switch at the record: the result is the halt, and nothing is recorded |
| Discussion.OutcomeIsDetermined | src/core/coordination/discussion.ts:336-495 | the answers of the world leave one outcome |
| Discussion.Runner.Run | src/core/coordination/discussion.ts:336-495 | success exactly when all steps pass; otherwise the first failing step gives the error, or the record of it if that fails; recorded exactly when it is no halt and the record passes; at most 2r+1 alternating questions; the status read back is failed exactly when recorded, closed with the decision of the synthesis exactly when the close was reached and not overwritten, open otherwise |
| Transcript.RoundReads | src/core/coordination/discussion.ts:365-428 | in a concluded discussion every round is a proposal or revision to the reviewer and a critique back, each with the trimmed answer to its question |
| Transcript.FrameReads | src/core/coordination/discussion.ts:336-482 | the rounds stand between the start to everybody and a summary and the decided close, each replying to the one before |
| Transcript.FailureReads | src/core/coordination/discussion.ts:302-333 | a recorded failure is a failed close by the initiator, in the round that failed |
| Pipeline.GroupByOwner | src/core/coordination/discussion-pipeline.ts:82-97 | the loop groups the mentioned paths by owner, owners in order of first mention, paths in order, the rest unassigned |
| Pipeline.OwnedInOrder | src/core/coordination/discussion-pipeline.ts:82-97 | the paths of an owner keep the order in which they were mentioned |
| Pipeline.OwnersInOrder | src/core/coordination/discussion-pipeline.ts:82-97 | the owners come in the order of their first paths |
| Pipeline.BuildPlan | src/core/coordination/discussion-pipeline.ts:61-145 | only a closed discussion with a decision gives a plan; its tasks are one per owner with its paths, or one per participant |
| Pipeline.PathsConserved | src/core/coordination/discussion-pipeline.ts:82-124 | every mentioned path is unassigned or in exactly one task, its owner's, as often as it was mentioned |
| Pipeline.PlanAgentsDistinctExactly | src/core/coordination/discussion-pipeline.ts:99-124 | the agents of a plan are distinct exactly when a mentioned path has an owner or the participants differ |
| Pipeline.ParticipantsCanCoincide | src/core/coordination/discussion.ts:234-243 | accepted options whose participants have one recorded name |
| Pipeline.HandoffStore.Execute | src/core/coordination/discussion-pipeline.ts:149-244 | sends the tasks without a message yet, in order, up to the first failing send; reports an id for every task; a complete attempt adds the notice with the id of the plan unless it is there already |
| Pipeline.ExactlyOnce | src/core/coordination/discussion-pipeline.ts:159-243 | over any attempts failing anywhere, amid messages of others, an agent has at most one task of the plan, and exactly one after a complete attempt |
| Pipeline.OncePerAgentExactly | src/core/coordination/discussion-pipeline.ts:165-222 | a complete first attempt leaves one task per agent exactly when the agents are pairwise distinct |
| Pipeline.SecondTaskIsLost | src/core/coordination/discussion-pipeline.ts:165-222 | two tasks for one agent and a failure between them: no later attempt sends the second |
| Pipeline.SentExactly | src/core/coordination/discussion-pipeline.ts:165-177 | a complete attempt sends an agent its task exactly when no task for it has `[loadout-implementation:`, the id of the plan and `]` in its context |
| Pipeline.QuotedMarkerBlocks | src/core/coordination/discussion-pipeline.ts:165-177 | a foreign task for the agent with the marker inside its context: no later attempts, complete or not, send the agent anything |
| PlanMarkers.MarkerTells | src/core/coordination/discussion-pipeline.ts:165-177 | a task of one plan is recognised as one of another exactly when they are the same plan, for ids without brackets and contexts that quote no marker |
| PlanMarkers.OtherPlansDoNotBlock | src/core/coordination/discussion-pipeline.ts:165-222 | after any attempts at other plans, the first complete attempt at a plan sends each of its tasks, in order, with its own text and marker |
| PlanMarkers.NoticeTells | src/core/coordination/discussion-pipeline.ts:223-243 | plans have different notices, so that each is announced |
| OwnerLookup.FindOwner | src/core/coordination/auto-contract.ts:304-332 | the loop returns the agent of the first among the longest entries that apply, none when none applies |
| OwnerLookup.CanonicalIsFixed | src/core/coordination/auto-contract.ts:299-302 | project-path normalisation leaves claim paths alone, so both lookups compare the same strings |
| OwnerLookup.FindsLongestCover | src/core/coordination/discussion-pipeline.ts:313-338 | in any enumeration, the lookup of a file or of a directory with a slash fails exactly when no claim covers it, and else names the agent of a longest cover |
| OwnerLookup.CanAnswerExactly | src/core/coordination/discussion-pipeline.ts:313-338 | some enumeration gives an agent as the answer exactly when it has a longest cover |
| OwnerLookup.OrderIndependentExactly | src/core/coordination/discussion-pipeline.ts:313-338 | any two enumerations of the map give the same answer exactly when the root is not tied with another agent's one-letter directory |
| OwnerLookup.RootTieExample | src/core/coordination/discussion-pipeline.ts:313-338 | one map of shared claims, two enumerations, two answers |
| OwnerLookup.ExclusiveRunsHaveOneOwner | src/core/coordination/coordinator.ts:421-463 | after any exclusive claims, releases and compactions, all claims covering a file are one agent's |
| OwnerLookup.PlanLookupAnswersTheOwner | src/core/coordination/discussion-pipeline.ts:313-338 | in those states the lookup of plans answers exactly when some claim covers the mentioned path, with the one agent whose claims cover it |
| OwnerLookup.ContractLookupAnswersTheOwner | src/core/coordination/auto-contract.ts:304-332 | and so does the lookup of contracts, with its own normalisation, for the files of the project |
| OwnerLookup.SpellingsCompareAlike | src/core/coordination/auto-contract.ts:299-302 | the lookup of contracts compares every spelling of a path as the claim path it stands for |
| OwnerLookup.ContractLookupBySpelling | src/core/coordination/auto-contract.ts:304-332 | and so answers the owner of a file however its path is spelled |
| TomlStrings.ValueRoundTrip | src/core/agents/codex-mcp.ts:28-33 | a written value reads back as itself in TOML exactly when it has no delete character |
| CodexConfig.FindServerBlock | src/core/agents/codex-mcp.ts:43-60 | the loops compute the lines from the first header up to the next table that is not the server's |
| CodexConfig.PlanConfig | src/core/agents/codex-mcp.ts:107-159 | the planned text or the first error: name, command or URL, existing table, key |
| CodexConfig.RefusesExactly | src/core/agents/codex-mcp.ts:107-159 | which plans and removals are refused, and why: the name, exactly one of command and URL, the table that is there, the names of the variables |
| CodexConfig.ReportsLeast | src/core/agents/codex-mcp.ts:142-150 | the bad variable that is reported sorts before all other bad ones |
| CodexConfig.EnvTableSays | src/core/agents/codex-mcp.ts:145-150 | below it one line per variable, in the order of the names |
| CodexConfig.PlannedBelow | src/core/agents/codex-mcp.ts:152-164 | the table is added alone or one blank line below what was there, which stays as it was |
| CodexConfig.CollapseExactly | src/core/agents/codex-mcp.ts:76 | collapsing leaves no three line feeds in a row and changes nothing else |
| CodexConfig.RemovesExactly | src/core/agents/codex-mcp.ts:70-77 | removal takes out the first occurrence of the text found, and changes the rest exactly when three line feeds in a row would remain |
| CodexLineEnds.FoundExactly | src/core/agents/codex-mcp.ts:43-60 | a table is found exactly when its header stands alone between any line terminator and a line feed or the end |
| CodexLineEnds.RefusedExactlyWhenFound | src/core/agents/codex-mcp.ts:124-136 | without other line terminators in the text, adding is refused as existing exactly when the table is found |
| CodexLineEnds.CrlfHidesTables | src/core/agents/codex-mcp.ts:43-77 | in a text with a carriage return before every line feed no table is found, and removal changes nothing |
| CodexLineEnds.CrlfRefusesToo | src/core/agents/codex-mcp.ts:124-136 | such a text with the header of a server: adding it is refused |
| CodexRoundTrip.ExtractsExactly | src/core/agents/codex-mcp.ts:43-60 | the table is found again as it was written, nested table included, exactly when no value has a line or paragraph separator |
| CodexRoundTrip.SeparatorHidesLine | src/core/agents/codex-mcp.ts:43-60 | a command with a line separator is not found as it was written |
| CodexRemoval.RemovalRestoresExactly | src/core/agents/codex-mcp.ts:70-77 | removing the planned table gives back all non-blank lines in order exactly when no value has a line or paragraph separator and the text of the table is nowhere in the file already |
| CodexRemoval.QuotedTableIsDamaged | src/core/agents/codex-mcp.ts:70-77 | a file that quotes the table in a comment is accepted and damaged by the removal |
| CodexRemoval.OtherBlockExactly | src/core/agents/codex-mcp.ts:62-68 | adding a server leaves another one's text as it was exactly when another table follows it |
| CodexRemoval.SecondServerChangesFirst | src/core/agents/codex-mcp.ts:62-68 | a file with one server: adding a second changes the text found for the first |
| HealthScore.CollectRuns | src/core/agents/agent-health-score.ts:573-604 | the loop adds up the valid benchmark runs of the packages that have any, or reports the first invalid ones |
| HealthTheorems.CapsSumToHundred | src/core/agents/agent-health-score.ts:13-24 | the ten caps add up to 100 |
| HealthTheorems.ScoreBounds | src/core/agents/agent-health-score.ts:789-828 | the score is the exact sum of contributions within their caps, unknown dimensions add nothing, and it lies between 0 and the known caps, 100 at most |
| HealthPoints.LoneOutcomePoints | src/core/agents/agent-health-score.ts:632-690 | one outcome earns 0.8 for acceptance or success, 0.48 for activation, 0.2 for disabling, nothing for the rest |
| HealthPoints.DriftExactly | src/core/agents/agent-health-score.ts:322-364 | drift evidence is accepted exactly when its counts are counts and no more drifted than was checked; the ratio is the undrifted share |
| HealthPoints.RecoveryExactly | src/core/agents/agent-health-score.ts:692-758 | three fifths for recoverable mutations and two fifths for readable snapshots, divided by one more than the pending transactions |
| HealthPoints.RatingBands | src/core/agents/agent-health-score.ts:760-772 | which rating a score gets, with the known and the critical dimensions |
| HealthEvidence.AcceptsExactly | src/core/agents/agent-health-score.ts:199-828 | a score is built exactly from evidence with package ids that are there and different, counts in range and no part above its whole, benchmark runs recorded once with evidence ids, and outcomes of the agent recorded once |
| HealthPoints.FirstRejectionDecides | src/core/agents/agent-health-score.ts:774-828 | the error is that of the package ids or of the first dimension that rejects its evidence |
| HealthMonotonicity.AddingLowersExactly | src/core/agents/agent-health-score.ts:641-690 | one more outcome lowers the ratio exactly when there are ten already and it is below their average |
| HealthMonotonicity.SuccessAndFailure | src/core/agents/agent-health-score.ts:641-690 | adding an outcome: another agent's changes nothing in the score; acceptance or success never lowers it, rejection, failure or rollback never raises it, and only an outcome below the average of ten or more lowers it |
| HealthMonotonicity.AddingAcceptedExactly | src/core/agents/agent-health-score.ts:641-690 | the longer evidence is accepted exactly when it repeats no id of the scored agent |
| HealthMonotonicity.BetterNeverLowers | src/core/agents/agent-health-score.ts:199-758 | evidence that is nowhere withdrawn, riskier, staler, less trusted or less compatible, with no worse outcomes and first benchmark runs all passing, lowers no contribution, no status of a known dimension, and not the score |
| HealthMonotonicity.RatingDropsExactly | src/core/agents/agent-health-score.ts:760-772 | such evidence lowers the rating exactly from good to attention, when a dimension unknown before is critical now |
| HealthMonotonicity.AcceptedOutcomeCostsRating | src/core/agents/agent-health-score.ts:760-772 | a single accepted outcome takes a good rating away |
| FirstRuns.FirstRunsLowerExactly | src/core/agents/agent-health-score.ts:557-628 | first runs of a package lower the benchmark ratio exactly when coverage times pass rate falls, compared by cross products |
| FirstRuns.FirstRunsMoveScore | src/core/agents/agent-health-score.ts:557-628 | and the score then never rises; otherwise it never falls |
| FirstRuns.ScoreMovesExactly | src/core/agents/agent-health-score.ts:789-828 | the score moves by exactly as much as the rounded benchmark contribution |
| FirstRuns.FirstRunsCostPoints | src/core/agents/agent-health-score.ts:557-628 | evidence of two packages in which three failing first runs cost two points |

## Left out

- Recovery of stale lock files (`lock.ts:39-57`, `110-166`), Windows error codes, retry timing and timeouts as times: `Locking` speaks of runs without crashes, in which the token read back is always one's own.
- The lock and the kill switch are state machines over steps, not classes, because their point is the interleaving; the code inside a lock is the class `Coordinator.CoordinationLog`, and `LockedLog` shows that it may be taken as one step.
- Ownership events through raw `emit`: the callers refuse them, and the theorems about ownership assume it (`Coordination.PlainNames`).
- Clocks, random ids and file errors are parameters; the log of a run is read and written whole.
- Redaction, JSON encoding, the 128 KiB payload limit, and the schema limits of texts other than names, titles, paths and contract bodies.
- The regular expression that finds a resolved id in old contexts: a terminal event carries the id it resolves.
- Archive and corrupt side files of the compactor, and its file swap.
- Debouncing and file-system notifications of the watcher; a read may start at any time.
- HTTP, the wire format of the event stream, disconnecting clients, tokens and the dashboard.
- Discussion.Runner.Run: alternatives, unresolved points and prompts are not modelled, the synthesis parser is any function, other writers do not use the thread during the run, and nobody compacts the log during it; what a reader finds is stated for a thread that was new.
- DriftingClaims.KeepsExactlyWhenStable: says nothing about unstable paths of 1020 to 1024 characters, below which no path may fit the limit; `DriftingClaims.KeepsExactly` decides those too.
- RecordedKeys.SharesKeyExactly: for keys longer than 1020 characters only one direction, since the other claim might have a path beyond the limit of 1024.
- TomlStrings.ValueRoundTrip: does not speak of lone surrogates, which JavaScript strings may hold and `JSON.stringify` writes as escapes that TOML forbids, because Dafny's characters exclude them.
- Extraction of path mentions from texts, bundles, pickups and the wording of tasks: `Pipeline` takes the mentioned paths, their owners and the texts as given; a failing bundle is a failing send.
- Pipeline.ExactlyOnce: messages of others must not carry the plan's marker, since the code recognises tasks by it; `Pipeline.SentExactly` says what happens otherwise.
- Applying a configuration plan, snapshots and hashes: a fingerprint is taken to change exactly with the text.
- Binary floating point in the score: arithmetic is exact, and rounding to hundredths resolves ties upward.
- Texts of the health report, and the observation time.
- `conflict-preview.ts`, contract detection, bridge leases, provider sessions, installation and the command line.
