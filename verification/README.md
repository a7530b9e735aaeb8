# A model of the reee mail-rule daemon and its client, in Dafny

`reeed` is a daemon that evaluates groups of rules on mail messages; `reee` is the client that sends
it a message and a group name. The daemon keeps parsed messages in a cache, keeps their sampling
decision, tags and evaluation history in an SQLite store, and lets rules read and change tags. This
project models the parts of both programs that have to fit together, and proves that they do, or
exactly when they do.

Run `dafny verify dfyconfig.toml` here to check everything.

## What is modelled, and the main results

- **The wire** (`ByteText`, `Levels`, `Streams`, `Commands`, `Results`, `Sessions`, `EvalFrames`,
  `Grammars`, `Dispatch`). Byte strings, line framing, decimal lengths, a buffered reader whose
  reads come short, stall and fail transiently, a buffered writer on a connection that may break,
  and every branch of the decoders, run-time panics included. The decoders are pinned down from both
  sides, for every stream of bytes and every outcome, each kind of error included: what a client
  hears and gets (`Grammars.ReplyGrammar`), what the daemon reads as a command
  (`Grammars.CommandGrammar`), and which streams it evaluates, refuses and with what, lists, drops
  or panics on (`Dispatch.EvaluatesExactly`, `Dispatch.RefusesExactly`, `Dispatch.CrashesExactly`
  and their like). `Commands.CommandRoundTrip`, `Sessions.SessionRoundTrip` and
  `EvalFrames.FrameRoundTrip` are if-and-only-ifs; `TruncatedCommand`, `TruncatedSession` and
  `TruncatedFrame` say that no strict prefix passes for the whole, and what is heard of it.
  `Conversations.Eval` puts client and daemon together: which requests are refused, what the client
  reports of every other, and what the store has of it.
- **Rules and their record** (`Evaluations`, `Tables`, `Stores`, `Messages`, `TagLogs`). The loop
  runs and records exactly the rules up to the first that errs or matches, and that rule is the one
  the client is told of; each row says which group and which rules made it; the group row computed
  from the last record alone is the result of all of them; the tag table with its tombstones refines
  plain tag changes; a RecordEval that fails part way leaves exactly the statements before the
  failure.
- **Cache, store and memory, one request at a time** (`Daemons`, `Caches`). Which requests are
  evaluated, under which store ID, and that the tags of a store ID are those of all evaluations in
  order, as though there were no cache; cached messages agree with the store, whatever is evicted;
  the history and the cache are what these evaluations, with their sizes and times, make of them.
  `Daemon.Evaluate` says for every other case (a store that fails half way, two cache keys for one
  store ID) exactly when a cached message still agrees. The cache keeps its size limit over all uses
  exactly when the 64-bit sum has room for one more body.
- **Handlers side by side** (`Handlers`, `HandlerSafety`, `HandlerTags`, `HandlerRows`,
  `HandlerLoads`, `HandlerKeys`, `HandlerStaleness`, `HandlerHistory`, `SharedLogs`). A machine
  whose steps are single statements and critical sections, with arbitrary eviction and store
  failures. In every world: PutMessage is never attempted for a known store ID; the history rows of
  each evaluation stay together under its own ID, however the recordings interleave
  (`HistoriesStayApart`); and every load of tags beside a handler at work under the same store ID
  can end in a stale cached message (`LoadBesideWorkCanGoStale`). Exact conditions on the world:
  rules see only stored sampling decisions, and rows belong to message rows, if and only if equal
  sums give equal store IDs (`SafeExactlyWhenSumsDetermineIDs`); memory and store agree exactly when
  the last changes do, in all states of all runs, if and only if no body that can be inserted has a
  store ID that such a collision touches (`ComparableExactly`). Where equal sums give equal store
  IDs: as long as tags are read from the store only while nobody is at work under the store ID, a
  cached message goes stale only when its own handlers set one key in different orders, if and only
  if every store ID has one cache key (`FreshExactlyWithOneKey`); and then every single load is safe
  if and only if it is alone (`LoadSafeExactlyWhenAlone`).
- **One model, not two** (`Refinement`). Whatever requests the daemon object handles one by one,
  through its cache, its store and a database that may fail at any statement, is a run of that
  machine.
- **Connections** (`Connections`): what the daemon's counter says, and the one way in which Stop can
  miss a connection. **The rule registry** (`Registry`): what a call of addRules adds, when it
  succeeds, and what it leaves when it fails half way.

Conventions: `Outcome.Panic` stands for a Go run-time panic; an announced length panics past 2^48
bytes, Go's limit for one allocation on a 64-bit machine. What a rule does when called (its tag
operations and its answer) is an arbitrary value, so a theorem over all runs covers every rule. MD5
and MIME parsing are arbitrary functions. Clock readings, the sampling decision and the moment at
which the database starts failing are parameters.

Where the code departs from its evident intent the model follows the code:

- A command written without arguments makes its reader slice out of range
  (`protocol/command.go:115-126`); `list` is such a command. See `CommandWithoutArgsPanics`.
- A command type that is not in the table is not refused (`protocol/command.go:100-102`). See
  `UnknownTypeIsAccepted`.
- A rule name the group does not have runs the whole group (`daemon/daemon.go:226-236`). See
  `SelectRules`.
- A read failure does not end the read loop (`daemon/daemon.go:243-252`). See `ReadBody`.
- A command of an unknown type, or a length that cannot be allocated, panics in a goroutine that
  nothing recovers (`daemon/daemon.go:143-144`, `daemon/daemon.go:240`). See `CrashesExactly`.
- A reload while another handler has changes to record can leave a stale message in the cache
  (`daemon/daemon.go:362-373`). See `ReloadCanBeStale`.
- The result writers do not report a failed flush (`protocol/result.go:58`, `protocol/result.go:79`).
- A rule's error is never stored in its own row (`cmd/reeed/store/sqlite3_store.go:250`). See
  `RuleRowTellsOutcome`.
- RecordEval's statements are outside its transaction (`cmd/reeed/store/sqlite3_store.go:235-269`).
  See `Stores.SQLiteStore.RecordEval`.
- Log messages and error texts are not cut at newlines before they are sent, which the comment at
  `daemon/context.go:74` and the list of open points in the source's README.md mention. See
  `SessionRoundTrip`.

## Model

| member | source | states |
|---|---|---|
| ByteText.AtoiOfItoa | daemon/daemon.go:205-208 | a length written in decimal reads back as itself for every Go int and for no other integer |
| ByteText.AtoiTakes | protocol/result.go:164-168 | a length is digits, with a sign or without, whose decimal value fits a Go int, and nothing else |
| Levels.UnmarshalText | log/level.go:45-53 | finds exactly the level whose marshalled text it is given |
| Streams.Reader.Read | daemon/daemon.go:243-252 | any read: a first part of what is to come goes into the buffer, short, stalled or failed as it may be |
| Streams.Reader.ReadLine | protocol/command.go:78-84 | reads up to the first newline, or to the end, or fails |
| Commands.WriteCommand | protocol/command.go:35-75 | puts exactly the encoded command on the wire, flushed; reports an invalid level after the part before it; if the connection breaks, no more than a first part is sent |
| Commands.CommandText | protocol/command.go:35-75 | the written line, field by field |
| Commands.ReadCommand | protocol/command.go:77-130 | one line decides; the outcome, panics included, and the bytes left unread are the decoder's |
| Commands.LookUpKind | protocol/command.go:94-99 | the table scan finds the type whose text it is |
| Commands.DecodeFourFields | protocol/command.go:85-129 | every line of four fields decodes to them and takes only its own bytes |
| Commands.DecodeThreeFields | protocol/command.go:113-126 | a line that ends after a valid level panics |
| Commands.DecodeOnlyFields | protocol/command.go:77-130 | nothing else is accepted and nothing else panics; `Grammars.CommandGrammar` adds the errors |
| Commands.CommandRoundTrip | protocol/command.go:35-130 | written then read gives the command back exactly when the ID is a token and the arguments are non-empty and hold no newline |
| Commands.CommandWithoutArgsPanics | protocol/command.go:113-126 | a written command panics its reader exactly when it has no arguments |
| Commands.UnknownTypeIsAccepted | protocol/command.go:94-102 | a type outside the table comes back as type -1, without error |
| Commands.TruncatedCommand | protocol/command.go:78-81 | a command cut at any byte is a premature end |
| Results.WriteSuccess | protocol/result.go:36-60 | puts the encoded success on the wire and flushes all written before it, or the connection is broken and a first part was sent; a failing flush is not reported |
| Results.WriteError | protocol/result.go:62-81 | the same for an error |
| Results.WriteLog | protocol/result.go:83-109 | puts the encoded line on the wire, or fails with a first part of it sent; an invalid level leaves "log " behind |
| Results.ReplyTexts | protocol/result.go:36-109 | the written replies, field by field |
| Results.ReadSuccess | protocol/result.go:163-184 | through any schedule of reads, takes exactly the announced bytes or reports why not; a length that cannot be allocated panics; a read failure comes before all of them were taken |
| Results.ReadLog | protocol/result.go:192-208 | takes a log line apart as the decoder does |
| Results.ReadResult | protocol/result.go:111-161 | the logger hears, and the caller gets, what the decoder says of the bytes; the rest stays unread; when a read fails, the logger has heard the lines among the bytes taken |
| Sessions.CmdContext.constructor | daemon/context.go:28-50 | the three levels; the gate is never below the client's level |
| Sessions.CmdContext.Print | daemon/context.go:65-88 | for every level: the client gets a line exactly at or below its own level, unless an earlier one failed; the daemon's logger gets the prefixed line at or below gate and its own level; a failed line adds the two notes, in any order with it |
| Sessions.CmdContext.Reply | daemon/daemon.go:148-164 | prints and one result leave exactly the encoded session on the wire, flushed, or a first part of it on a broken connection |
| Sessions.DecodeLog | protocol/result.go:192-208 | any log message is heard up to its first newline, and decoding goes on after that |
| Sessions.DecodeError | protocol/result.go:186-190 | any error text is received up to its first newline |
| Sessions.InvalidLevelSpoilsResult | protocol/result.go:83-95 | after a print at an invalid level the client takes the result for a bad log line |
| Sessions.SessionRoundTrip | protocol/result.go:36-208 | lines, result and following bytes come out unchanged exactly when no delivered line and no error text holds a newline |
| Sessions.PrintedSessionRoundTrip | daemon/context.go:65-88 | the same for what a context printed: exactly the prints at or below the command's level, prefixed and in order |
| Sessions.LinesHeard | protocol/result.go:139-146 | lines are heard whatever follows them, an error and a panic included |
| Sessions.TruncatedSession | protocol/result.go:111-184 | a session cut at any byte gives an error: missing data exactly when the header of a success came whole, else a premature end; and the client hears exactly the lines that lie wholly before the cut |
| EvalFrames.ValidateName | cmd/reee/eval.go:112-126 | accepts exactly the names of letters, digits, underscore and hyphen, else reports the first other byte |
| EvalFrames.SendEval | cmd/reee/eval.go:45-78 | puts the command and the body on the wire and flushes them, or a first part of them on a broken connection |
| EvalFrames.InterpretExactly | cmd/reee/eval.go:91-107 | each report of the client stands for exactly one kind of reply |
| EvalFrames.ReadBody | daemon/daemon.go:240-252 | through any schedule of reads the buffer holds the next bytes, all of them or as many as come, and failures are remembered |
| EvalFrames.LoopEndsExactly | daemon/daemon.go:243-252 | whatever its reads give, the loop ends exactly when one meets the end of the stream or enough bytes have come; so never on a connection whose reads fail for ever |
| EvalFrames.ReceiveEval | daemon/daemon.go:199-261 | without read failures the request, refusal or panic is that of the bytes; with one it is refused, for the failure or for an unknown group |
| EvalFrames.FrameCommand | daemon/daemon.go:204-216 | the arguments of any frame arrive up to their first newline |
| EvalFrames.FrameRoundTrip | cmd/reee/eval.go:40-79 | group, rule and body arrive and the following bytes stay unread exactly when the group is known and names hold no newline and the group no space |
| EvalFrames.TruncatedFrame | daemon/daemon.go:243-261 | a frame cut at any byte is refused, with the number of body bytes that came |
| Grammars.ReplyGrammar | protocol/result.go:111-208 | for every stream: the client hears these lines and gets this result, this error or a panic, with these bytes unread, exactly when the stream is the lines, then a text that stands for this outcome, then the bytes; each kind of error has its texts |
| Grammars.DecodedIsSpelled | protocol/result.go:111-208 | every stream spells what it gives |
| Grammars.CommandGrammar | protocol/command.go:77-130 | the same for commands: read, reported as one of five errors, or a panic, exactly by their texts |
| Dispatch.Handle | daemon/daemon.go:120-146 | what the daemon does with a connection is what the bytes say; a read failure never makes it evaluate or panic |
| Dispatch.EvaluatesExactly | daemon/daemon.go:199-261 | it evaluates a request exactly on an eval line with the body's length, in any spelling, and a known group, followed by the body |
| Dispatch.ParseGrammar | daemon/daemon.go:204-216 | the arguments give a length, a group and a rule exactly when they spell them |
| Dispatch.RefusesExactly | daemon/daemon.go:199-261 | it refuses with each error exactly when the arguments or what follows them have that fault, and leaves these bytes unread |
| Dispatch.DropsExactly | daemon/daemon.go:120-130 | it drops the connection exactly when the bytes hold no command |
| Dispatch.ListsExactly | daemon/daemon.go:139-142 | it lists exactly on a list line, and accepts it exactly when its arguments are empty but present |
| Dispatch.CrashesExactly | daemon/daemon.go:143-144 | it panics exactly on a command that ends after its level, on an unknown command type, and on an eval length that cannot be allocated |
| Evaluations.SelectRules | daemon/daemon.go:218-236 | an existing name selects the first rule that has it, no name or an unknown one the whole group |
| Evaluations.EvalRules | daemon/daemon.go:294-319 | runs and records exactly the rules up to the first that errs or matches, each under its own name; the answer is that rule's error or name, and nothing when none erred or matched; tags become the replay of the recorded changes |
| Evaluations.VerdictIsTheFirst | daemon/daemon.go:299-319 | a rule is named, or an error given, exactly when it is that of the first rule that matched or erred |
| Evaluations.EvalRule | daemon/daemon.go:299-309 | one rule's record is appended and its operations done |
| Evaluations.StoredResultIsOverall | cmd/reeed/store/sqlite3_store.go:218-237 | the group row is the result of all the rules, and agrees with the verdict |
| Evaluations.ClientLearnsVerdict | cmd/reee/eval.go:91-107 | the client reports the verdict, an error up to its first newline; the very verdict exactly when there is none |
| Evaluations.ReportIsOfTheFirst | cmd/reee/eval.go:91-107 | so the client's report is about that rule |
| Messages.StoreIDsAgree | daemon/message.go:167-176 | store IDs are equal exactly for the same address, or without addresses for the same sum |
| Messages.NewMetadata | daemon/message.go:16-25 | copies the tags, whatever the order of the map |
| Messages.RuleEvalRecord.Keys | daemon/message.go:111-121 | lists each key once |
| Messages.RuleEvalRecord.GetTag | daemon/message.go:123-130 | the tag of the shared message |
| Messages.RuleEvalRecord.SetTag | daemon/message.go:132-142 | changes the shared message and logs the change |
| Messages.RuleEvalRecord.DeleteTag | daemon/message.go:144-151 | removes the tag, if any, and logs the deletion either way |
| Messages.RuleEvalRecord.Perform | daemon/message.go:132-151 | the log of any operations replays to what they did to the message |
| TagLogs.ReplayAt | daemon/message.go:132-151 | after a log each key has its last logged value, or its old one |
| Tables.VisibleIsReplay | cmd/reeed/store/sqlite3_store.go:378-396 | the non-null rows after any statements are the replay of the changes among them |
| Tables.RowAfter | cmd/reeed/store/sqlite3_store.go:393-396 | one row per changed key: created by the first change, valued by the last, updated by the last that met a row |
| Tables.RowsHaveMessagesKept | cmd/reeed/store/sqlite3_store.go:310-339 | recording for a known message keeps all rows attached to messages |
| Tables.EvalWritesChanges | cmd/reeed/store/sqlite3_store.go:248-274 | the statements of an evaluation carry all its changes, in order, and name only its message |
| Tables.EvalStatements | cmd/reeed/store/sqlite3_store.go:233-269 | the statements of an evaluation, one by one: the group's row; then for each rule its row and its tag changes in order, each with the evaluation's group and that rule |
| Tables.TagRowsSayWho | cmd/reeed/store/sqlite3_store.go:378-396 | after an evaluation the create and update columns of each changed key name the group and the rules that made its first and its last change |
| Tables.OtherTagRowsKept | cmd/reeed/store/sqlite3_store.go:378-396 | every other row is as it was |
| Tables.EvalAddsRows | cmd/reeed/store/sqlite3_store.go:233-261 | an evaluation adds one group row with its result and, under its ID, one row for each rule that ran |
| Tables.LastRecordDecides | cmd/reeed/store/sqlite3_store.go:218-232 | looking at the last record only gives first error, else any match, else null, of all records |
| Tables.RuleRowTellsOutcome | cmd/reeed/store/sqlite3_store.go:248-261 | a rule's row tells its outcome exactly when the rule did not err |
| Stores.SQLiteStore.GetMetadata | cmd/reeed/store/sqlite3_store.go:96-140 | the sampling decision and the visible tags of a known message, nothing for an unknown one, or a failure |
| Stores.SQLiteStore.PutMessage | cmd/reeed/store/sqlite3_store.go:142-202 | adds the row, or fails on a bad date, a taken key or a failing database and changes nothing |
| Stores.SQLiteStore.RecordEval | cmd/reeed/store/sqlite3_store.go:204-283 | executes the evaluation's statements in order, and if the database fails exactly those before the failure |
| Stores.SQLiteStore.LastResult | cmd/reeed/store/sqlite3_store.go:218-232 | the stored match and error of the group are those of the last rule |
| Stores.SQLiteStore.RecordRule | cmd/reeed/store/sqlite3_store.go:248-274 | one rule's row and tag changes, or those before a failure |
| Caches.KeptIsLongestTail | cmd/reeed/cache/cache.go:53-62 | eviction keeps the longest tail within the limits on count, counted size and age |
| Caches.AllKeptWithinLimits | cmd/reeed/cache/cache.go:53-62 | nothing is evicted exactly while every positive limit holds |
| Caches.KeptWithinLimits | cmd/reeed/cache/cache.go:53-71 | after it the limits hold, that on size exactly when the sum fits the 64-bit counter |
| Caches.EntriesWereAdded | cmd/reeed/cache/cache.go:49-51 | after any uses, an entry is in the cache as it was last added under its key |
| Caches.LimitsOverUses | cmd/reeed/cache/cache.go:53-71 | over any uses the count limit holds, and that on size if there is room for any added size in 64 bits |
| Caches.SizeLimitHoldsExactly | cmd/reeed/cache/cache.go:49-71 | over all looks and additions with sizes a Go length can have, the entries stay within a positive size limit exactly when the limit leaves room for one more body in 64 bits |
| Caches.OverflowingUses | cmd/reeed/cache/cache.go:53-71 | else three additions carry the sum to 2^64, and nothing is evicted |
| Caches.Cache.Get | cmd/reeed/cache/cache.go:42-47 | nothing, or the last value put under the key, whose entry becomes the newest while the others keep their order |
| Caches.Cache.Put | cmd/reeed/cache/cache.go:49-51 | replaces the key's entry by the newest, then the oldest go, each because a limit was exceeded, until all limits hold; the byte count stays exact modulo 2^64; a size limit that held still does if limit and new size fit 64 bits |
| Caches.Cache.Added | cmd/reeed/cache/cache.go:64-67 | the 64-bit update of the count |
| Caches.Cache.EvictOldest | cmd/reeed/cache/cache.go:53-71 | ends, leaves the kept tail, and keeps the byte count exact |
| Daemons.Daemon.FindMessage | daemon/daemon.go:263-285 | fails exactly for a message that is not cached and cannot be parsed or loaded; else the message has its row and decision, and its tags are the store's if cached ones were; a hit is touched, and a loaded message is added with the body's size and the time |
| Daemons.Daemon.PrepareMsg | daemon/daemon.go:351-411 | loads, or inserts a row with the decision just made, exactly when the database holds out and the message has a row or a good date; caches under the policy; keeps cache and store coherent |
| Daemons.Daemon.Evaluate | daemon/daemon.go:287-334 | which statements and changes reached the store, and for every cached message exactly when it still agrees |
| Daemons.Daemon.HandleEval | daemon/daemon.go:263-334 | which requests are evaluated, exactly; where the store ID comes from; the answer, the message row, the history rows, what the cache holds afterwards, and what becomes of tags in memory and store |
| Daemons.AfterRecord | cmd/reeed/store/sqlite3_store.go:248-274 | a RecordEval of any length moves its own message's tags by a first part of the changes and no other's |
| Daemons.ServeInTurn | daemon/daemon.go:199-411 | over any sequence of requests: only requests without a message or with a new bad-dated one are refused, each other is recorded under the ID of a body with its sum; every store ID's tags are those of all its evaluations in order; group and rule rows are theirs, in order; new message rows have the decision of a request that inserted them; the cache is what these uses leave of it, with its limits kept; and with one key for each ID cached tags equal the non-null rows |
| Daemons.CacheOfServed | cmd/reeed/cache/cache.go:49-71 | what is cached has the size and the time of a request with its sum, and the limits on count and, with room for one more body, on size hold |
| Daemons.RefusedExactly | daemon/daemon.go:263-285 | when sums tell bodies apart, exactly those are refused, and each other is recorded under its own ID |
| SharedLogs.MergesAgree | daemon/message.go:132-151 | two merges of the same logs leave equal tags exactly when each key's last values are equal, and so when its last handlers are |
| SharedLogs.DisjointKeysAgree | cmd/reeed/store/sqlite3_store.go:248-274 | always, when no two handlers touch one key |
| Handlers.StepKeepsBasics | daemon/daemon.go:337-411 | every step keeps mutual exclusion, the meaning of each phase under the lock, and cache entries backed by rows |
| Handlers.LockExcludes | daemon/daemon.go:337-373 | while a handler holds the lock no other looks at the cache, loads a message or adds one |
| HandlerSafety.InsertNeverMeetsARow | daemon/daemon.go:362-407 | in every interleaving PutMessage is attempted only for a store ID without a row, by one handler at a time, and cached messages have their rows |
| HandlerSafety.SamplingIsStable | daemon/daemon.go:377-395 | a stored sampling decision never changes, nor does a message's |
| HandlerSafety.SafeExactlyWhenSumsDetermineIDs | daemon/daemon.go:355-360 | rules see only stored sampling decisions and rows belong to messages, in all runs from all stores, exactly when equal sums give equal store IDs |
| HandlerSafety.CollidingRun | daemon/daemon.go:355-360 | the run that breaks it otherwise: through the re-check under the lock an evaluation is recorded for a store ID that has no message row |
| HandlerTags.StepKeepsGood | daemon/message.go:132-151 | where equal sums give equal store IDs, every step keeps memory tags, visible rows and handlers' logs in step with the changes made |
| HandlerTags.SettledMemoryMatchesStore | cmd/reeed/store/sqlite3_store.go:248-274 | where equal sums give equal store IDs: once all is recorded, and only through this message, agreement is a matter of the last changes alone: certain with equal last handlers or disjoint keys |
| HandlerRows.MemoryMatchesStore | daemon/message.go:132-151 | in every state of every interleaving, a message's tags are the store's exactly when each key has one value after its last change in memory and after its last upsert since the load, provided that no body that can be inserted has a conflicted store ID |
| HandlerRows.ComparableExactly | daemon/daemon.go:355-360 | that proviso is exact: without it a run breaks the comparison |
| HandlerRows.LateRow | daemon/daemon.go:390-402 | that run: tags recorded without a message row, then the row inserted, and the message without the tags |
| HandlerHistory.StepKeepsPairs | cmd/reeed/store/sqlite3_store.go:233-261 | every step keeps group rows and handlers paired, with the rule rows executed so far under each |
| HandlerHistory.HistoriesStayApart | cmd/reeed/store/sqlite3_store.go:233-261 | in every interleaving, from any store whose rule rows have their group rows, the rule rows under each new group row are those of its own evaluation, in order, all of them when it is done; older rows are untouched |
| HandlerLoads.StepKeepsFresh | daemon/daemon.go:351-373 | a step keeps this: who is at work under a cached message's store ID has that message, and nothing was recorded for it otherwise since its load, provided that tags are read only while nobody is at work |
| HandlerLoads.GuardedLoadsStayFresh | daemon/daemon.go:362-373 | so in every run so guarded, with one cache key for each store ID, cached messages go stale only through the order of last changes |
| HandlerKeys.FreshExactlyWithOneKey | daemon/daemon.go:355-373 | where equal sums give equal store IDs: guarded runs never record past a cached message, and never leave a cached message that differs from the store with all recorded and no key shared, exactly when every store ID has one cache key |
| HandlerKeys.LoadSafeExactlyWhenAlone | daemon/daemon.go:362-373 | then for each load: its message can no longer go stale by guarded steps exactly when nobody is at work under the store ID at that moment |
| HandlerStaleness.LoadBesideWorkCanGoStale | daemon/daemon.go:362-373 | the guard is needed: in every world, every load beside a handler at work can be continued to a stale cached message with both handlers done |
| HandlerStaleness.SharersCanDisagree | daemon/message.go:132-151 | in every world, two handlers in the rule loop with one message and store ID can go on to be done with memory and store apart |
| HandlerStaleness.ReloadCanBeStale | daemon/daemon.go:362-373 | the first happens from an empty store with any message that can be stored, after an eviction |
| HandlerStaleness.SharingCanDisagree | daemon/daemon.go:263-264 | so does the second, when two clients send it at one time |
| Connections.CounterIsExact | daemon/daemon.go:74-77 | in every interleaving the counter is the number of connections counted in and not out |
| Connections.ZeroMeansIdle | daemon/daemon.go:94-101 | Stop sees zero exactly when no handler is left or counted in |
| Connections.DelaysDouble | daemon/daemon.go:50-76 | in every run the wait after failures in a row is 5 ms, doubled for each, at most a second |
| Connections.LateHandlers | daemon/daemon.go:88-104 | after that at most one handler starts, and one can exactly when a connection was accepted but not yet counted |
| Connections.StopCanMissAConnection | daemon/daemon.go:50-76 | that case can arise |
| Registry.OrderIsUnique | cmd/reeed/rule/load.go:121-126 | a set of group names has one sorted list |
| Registry.LessIsLexicographic | cmd/reeed/rule/load.go:121-126 | names are ordered by their first different byte, a prefix first |
| Registry.AllTakenWhenDistinct | cmd/reeed/rule/load.go:142-154 | all candidates are taken exactly when all are usable and names stay distinct |
| Registry.UsablesInOrder | cmd/reeed/rule/load.go:142-154 | the rules of usable candidates are all of them, in order |
| Registry.AddGroupsExtends | cmd/reeed/rule/load.go:128-154 | a call succeeds exactly when every group's candidates are good, and then each group is its old rules and its new ones in order |
| Registry.AddGroupsAborts | cmd/reeed/rule/load.go:128-154 | else it stops at the first bad candidate: groups before it are extended, its own has what came before, the rest is as it was |
| Registry.OrderDoesNotMatter | cmd/reeed/rule/load.go:121-130 | success, and what a successful call leaves, does not depend on the order of the groups |
| Registry.AbortDependsOnOrder | cmd/reeed/rule/load.go:121-126 | what an aborted call leaves does, hence the sorting |
| Registry.Group.Add | cmd/reeed/rule/load.go:143-153 | list and index stay one; a bad candidate changes neither |
| Registry.GroupSet.AddRules | cmd/reeed/rule/load.go:104-157 | succeeds exactly when all candidates are good and then gives every group its new rules after its old ones and leaves the other groups; else leaves what came before the first bad one in sorted order |
| Registry.GroupSet.ToMap | cmd/reeed/rule/load.go:62-72 | every group with its rules in order, names distinct |
| Registry.SelectLoaded | daemon/daemon.go:226-232 | an existing rule's name selects that rule alone |
| Refinement.FindWithRun | daemon/daemon.go:263-285 | FindMessage, the first half of HandleEval, is a run from a matching state to a matching state |
| Refinement.EvaluateWithRun | daemon/daemon.go:287-334 | so is Evaluate, its second half, wherever the database fails |
| Refinement.ServeWithRun | daemon/daemon.go:199-411 | any sequence of requests to a new daemon is one run of the machine from an initial state, with one handler for each request, its body, group and rules |
| Refinement.MatchesMeans | daemon/daemon.go:351-411 | matching means: the same tables, and the same messages under the same keys |
| Conversations.Request | cmd/reee/eval.go:40-79 | what a client may send, the daemon receives, in however many reads |
| Conversations.Answer | daemon/daemon.go:148-164 | what the daemon replies, the client hears, in however many reads |
| Conversations.Report | daemon/daemon.go:148-164 | whatever the daemon's answer, the client reports it, an error up to its first newline |
| Conversations.Eval | daemon/daemon.go:199-334 | refused exactly when the message is not cached and cannot be parsed or loaded; else, unless recording failed, the client reports the name or the error of the first of the selected rules that matched or erred; the store has what they did, and the cache the message |

## Left out

- The JavaScript engine, MIME and calendar parsing, and the objects scripts see: rules and parsing are arbitrary here.
- SQL and SQLite as such: tables are maps and sequences that follow the statement texts; header, address, time and JSON columns are not kept, and reads do not see half of a statement.
- Streams.Reader.Read: fails a bounded number of times.
- EvalFrames.ReadBody: for that reason ends; `LoopEndsExactly` says when its loop does not.
- Conversations.Eval: fixes that no read or write fails, since the client reports such an error instead of a verdict.
- Daemons.ServeInTurn: starts from an empty cache and a store that does not fail; `Daemon.HandleEval` covers any cache and any failing store, one request at a time.
- Handlers.Next: takes a look-up of the cache as one step, although the daemon holds only a read lock over it and the list moves the entry it finds; what two look-ups at one moment do to the list is not modelled.
- HandlerTags.SettledMemoryMatchesStore: asks, like `StepKeepsGood` and the results on guarded loads, that equal sums give equal store IDs; `HandlerRows.ComparableExactly` and `HandlerSafety.CollidingRun` say what happens otherwise.
- HandlerLoads.GuardedLoadsStayFresh: the guard is on the run; nothing in the daemon enforces it.
- Running out of memory below Go's allocation limit.
- The internals of the least-recently-used list, a library: assumed to evict only on additions, and to count a look-up as use.
- The arithmetic of the sampling rate and of percentages: the decision is an arbitrary boolean.
- The `list` command beyond its panic, signal handling, sockets, flags, the null store, elapsed-time messages.
- A call of addRules with a wrong number of arguments or an argument that is no map of lists: it throws before it changes anything.
- The wrap-around of the 64-bit connection ID, which only labels log lines.
