# Session chains, agents' reads, and the queues around them

This project models how a cat café of AI agents keeps its conversations, and proves what that machinery promises.

A *thread* is an append-only log of events, cut into numbered sessions. The last session is active; sealing closes it
and opens the next one, and a compressor later condenses a closed session into a summary. The session chain manager
keeps all of this in maps under a lock and mirrors it into one Markdown file per session and a `meta.json` per thread.
Workers in other processes reload those files and read them from a cursor, so that an agent is told each event once.
Around that core stand a Redis stream that retries tasks, a hub that pushes messages to browsers, a parser for
`@name` mentions, the token estimates that decide when to seal, and the merge that shows a conversation.

The simple thing behind the core is a value: the log of a thread, `SessionChain.LogOf`. The manager's maps, the files
on disk, a torn snapshot that another process reads, and the increments that an agent receives are all proved against it.
That log in turn is proved to be the list of the events that were given to the appends of a run
(`LogIsWhatWasAppended`, `WriterLogIsWhatWasAppended`), as the hub's casts are what entered its channel
(`ChannelKeepsAll`) and the queue's tasks are what was submitted (`SubmittedIff`). What the operations write and tell is
stated a second time, field by field or in the very words of the text, apart from the functions that compute it.

## How the files fit together

| file | what it holds |
|---|---|
| `Text`, `Sorting`, `Selections` | strings as Go's `strings` package treats them; sorting and its uniqueness; which elements of a list were taken, in order |
| `TokenEstimator` | the estimator, its monotonicity under trimming, and the bound on adding estimates |
| `SessionTypes`, `LawfulCodec` | events, records, metadata, cursors; the laws asked of two imported formats, and a codec that meets them |
| `SessionMarkdown` | printer and parser of session files, as loops and as the functions they compute |
| `SessionRoundTrip`, `SessionRoundTripLimits` | reading undoes writing, and exactly when it does not |
| `SessionLog`, `SessionChain` | the chain invariant on the sequence of sessions, and on the manager's maps |
| `SessionDisk` | the file writes of each operation, and what loading the files gives |
| `Pagination` | paging through a session that keeps growing |
| `SessionSearch` | what a full-text search finds, and which of it is shown |
| `SessionChainManager` | the manager class, method by method |
| `ChainRuns`, `ChainCrashes`, `ChainTokens` | every run of one thread: interleavings, restarts, crashes between writes, counters |
| `CheckedSeals`, `ReloadPanics` | when `CheckAndSeal` keeps its promise; which message makes the reload of its thread panic |
| `Snapshots`, `AgentContext`, `Delivery` | torn reads by another process, what a worker selects, and exactly-once delivery |
| `PromptHistory` | how the selected events are printed, and which of them are printed whole |
| `TaskQueue` | the consumer-group retry protocol with any number of workers |
| `WebSocketHub` | the hub's loop against concurrent broadcasts |
| `Mentions`, `Messages` | the mention parser; the message merge and the call history |

A locked region (`mu.Lock` to `mu.Unlock`) is one step and one `os.WriteFile` is one step. `CheckAndSeal` and
`CompressSession` release the lock in the middle and are two steps each, with anything in between.

## What the code does not promise

Some natural expectations are false of the code. Each has the exact condition under which the code meets it.

- A list of messages survives a save if and only if no line of them looks like an event header, and the next save if
  and only if no line does once the messages are trimmed, because the reload trims (`SavedEventsSurviveIff`,
  `ReloadedEventsSurviveIff`, `TwoSavesKeepIff`). So a message with an indented header survives one save and not the
  second (`IndentedHeaderIsLostLater`).
- An invocation event with a message ID gets the ID's comment back inside its invocation ID (`InvocationIdSurvivesIff`).
- `AppendEvent` accepts a message such as `### #1 <!-- -->`, and every reload of its thread then panics: exactly if a
  line of the message looks like a header whose first comment has overlapping delimiters (`AppendedReloadPanicsIff`,
  `FilePanicsIff`, `HeaderPanicsIff`, `OneLineEndsAThread`).
- After a crash inside an append, a restart and another append, the numbers are 1, 2, 3, … if and only if the crash did
  not fall between the append's two writes; there one number is given out twice (`NumbersAfterCrashIff`).
- After a crash inside a seal and a restart, an append succeeds if and only if none or all of the seal's three writes
  were done (`AppendsAfterCrashIff`). The next seal repairs the chain, for it does not ask for the status of the session
  that it closes (`SealRecovers`).
- After a crash between the two writes of a creation the thread is dead: its metadata counts a session that is not
  there, and every append and seal fails with that, in every later run and after every restart
  (`AppendsAfterCreateCrashIff`, `HollowForGood`).
- `CheckAndSeal` tests and seals under separate locks. Its second region closes the session that the first one tested,
  at or above the threshold, if and only if no seal ran in between (`TestedSessionIsClosedIff`). It closes an empty
  session if and only if the active session is empty by then (`EmptyIsClosedIff`), as it is for the second of two callers
  (`SecondSealerClosesEmpty`, with a run in `EmptySessionIsReached`).
- An agent's first read takes one page of 10000 events and the cursor then skips the rest (`FirstRoundIsCompleteIff`,
  with a run for every number of events in `FirstRoundMissesEvents`).
- A prompt prints messages of agents and invocations up to 500 bytes, in the increments of a resumed agent, too, and
  events of an unknown kind not at all (`PrintedWholeIff`). An orchestrated prompt tells the whole log if and only if
  every closed session with events has its summary already, and the active one has at most 10000 events, all of which
  are printed whole (`OrchestratedTellsAllIff`; one message of 501 bytes is enough to fail, `LongMessageIsCut` and `LongContent`).
- With colons in agent names two cursors can share a key, exactly if one name continues the other with a colon
  (`KeysAreSharedIff`, `CursorsAreApartIff`).
- A page limit of 0 never reaches the end (`PagingByZeroNeverEnds`).
- A worker that crashes loses what it was running for good. Once no worker can act, a task is neither completed nor
  given up if and only if a crash hit a worker that was running it or had seen it fail (`UnfinishedIff`, `LostIff`); a
  crash behind the result leaves a completed task whose message is never acknowledged. A delivered message is
  acknowledged if and only if it is well-formed and no crash hit it (`AcknowledgedIff`); a malformed one is stuck from
  its delivery on (`MalformedIsStuck`).

The comment on `EstimateTokens` says "about 2 tokens" for multi-byte characters and "about 4 characters" a token for
others; the model has the code's exact arithmetic.

## Model

| member | source | states |
|---|---|---|
| TokenEstimator.EstimateTokens | src/token_estimator.go:8-25 | two tokens for each place of a character from U+0080 on, plus a quarter, rounded up, of the number of all other places |
| TokenEstimator.TrimNeverCostsMore | src/session_chain_storage.go:250-258 | trimming a text, as a reload does, never raises its estimate |
| TokenEstimator.AccountingBound | src/session_chain.go:277-281 | adding the estimates of any k texts exceeds the estimate of their concatenation by 0 to 3k/4 tokens |
| TokenEstimator.BoundIsAttained | src/token_estimator.go:8-25 | for every k some k texts attain that bound |
| Sorting.Sort | src/session_chain.go:478-480 | the result is sorted by the key and a permutation of the input |
| Sorting.SortedPermutationIsUnique | src/session_chain.go:403-405 | with distinct keys there is one sorted permutation, so an unstable sort is determined |
| SessionTypes.SessionId | src/session_chain.go:168-170 | the zero-padded ID denotes its sequence number, also beyond 999 |
| SessionTypes.SessionIdIs | src/session_chain.go:168-170 | the ID is S, zeros up to three digits, and the number without leading zeros |
| LawfulCodec.SomeCodecIsLawful | src/session_chain_storage.go:137-159 | the laws asked of front matter and time layout can be met, so what is proved of lawful codecs is proved of something |
| SessionTypes.CursorKeysDiffer | src/session_chain.go:164-166 | for agent names without colon, cursor keys agree only for the same agent and thread |
| SessionTypes.KeysAreSharedIff | src/session_chain.go:164-166 | two agents share a key, for some threads, if and only if one's name continues the other's with a colon |
| SessionTypes.CursorsAreApartIff | src/session_chain.go:498-511 | the cursors of a set of agents are told apart in all threads if and only if no name continues another with a colon |
| SessionMarkdown.FormatEvent | src/session_chain_storage.go:162-182 | one event's text, word by word: header with number, time, tag by kind and optional comment, blank line, content, blank line |
| SessionMarkdown.WriteSessionMarkdown | src/session_chain_storage.go:136-186 | the file is the front matter between rules, a blank line, and each event's text once and in order |
| SessionMarkdown.ParseEventsFromMarkdown | src/session_chain_storage.go:239-332 | the line loop is the fold that the round-trip lemmas speak of, its panic included |
| SessionMarkdown.StampIsRead | src/session_chain_storage.go:273-290 | a stamp is read as date and time; one that is none as a time on the session's first day; any other leaves the time unset |
| SessionMarkdown.ScanIntReads | src/session_chain_storage.go:269 | the scanned number is what sign and digits behind white space denote, up to the first other character |
| SessionMarkdown.ReadSessionMarkdown | src/session_chain_storage.go:188-235 | split at the first closing rule, decode, parse; each malformed file is an error |
| SessionRoundTrip.HeaderRoundTrip | src/session_chain_storage.go:267-325 | a printed header parses back to number, time, kind, sender, IDs |
| SessionRoundTrip.BodyRoundTrip | src/session_chain_storage.go:162-182 | parsing the printed events returns their normal forms in order, for every list whose contents have no header-like line |
| SessionRoundTrip.RuleClosesFrontMatter | src/session_chain_storage.go:197-205 | the front matter is split at its own closing rule, whatever rules the events contain |
| SessionRoundTrip.FileRoundTrip | src/session_chain_storage.go:136-235 | reading a written session file gives the normal record and the normal events |
| SessionRoundTrip.FileKeeps | src/session_chain_storage.go:136-235 | field by field: reading a written file gives the record but for fractions of seconds, and as many events, each as it was but for outer white space, fractions of seconds and the names of user and system |
| SessionRoundTrip.SecondRoundTripIsIdentity | src/session_chain_storage.go:250-258 | writing and reading what was read once changes nothing more |
| SessionRoundTrip.NormalEventsIdempotent | src/session_chain_storage.go:250-258 | normal forms are printable and their own normal forms |
| SessionRoundTripLimits.SavedEventsSurviveIff | src/session_chain_storage.go:264-273 | one save and read keep a list of events if and only if no line of any content starts like a header |
| SessionRoundTripLimits.ReloadedEventsSurviveIff | src/session_chain_storage.go:250-258 | the next save and read keep the reloaded list if and only if no line of any trimmed content does |
| SessionRoundTripLimits.TwoSavesKeepIff | src/session_chain_storage.go:136-235 | both conditions for whole session files, two saves in a row |
| SessionRoundTripLimits.IndentedHeaderIsLostLater | src/session_chain_storage.go:250-273 | a header-like line behind a space: the first read returns the message; the second panics, or returns it empty, with a second event if the line parses as a header |
| SessionRoundTripLimits.InvocationIdSurvivesIff | src/session_chain_storage.go:304-306 | an invocation ID is read back if and only if the event has no message ID |
| SessionRoundTripLimits.HeaderPanicsIff | src/session_chain_storage.go:267-323 | the parser panics on a line exactly if, behind number and time stamp, the first comment start is followed at once by an end that shares its space |
| SessionRoundTripLimits.BodyPanicsIff | src/session_chain_storage.go:239-332 | a body makes the parser panic if and only if it has such a line, wherever it stands |
| SessionRoundTripLimits.FilePanicsIff | src/session_chain_storage.go:136-235 | reading a written session file panics if and only if some message in it has such a line |
| SessionRoundTripLimits.OverlappingCommentPanics | src/session_chain_storage.go:317-322 | every header line with such a comment behind its number panics |
| ReloadPanics.AppendedReloadPanicsIff | src/session_chain_storage.go:412-418 | in every consistent state an event whose header prints back is appended without error, and the reload then panics if and only if a line of its content is such a line |
| ReloadPanics.OneLineEndsAThread | src/session_chain.go:254-291 | for example the message `### #1 <!-- -->` |
| SessionLog.LogIsNumbered | src/session_chain.go:272-280 | consecutive session ranges make event numbers 1, 2, 3, … without gap or duplicate |
| SessionLog.AppendKeeps | src/session_chain.go:272-283 | appending keeps ranges, statuses and counters, and adds exactly one event to the log |
| SessionLog.SealKeeps | src/session_chain.go:531-556 | sealing keeps them, and leaves the log as it is |
| SessionLog.CommitKeeps | src/session_chain.go:699-702 | committing a summary to a closed session keeps them, and the log |
| SessionLog.CollectedIsTail | src/session_chain.go:377-401 | filtering the sessions from the j-th on is the log from the given number or from their start |
| SessionChain.NewChainIsWellFormed | src/session_chain.go:183-228 | a new chain satisfies the chain invariant and its log is empty |
| SessionChain.NewChainOpens | src/session_chain.go:183-213 | field by field: a new chain's metadata, and one active session S001 without events |
| SessionChain.AppendKeepsChain | src/session_chain.go:254-291 | on maps: an append succeeds, keeps the invariant, and adds one event to the log |
| SessionChain.AppendStoresGiven | src/session_chain.go:272-283 | the log grows at its end by the given event: kind, sender, content, message and invocation ID as given, the next number, its own time or the present one if it has none, and the estimate of its content |
| SessionChain.SealKeepsChain | src/session_chain.go:516-565 | on maps: a seal succeeds, keeps the invariant and the log, and its new session ID was free in both maps |
| SessionChain.SealClosesAndOpens | src/session_chain.go:531-556 | field by field: a seal closes the active session with the time of the seal, opens the next number as an empty active one behind the last event, and leaves every other session and all events alone |
| SessionChain.CommitKeepsChain | src/session_chain.go:696-705 | on maps: a committed summary keeps the invariant, the log and the metadata |
| SessionChain.CommitSetsSummary | src/session_chain.go:699-702 | field by field: a commit sets summary and status of that session, and nothing else |
| SessionChain.ThresholdMetIff | src/session_chain.go:583-590 | the threshold is met if and only if the session has the events, or more tokens than the product of limit and share less one (at least the product, if that is negative) |
| SessionChain.TranscriptIsComplete | src/session_chain.go:648-659 | a transcript is one piece an event, in order: `[用户] content`, `[sender] content` or `[系统] content` with a newline, and nothing for invocations |
| SessionChain.TranscriptIsUnique | src/session_chain.go:648-659 | and no other text is that |
| SessionChain.TranscriptOfConcat | src/session_chain.go:648-659 | the transcript of two lists, one behind the other, is their transcripts, one behind the other |
| SessionChain.PreviousAreComplete | src/session_chain.go:633-645 | what the compressor is told of earlier sessions is one entry for each that has a summary, in order and word by word |
| SessionChain.EventsAfterIsLogTail | src/session_chain.go:365-407 | reading after a position is the log from the next event on, for known and unknown session IDs |
| SessionChain.EventsAfterAreNewer | src/session_chain.go:365-407 | what is read is the end of the log, from the first event on whose number is above the given one and not before a known session's first |
| SessionDisk.WrittenImage | src/session_chain_storage.go:184-185 | a written session file reads back in normal form and no other file changes |
| SessionDisk.NormalKeepsGood | src/session_chain_storage.go:412-421 | reloading keeps the chain invariant; sums of token counts stay within the sessions' counters |
| SessionDisk.LoadIsNormal | src/session_chain_storage.go:395-421 | loading files that mirror memory gives the chain in memory, in normal form |
| SessionDisk.ReadLogOfStored | src/session_chain_storage.go:412-421 | the events found in the files are the normal form of the log |
| SessionDisk.ReloadReadsFiles | src/session_chain_storage.go:395-421 | for every disk that loads, half-written ones included, a reload followed by GetAllEvents gives the readable files' events in order |
| SessionDisk.LoadPanicsIff | src/session_chain_storage.go:412-418 | a reload panics if and only if some counted session file makes the parser panic |
| SessionChainManagement.SessionChainManager.constructor | src/session_chain.go:147-162 | a manager of an empty directory holds nothing |
| SessionChainManagement.SessionChainManager.GetOrCreateChain | src/session_chain.go:175-228 | an existing thread is returned untouched; a new one is installed and its two files written, metadata first |
| SessionChainManagement.SessionChainManager.AppendEvent | src/session_chain.go:254-291 | errors change nothing; else the active session has the given event behind its others, counted in session and metadata, nothing else of the thread changes, and the session file is written before the metadata |
| SessionChainManagement.SessionChainManager.SealActiveSession | src/session_chain.go:516-565 | errors change nothing; else the active session is closed, the next one opened, all else of the thread as before, and the three files are written in order |
| SessionChainManagement.SessionChainManager.CheckThreshold | src/session_chain.go:568-592 | the first region: error cases, else whether the active session's tokens or events reach the configured threshold |
| SessionChainManagement.SessionChainManager.CheckAndSeal | src/session_chain.go:568-598 | undisturbed, both regions seal exactly when the threshold is met |
| SessionChainManagement.SessionChainManager.SortedSessions | src/session_chain.go:472-482 | whatever order the map yields, the records of a chain come out in order, each once, also where sessions are missing |
| SessionChainManagement.SessionChainManager.CompressBegin | src/session_chain.go:615-661 | the first region: error cases; else, word by word and in order, an entry for the summary of each earlier session and a line for each message of the session |
| SessionChainManagement.SessionChainManager.CompressCommit | src/session_chain.go:696-705 | the second region: summary and status are set, and that session's file is written |
| SessionChainManagement.PreviousText | src/session_chain.go:636-645 | the loop that stops at the session itself finds the summaries of all earlier ones |
| SessionChainManagement.SessionChainManager.GetEvents | src/session_chain.go:341-362 | error cases, the events from the cursor up to the limit, and the next cursor, -1 at the end |
| SessionChainManagement.SessionChainManager.GetEventsAfter | src/session_chain.go:365-407 | on a readable chain both loops and the final sort give all events of the log behind the position, in order |
| SessionChainManagement.EventsAfterIsSorted | src/session_chain.go:403-405 | what the loops collect is strictly sorted already, so the final sort changes nothing |
| SessionChainManagement.SessionChainManager.GetAllEvents | src/session_chain.go:410-425 | on a readable chain the concatenation is the log, and with sessions missing that of the others; an unknown thread has no events |
| SessionChainManagement.SessionChainManager.GetLastUserOrCatEvent | src/session_chain.go:295-320 | the backward scan over sessions finds the last user or cat event of the whole log, or none |
| SessionChainManagement.LastVisibleIsLast | src/session_chain.go:295-320 | none exactly if the log has no such event, else one with no such event behind it |
| SessionChainManagement.SessionChainManager.SearchEvents | src/session_chain.go:711-753 | of the results that show each stored event whose lower-cased content has the lower-cased query once, with its session, number, text, time and number of occurrences, the best up to the limit, highest scores first |
| SessionSearch.AllHitsAreMatches | src/session_chain.go:722-744 | the loops find every stored event that matches, no other, and none twice |
| SessionSearch.CountIsCount | src/session_chain.go:733 | a score is the largest number of occurrences of the query that do not overlap |
| SessionSearch.CountPositiveIff | src/session_chain.go:732-733 | it is positive if and only if the query occurs |
| SessionSearch.CountBehindFirst | src/session_chain.go:733 | it is one more than behind the first occurrence |
| SessionChainManagement.SessionChainManager.UpdateCursor | src/session_chain.go:498-511 | one cursor and its file change; for names without colon every other agent's cursor stays |
| SessionChainManagement.SessionChainManager.ReloadThread | src/session_chain_storage.go:395-444 | memory becomes what the files say, each saved cursor is in memory under its agent's key, all others stay; without metadata nothing changes; a parser panic leaves the sessions read before it |
| Pagination.PagingReadsEverything | src/session_chain.go:341-362 | following next cursors from 0 over a growing session yields its events at the last fetch, once and in order |
| Pagination.PagingEnds | src/session_chain.go:354-361 | with a positive limit paging ends once the fetches could have covered the session |
| Pagination.PagingByZeroNeverEnds | src/session_chain.go:357-361 | with limit 0 it never ends on a session with events |
| ChainRuns.StepKeeps | src/session_chain.go:568-598 | every region, compressor failure and restart keeps the invariant; sessions, statuses and the log never go back |
| ChainRuns.RunKeeps | src/session_chain.go:615-706 | the same for every run and every interleaving |
| ChainRuns.EveryRunIsSound | src/session_chain_storage.go:39-92 | after every run from a new thread the chain invariant holds, events are numbered 1, 2, 3, …, and the files load as the chain in memory |
| ChainRuns.LogIsWhatWasAppended | src/session_chain.go:254-291 | after every run from a new thread the log has exactly the events of the run's appends, in their order, each as it was given with number, time and estimate, or as its session file kept it over a restart |
| ChainRuns.RestartIsFixedPoint | src/session_chain_storage.go:395-421 | what a restart loads is in normal form already |
| ChainRuns.CommitsMatchEvents | src/session_chain.go:615-706 | the committed summary was made from a text with the line of each message that the session holds at commit, in order, whatever ran in between |
| ChainRuns.CompressionBegins | src/session_chain.go:615-661 | the first region takes down the lines of what the session holds, and changes nothing |
| ChainRuns.FailedCompressionIsRetried | src/session_chain.go:691-694 | a compressor that fails changes nothing, and the session can be compressed again |
| ChainRuns.PositionStaysValid | src/session_chain.go:365-407 | reading from an old position after any run gives the log from the next event on |
| ChainCrashes.CreateCrash | src/session_chain.go:216-225 | after any number of a creation's writes a reload gives readers no events, be the thread unknown, its file missing, or its session empty |
| ChainCrashes.AppendsAfterCreateCrashIff | src/session_chain.go:175-228 | restart, get or create, then append or seal: both succeed if and only if the crash did not fall between the creation's two writes; there both fail for want of a session |
| ChainCrashes.HollowForGood | src/session_chain.go:179-181 | and no run of operations and restarts changes such a thread any more |
| ChainCrashes.AppendCrash | src/session_chain.go:284-290 | after any number of an append's writes a reload gives readers the log before or after it; the first write decides |
| ChainCrashes.SealCrash | src/session_chain.go:558-564 | after any number of a seal's writes a reload gives readers the same log |
| ChainCrashes.CommitCrash | src/session_chain.go:704-705 | with or without a summary's write a reload gives readers the same log |
| ChainCrashes.AppendCrashLoads | src/session_chain.go:284-290 | after any number of an append's writes a restart has the event from the first write on, and metadata that counts it from the second on |
| ChainCrashes.NumbersAfterCrashIff | src/session_chain.go:272-290 | restart and append again: numbers are 1, 2, 3, … if and only if the crash did not fall between the two writes, where one number comes twice |
| ChainCrashes.SealCrashLoads | src/session_chain.go:558-564 | after any number of a seal's writes a restart has the old session closed from the first write on, and the new one from the third on |
| ChainCrashes.AppendsAfterCrashIff | src/session_chain.go:268-270 | restart and append: it succeeds if and only if none or all of the seal's writes were done |
| ChainCrashes.SealRecovers | src/session_chain.go:516-565 | restart, seal and append: they succeed wherever the crash fell, and the log goes on in sequence |
| CheckedSeals.EmptyIsClosedIff | src/session_chain.go:592-596 | the second region closes an empty session if and only if a caller is in it while the active session has no event |
| CheckedSeals.SecondSealerClosesEmpty | src/session_chain.go:592-596 | so of two callers that both found the threshold met, the second closes an empty session |
| CheckedSeals.UndisturbedCheckMeetsThreshold | src/session_chain.go:568-598 | in every run, if no seal or restart comes between the two regions, the closed session still meets the threshold |
| CheckedSeals.TestedSessionIsClosedIff | src/session_chain.go:568-598 | in every run, restarts included, the second region closes the session that the first one tested if and only if no seal ran in between, and then it still meets the threshold |
| CheckedSeals.EmptySessionIsReached | src/session_chain.go:592-596 | a run of a new thread that closes an empty session |
| ChainTokens.TrimmedRunsCountExactly | src/session_chain.go:277-281 | while all contents are trimmed, each counter is the sum of its events' estimates after every run, restarts included |
| ChainTokens.CounterBound | src/session_chain.go:277-281 | such a counter exceeds the estimate of the session's joined text by at most 3/4 token an event |
| Snapshots.UndisturbedReload | src/session_chain_storage.go:412-421 | reading the files one by one without a writer gives what loading the disk gives |
| Snapshots.SnapshotIsReadable | src/session_chain_storage.go:395-421 | with a writer at work between the reads, the snapshot is still a readable chain whose log is a front part of the writer's |
| PromptHistory.FormatEventsAsHistory | src/session_chain_context.go:222-252 | the history is one line an event, in order and word by word, agents' texts of more than 500 bytes cut there and marked, without white space at the end |
| PromptHistory.CutKeepsBytes | src/session_chain_context.go:237 | a cut text has exactly as many bytes as asked for, be it inside a character |
| PromptHistory.WideIsMultiByte | src/token_estimator.go:15 | the characters that the estimator counts double are those of more than one byte |
| PromptHistory.PrintedWholeIff | src/session_chain_context.go:230-248 | an event's line has its whole content if and only if its kind is known and, for agents and invocations, the content has at most 500 bytes or is 500 bytes and the very mark of a cut |
| PromptHistory.HistoryIsItsLines | src/session_chain_context.go:251 | the history is its events' lines in order, but for white space at the end |
| AgentContext.SummariesAfterIsSuffix | src/session_chain_context.go:196-219 | the found flag selects the cursor session's own summary and those of closed sessions behind it |
| AgentContext.NoSummaryLeftOut | src/session_chain_context.go:176-193 | in a well-formed chain the collected summaries are all there are |
| AgentContext.OrchestratedPlanHolds | src/session_chain_context.go:30-56 | an orchestrated prompt has the active session's first 10000 events and, for exactly the closed sessions with a summary and in their order, the line `[Session #n] summary`; the AI session is new |
| AgentContext.PlanHolds | src/session_chain_context.go:85-136 | without a cursor the active session's first 10000 events; with one all newer events, and if its session was closed since, the lines of summaries from that session on, with which the AI session is new |
| AgentContext.OrchestratedTellsAllIff | src/session_chain_context.go:30-56 | a prompt with the active session's first 10000 events and the lines of all summaries tells every event of the log if and only if each closed session with events has a summary and the active one has at most 10000 events, all of which the history prints whole |
| AgentContext.LongMessageIsCut | src/session_chain_context.go:235-239 | a new thread with one agent's message of 501 bytes: it is not told |
| AgentContext.AgentWorker.CollectSealedSummaries | src/session_chain_context.go:176-193 | the text is the line `[Session #n] summary` of exactly the closed sessions with a summary, in order |
| AgentContext.AgentWorker.CollectSummariesAfter | src/session_chain_context.go:196-219 | behind a closed session, the same for the sessions from that one on |
| AgentContext.AgentWorker.SelectContext | src/session_chain_context.go:85-136 | in each cursor branch the delivery holds what PlanHolds says |
| AgentContext.AgentWorker.SelectOrchestrated | src/session_chain_context.go:30-43 | the delivery holds the active session's first 10000 events and the lines of all closed sessions' summaries |
| AgentContext.AgentWorker.BuildOrchestratedPrompt | src/session_chain_context.go:10-67 | reload first, then select from what was loaded, and print the selected events; an empty thread ID and a missing active session fall back |
| AgentContext.AgentWorker.BuildCLIManagedPrompt | src/session_chain_context.go:72-163 | reload first, then select from what was loaded, and print the selected events; an empty thread ID falls back |
| AgentContext.AgentWorker.AdvanceCursor | src/agent_worker.go:297-306 | the cursor moves to the end of the snapshot's active session, if it has one |
| EventDelivery.StepKeeps | src/agent_worker.go:204-306 | every file write, every file read, every success or failure keeps the delivery invariant |
| EventDelivery.ExactlyOnce | src/session_chain_context.go:90-136 | in every run the increments after the first success, joined, are one slice of the writer's log, up to the cursor |
| EventDelivery.WriterLogIsWhatWasAppended | src/session_chain.go:254-291 | that log has exactly the events that the writer appended, in order |
| EventDelivery.FirstRoundIsCompleteIff | src/session_chain_context.go:90-95 | in every run the first round has its whole active session exactly if that has at most 10000 events |
| EventDelivery.FirstRoundMissesEvents | src/session_chain_context.go:95-100 | for every number of events above 10000, a run whose first round misses some while its cursor is behind all |
| EventDelivery.QuietRoundCatchesUp | src/agent_worker.go:293-306 | an undisturbed successful invocation brings the cursor to the end of the log |
| TaskQueue.OneLiveCopy | src/agent_worker.go:119-151 | in every run a submitted piece of work has at most one message that is unread or in execution |
| TaskQueue.ExecutionsAreBounded | src/agent_worker.go:561-593 | it is executed at most max(1, MaxRetries - initial RetryCount) times |
| TaskQueue.AbandonedAfterAllAttempts | src/agent_worker.go:572-578 | it is given up only after exactly that many executions |
| TaskQueue.StepsEnd | src/agent_worker.go:119-151 | every effective step but a submission lowers the sum of remaining attempts |
| TaskQueue.UnsettledTasksMove | src/agent_worker.go:119-151 | while something is neither completed, abandoned nor lost, some worker can act |
| TaskQueue.LostIff | src/agent_worker.go:119-201 | in every run a task ends up delivered, in nobody's hands and without a result if and only if a crash hit a worker that was running it or had seen it fail |
| TaskQueue.UnfinishedIff | src/agent_worker.go:119-201 | once no worker can act, a submitted task is neither completed nor given up if and only if such a crash hit it |
| TaskQueue.AcknowledgedIff | src/agent_worker.go:119-151 | once no worker can act, a delivered message is acknowledged if and only if it is well-formed and no crash hit it |
| TaskQueue.WithoutCrashes | src/agent_worker.go:561-593 | without crashes nothing is lost; at rest every task is completed or given up, and a delivered message is acknowledged if and only if it is well-formed |
| TaskQueue.SubmittedIff | src/agent_worker.go:119-151 | the queue's tasks are exactly those submitted in the run, with the retry limits they were first submitted with |
| TaskQueue.CompletedIff | src/agent_worker.go:139-147 | a task is completed if and only if some worker that was running it succeeded |
| TaskQueue.AbandonedIff | src/agent_worker.go:572-578 | it is given up if and only if some worker that had seen it fail found its limit reached |
| TaskQueue.MalformedAreSubmitted | src/agent_worker.go:562-570 | the stream has exactly as many malformed messages as were submitted |
| TaskQueue.SettledForGood | src/agent_worker.go:121-127 | what was completed, abandoned or lost in a crash is never executed again |
| TaskQueue.MalformedIsStuck | src/agent_worker.go:562-570 | in every run a malformed message is unread until its delivery and unacknowledged for ever after it |
| TaskQueue.StepKeeps | src/agent_worker.go:119-201 | reads, results, failures, both halves of a retry, acknowledgements and crashes keep the queue's invariant |
| TaskQueue.TaskWorker.RetryMessage | src/agent_worker.go:561-593 | give up and acknowledge, or append one more copy and acknowledge; a malformed message is left alone |
| TaskQueue.TaskWorker.ProcessMessages | src/agent_worker.go:119-151 | one message is read and completed, retried, given up or left, with the queue's whole new state |
| WebSocketHub.NoPanic | src/websocket.go:67-91 | in every interleaving no channel is closed twice or sent on after it was closed |
| WebSocketHub.RegisteredIffOpen | src/websocket.go:50-74 | a registered client is in its bucket exactly while its channel is open |
| WebSocketHub.NoMissedBroadcast | src/websocket.go:76-91 | one step registered the client; of the session broadcasts that entered the hub's channel since then, or waited in it then, a client still registered has got those for its session, in order, up to what still waits; an evicted one a front part of them; none has got another session's |
| WebSocketHub.ChannelKeepsAll | src/websocket.go:76-106 | after every run, what the hub took from its channel and what waits in it are the broadcasts that entered it, in order |
| WebSocketHub.UndisturbedBroadcast | src/websocket.go:76-91 | undisturbed, the hub takes the first waiting broadcast and no other; its session's clients with less than 256 messages waiting get it, the others are closed and leave, nobody else is touched |
| WebSocketHub.UndisturbedBroadcastToAll | src/websocket.go:108-126 | undisturbed, a message for all reaches each listed client with less than 256 messages waiting, and changes nothing else |
| WebSocketHub.UndisturbedRegister | src/websocket.go:50-56 | undisturbed, a new client joins its session's bucket, and nothing else changes |
| WebSocketHub.UndisturbedUnregister | src/websocket.go:59-74 | undisturbed, a listed client leaves and is closed, an empty bucket goes, any other client is left alone |
| WebSocketHub.StepKeeps | src/websocket.go:47-126 | hub steps and concurrent broadcasts to all keep the hub's invariant |
| WebSocketHub.UndisturbedDelivery | src/websocket.go:76-91 | in the interleaved machine, a delivery that nobody disturbs has the effect of DeliverToSession, in whatever order the bucket is walked |
| WebSocketHub.WSHub.Register | src/websocket.go:50-56 | the client joins the bucket of its session |
| WebSocketHub.WSHub.Unregister | src/websocket.go:59-74 | a listed client leaves and is closed, an empty bucket goes, any other client is left alone |
| WebSocketHub.WSHub.DeliverToSession | src/websocket.go:76-91 | each client with room gets the message and stays; each other one is closed and leaves |
| WebSocketHub.WSHub.BroadcastToAll | src/websocket.go:108-126 | each client with room gets the message; none is closed |
| Mentions.ParseAtMentions | src/mode_free_discussion.go:76-145 | for some cut of the trimmed lines at lines with @, the calls are, in order, exactly those of the blocks whose first word, trimmed, is not empty, not 铲屎官 and not the caller, each with the rest of its header and its lines that are not empty for a prompt |
| Mentions.CallsAreParsed | src/mode_free_discussion.go:76-145 | the same of the function that the streaming parser computes |
| Mentions.BlocksSegment | src/mode_free_discussion.go:83-127 | blocks cut the trimmed lines at the lines that start with @ |
| Mentions.SegmentationIsUnique | src/mode_free_discussion.go:83-127 | and no other cut does |
| Mentions.ParsedCallsAreCarried | src/mode_free_discussion.go:107-125 | every parsed call has a trimmed name without space and a prompt of solid lines |
| Mentions.RenderRoundTripIff | src/mode_free_discussion.go:107-145 | rendering calls as text and parsing gives them back if and only if a text can carry each of them |
| Mentions.ParseIsStable | src/mode_free_discussion.go:76-145 | rendering and parsing again what was parsed changes nothing |
| Messages.GetMessages | src/api_server.go:438-454 | the index loop computes the merge |
| Messages.MergeInterleaves | src/api_server.go:438-454 | the merge loses nothing and keeps each list's own order, whatever the timestamps |
| Messages.MergeIsSorted | src/api_server.go:441-448 | of two lists in order of time it is in order of time |
| Messages.SystemFirstOnTies | src/api_server.go:442-445 | a system message stands before a chain message exactly if it is not later |
| Messages.UpdateCallHistoryResponse | src/api_server.go:1486-1495 | the last open call of the cat gets the response, in place, and every other record stays |

## Left out

- Failures of file writes: the code returns the error with memory already changed; here every write succeeds.
- Integer width: event counts, token counts and `Sscanf` are unbounded; 64-bit overflow is not modelled.
- Time: one clock reading per operation; time zones, daylight saving and the fallback to the current time for a zero
  creation date are not modelled. The time layout and the YAML and JSON libraries are functions with stated laws
  (`SessionTypes.Lawful`).
- Records are values: the code hands out references to its records, so a caller could change them without the lock.
- Strings are sequences of characters; invalid UTF-8 is not modelled.
- Event types that no switch knows are printed as nothing by the code; the run theorems exclude them.
- SessionChainManagement.SessionChainManager.ReloadThread: a parser panic ends the process; here the method reports it,
  with the memory that was filled before it. `loadFromDisk` runs the same loop for every thread directory.
- SessionChainManagement.SessionChainManager.CheckThreshold: the token threshold is an exact product of reals, where the
  code multiplies float64 numbers: int(100*0.29) is 28 there and 29 here. The theorems hold for every configuration, so
  whatever value the product takes is covered.
- SessionChainManagement.SessionChainManager.GetEvents: a negative cursor or limit panics in the code and is excluded.
- SessionChainManagement.SessionChainManager.SearchEvents: lower-casing is a parameter that keeps non-empty queries non-empty.
- SessionChainManagement.SessionChainManager.CompressCommit: requires that the thread was neither deleted nor reloaded
  since the first region; the compressor itself is a parameter.
- EventDelivery.ExactlyOnce: one writer and one worker that does not seal; a worker that seals from its own snapshot
  is a second writer, for which the property is false. The runs begin behind the two writes of the thread's creation, so
  the window in which metadata counts a session without a file is not in them, nor a worker that finds no metadata and
  creates the thread itself, nor a worker that restarts and reads its cursor file. It speaks of the events selected for
  the agent; printing cuts long ones (`PromptHistory.PrintedWholeIff`).
- TaskQueue.ExecutionsAreBounded: IDs of new work are taken as fresh, and Redis as reliable.
- TaskQueue.LostIff: sending a result and dispatching the follow-up tasks found in it are one step, and a result that
  cannot be sent, which the code only logs, counts as sent.
- WebSocketHub.NoMissedBroadcast: each client registers once, as the code's only caller does.
- Negative sequence numbers and session counts in files that somebody edited by hand.
- `DeleteChain` (it leaves cursors behind), `WriteMeta` (it can install any metadata), invocation files, and the tool
  endpoints, of which `MCPReadSessionEvents` picks a thread in map order.
- `buildLegacyPrompt` and `getSessionHistory`, the prompt that the others fall back to, with its own cut at 20 messages.
- Wording of prompts around summaries and history, HTTP routes, process spawning, logging, workspaces, modes other than free discussion, the
  frontend, and the usage reports of the token estimator: one branch or none each.
