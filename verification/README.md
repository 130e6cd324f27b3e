# Mcplexer, verified

A Dafny model of the parts of mcplexer (an MCP gateway: one daemon that serves
many clients, keeps tasks and memories, and synchronises them with paired
machines) whose behaviour is hardest to see from the code:

- **The stdio bridge** (`Bridge`, `BridgeProofs`, `BridgeAnswers`,
  `BridgeRuns`): `mcplexer connect` keeps one
  client alive across daemon restarts. One stdin queue feeds successive
  connections; the first `initialize` is captured and replayed on each new one,
  and the replayed answer is discarded. The model is a transition system over the
  main loop, each session's writer and reader, and the environment.
- **Task synchronisation** (`TaskSync`, `CatchUp`, `CatchUpProofs`, `Paging`,
  `SyncSchedule`): a home daemon pages task rows out, a mirror applies them and
  moves a cursor; access receipts from the home revoke or renew the membership. Pulls
  from one home may overlap.
- **Election of the canonical incident task** (`ClassKey`, `Election`): anomaly and
  baseline ensurers race on lookup, create and adopt against a unique index whose
  key goes through a hand-written JSON quoter.
- **Due notices** (`DueNotices`): the due-task scanner and the assignment bridge
  announce tasks and leave receipts.
- **Memory import** (`MemoryImport`): look-then-write imports from peers, the offer
  table that gates silent pulls, and the scopes that admit a request.
- **The rules block** (`RulesBlock`, `RulesProofs`, `RulesTheorems`, `RulesStray`,
  `RulesFile`):
  the marker-bounded block in an agent's rules file, its reader, its writer, and
  the commands that must agree about it.
- **Addons** (`AddonSlug`, `AddonPath`, `AddonRequest`, `AddonQuery`, `AddonNames`,
  `AddonRegistry`): an OpenAPI document becomes tools; a tool call becomes a
  request.
- **The arm leaderboard** (`Leaderboard`): chat signals rolled up per arm and
  sorted in place.

`Text` holds what they share (decimal numerals, substring search, space classes).
`dafny verify dfyconfig.toml` checks the whole project.

Stores, sockets, the clock, the authoriser and the network appear as state,
parameters or steps that may fail. Concurrency is modelled as steps: a run may take
any enabled step, so every interleaving, write failure, store error, restart and
redelivery is included unless a statement says otherwise.

## What turned out not to hold

The code is modelled as it is. Where a property its comments or tests suggest is
false, the project has an input that breaks it and the exact condition under which
it holds.

- Sync settles in one call exactly when no BEGIN line lacks its END
  (`RulesTheorems.SyncIdempotentIff`); with one it settles in two, and the second takes
  the user's text from that line on with it (`RulesStray.UnpairedSettlesInTwo`). A
  requested dashboard URL that is a prefix of the installed one is never written
  (`RulesTheorems.UrlEnforcedIff`). With a negative version a fresh file grows with
  every Sync (`RulesTheorems.NegativeNeverSettles`).
- The mirror's cursor covers what it applied exactly as long as no acknowledgement
  overtakes a row still owed and no older frame is written over a covered revision
  (`CatchUpProofs.CursorHonestIff`). Two overlapping pulls break it without any failure
  (`CatchUpProofs.OverlapRegresses`); with one pull at a time only a failed write can
  (`CatchUpProofs.OnePullHonestIff`, `CatchUpProofs.FailedWriteLoses`), and the row it
  leaves behind then never arrives until the home writes it again
  (`CatchUpProofs.LeftBehindForGood`). Catch-up delivers everything readable exactly when no
  full batch of unreadable rows stands before a readable one
  (`Paging.CatchUpCompleteIff`).
- A class key comes back from its own quoting exactly when it is well encoded and holds
  no control character; with a line break in it the second election returns no task at
  all (`ClassKey.KeyRoundTripIff`, `Election.ElectTwice`).
- Importing an OpenAPI endpoint and building it rewrites placeholders twice: the call
  reaches the described URL exactly when no recognised token of the path has a name that
  is no word or whose slot turns into a scanned name, as that of every ordinary name does
  (`AddonRequest.ImportedCallIsRightIff`, `AddonPath.StableIsAgain`). The order of the
  parameters is irrelevant exactly when no name turns into another under a later scan
  (`AddonPath.OrderIrrelevantIff`), which a slug cut after an underscore does
  (`AddonPath.CutNamesClash`).
- Query parameters reach the server exactly when there are none or the URL template has
  no hash (`AddonQuery.RoutedQueryArrivesIff`).
- A client gets an answer to its `initialize` exactly when the daemon sent one that was
  read in full and was not the first line of a connection on which the handshake was
  replayed (`BridgeAnswers.AnsweredIff`), although the comment at
  cmd/mcplexer/connect.go:100-102 says it always has one. If the daemon answers only where
  it was asked, and a replay with its first line, which is what the discarding code takes
  for granted, the answer must come on the connection of the one live attempt
  (`BridgeAnswers.MannerlyAnsweredIff`). There are runs without it, whether that Write
  failed or not (`BridgeRuns.LostInitialize`), and runs with another daemon where the
  answer to a replay gets through (`BridgeRuns.AnsweredByChance`).
- The bridge process dies exactly on a first `initialize` that decodes, has null params
  and comes with a working directory (`BridgeRuns.CrashReachableIff`,
  `BridgeRuns.HandlingCrashesIff`).
- Due tasks are announced at most once more than receipts were lost, and no
  better (`DueNotices.AnnouncedAtMostOnceMore`, `DueNotices.AnnouncedManyTimes`).
- A source memory has at most one live row exactly as long as no import writes beside a
  live row that it does not take over (`MemoryImport.OneRowIff`); overlapping imports
  and failed lookups do so from an empty store (`MemoryImport.OverlapFromEmpty`,
  `MemoryImport.FailedLookupFromEmpty`). Declining an offer does not stop silent pulls
  of it (`MemoryImport.DeclinedKeepsPulling`).
- A generated endpoint name is valid exactly when its base fits the number of its
  candidates already taken (`AddonNames.CollectedValidIff`); a one-letter operation id
  and a second operation with a 62-character base break it (`AddonNames.OneLetterName`,
  `AddonNames.LongNamesCollide`).

## Model

| member | source | states |
|---|---|---|
| Bridge.ReadLinesLoop | cmd/mcplexer/connect.go:169-183 | the scanner loop sends every non-empty line up to the first over-long one, as `ReadLines` says |
| BridgeProofs.RunInv | cmd/mcplexer/connect.go:66-141 | every state of every run keeps the four invariants: one writer, frames, handshake, output |
| BridgeProofs.AtMostOneWriter | cmd/mcplexer/connect.go:232-325 | in any state of any run at most one session's writer is live |
| BridgeProofs.LiveFramesArePrefix | cmd/mcplexer/connect.go:232-325 | the live frames over all connections are a prefix of the stdin lines, each attempted once, with at most one line held by a writer |
| BridgeProofs.CapturedOnce | cmd/mcplexer/connect.go:267-297 | once captured, the initialize never changes, and it is the first initialize line with its roots injected |
| BridgeProofs.ReplayComesFirst | cmd/mcplexer/connect.go:98-125 | a connection dialled after the capture carries the captured initialize, then the captured notification, then live frames only |
| BridgeProofs.OutputIsDaemonBytes | cmd/mcplexer/connect.go:232-325 | the client's bytes are, connection by connection, the daemon's bytes less the first line of each replayed connection |
| BridgeAnswers.CaptureStays | cmd/mcplexer/connect.go:98-125 | the captured initialize keeps its place in every later state: the first initialize on any wire, live, and exactly the later connections replay it |
| BridgeAnswers.OneLiveAttempt | cmd/mcplexer/connect.go:267-297 | a frame that the client sends once has one live attempt over all connections, in every state of every run |
| BridgeAnswers.AnsweredIff | cmd/mcplexer/connect.go:98-125 | in every state of every run, for answers recognised by their content: the client has one iff the daemon sent one that was read in full and was not the first line of a connection with a replay |
| BridgeAnswers.MannerlyAnsweredIff | cmd/mcplexer/connect.go:98-125 | if the daemon answers only where it was asked, a replay with its first line, and the client sends its initialize once: the client has an answer iff the reader of the connection with the live attempt read one in full |
| BridgeAnswers.AnswerLostForGood | cmd/mcplexer/connect.go:98-125 | under the same assumptions, once that reader is done without an answer no later state of the run has one |
| BridgeRuns.HandlingCrashesIff | cmd/mcplexer/connect.go:355-397 | in any run, handling the first initialize stops the process iff it decodes, its params are null and there is a working directory |
| BridgeRuns.CrashMeansFatal | cmd/mcplexer/connect.go:355-397 | if any state of a run has crashed, the first initialize on stdin is such a line |
| BridgeRuns.CrashReachableIff | cmd/mcplexer/connect.go:355-397 | some run on an input crashes iff its first initialize is such a line |
| BridgeRuns.LostInitialize | cmd/mcplexer/connect.go:98-125 | for every initialize line and either outcome of its live Write there is a run, with a daemon as assumed, in which its answer is discarded and the client has none |
| BridgeRuns.AnsweredByChance | cmd/mcplexer/connect.go:98-125 | if the daemon sends any other line first on the new connection, that one is discarded and the answer to the replay reaches the client |
| TaskSync.Sink.constructor | cmd/mcplexer/task_sync_wire.go:105-108 | the sink starts from the given memberships and rows |
| TaskSync.Sink.ApplyRemoteEvent | cmd/mcplexer/task_sync_wire.go:110-122 | the new state and outcome are those of `ApplyEvent`, with a store fault at any point |
| TaskSync.Sink.ApplyWorkspaceAccess | cmd/mcplexer/task_sync_wire.go:124-146 | the new memberships and outcome are those of `ApplyAccess`; rows are untouched |
| TaskSync.OnlyHomeMoves | cmd/mcplexer/task_sync_wire.go:110-146 | over any messages from peers other than a workspace's home, its membership and rows do not change |
| TaskSync.GrantsMoveOnlyWhenNamed | cmd/mcplexer/task_sync_wire.go:124-146 | over any messages, status, capabilities and epoch change only through receipts from the home that name the workspace, its share and its remote workspace |
| TaskSync.CursorMovesOnlyWhenAdmitted | cmd/mcplexer/task_sync_wire.go:110-122 | over any messages, the cursor and the rows of a workspace change only through events admitted when they arrive |
| TaskSync.MembershipsGrow | cmd/mcplexer/task_sync_wire.go:110-146 | over any messages a membership keeps share, home and remote workspace, and its epoch and cursor never decrease |
| TaskSync.RevokedUntilRegranted | cmd/mcplexer/task_sync_wire.go:124-146 | a revoked workspace stays revoked through a run iff no message is an active receipt from its home, for its share, at its epoch or later; until then no row changes |
| TaskSync.RowChangeIsAdmitted | cmd/mcplexer/task_sync_wire.go:110-122 | over any messages a row ends up different only through an event that was admitted when it arrived, into that event's revision, and stays in its workspace |
| CatchUpProofs.PullIsApplied | cmd/mcplexer/task_sync_wire.go:110-122 | the model's write and cursor steps over a pull's frames are the sink's `ApplyEvent` on one after the other, whatever faults they meet |
| CatchUpProofs.CursorHonestIff | internal/p2p/task_sync_p2p.go:381-480 | over every interleaving of home writes, overlapping pulls, breaks, faults and receipts, the mirror holds the current revision of every readable row at or below its cursor throughout iff no acknowledgement overtakes an owed row and no older frame displaces a covered one |
| CatchUpProofs.OnePullHonestIff | cmd/mcplexer/task_sync_sched.go:144-178 | if pulls never overlap, it holds throughout iff no acknowledgement leaves behind a row that the same pull failed to write and that is still owed |
| CatchUpProofs.FailedWriteLoses | internal/p2p/task_sync_p2p.go:425-456 | with one pull and two rows, a failed write of the first ends with the cursor past it and the row lost |
| CatchUpProofs.OverlapRegresses | cmd/mcplexer/task_sync_sched.go:163-178 | two overlapping pulls with every store call successful end with the cursor past a row whose current revision is not mirrored |
| CatchUpProofs.SessionHonestIff | internal/p2p/task_sync_p2p.go:425-456 | from any state, a pull's frames leave the cursor honest iff every readable row up to the last stamp it acknowledges was last written at its current revision, or not written by it and mirrored before |
| CatchUpProofs.LostForGood | internal/p2p/task_sync_p2p.go:626-660 | a row the cursor has passed without applying, that no frame carries, is never delivered by any later session until the home writes it again |
| CatchUpProofs.LeftBehindForGood | internal/p2p/task_sync_p2p.go:425-456 | without overlap, a row that an acknowledgement leaves behind is such a row from that moment on |
| CatchUpProofs.PageSpec | internal/store/sqlite/task.go:610-634 | a page is ordered, readable, past the watermark, and skips nothing readable up to its last row |
| Paging.StreamWorkspace | internal/p2p/task_sync_p2p.go:626-660 | the paging loop sends exactly `Stream` |
| Paging.StreamSpec | internal/p2p/task_sync_p2p.go:626-660 | a session sends everything readable up to its last row, and no batch of unreadable rows begins before it |
| Paging.CatchUpCompleteIff | internal/p2p/task_sync_p2p.go:626-660 | repeated sessions deliver every readable row iff no `batch` consecutive unreadable rows stand before a readable one |
| SyncSchedule.LinkedWorkspacesByPeer | cmd/mcplexer/task_sync_sched.go:183-210 | each peer maps to its eligible memberships in listing order, and peers with none are absent |
| SyncSchedule.AskedOnlyOfHome | cmd/mcplexer/task_sync_sched.go:183-210 | something is asked of a peer iff it is an active, fully named membership whose home is that peer |
| SyncSchedule.SyncPeer | cmd/mcplexer/task_sync_sched.go:239-270 | Hellos are consecutive full chunks within the limit, stop at the first failed dial, the outbox is retried iff all succeed, and the call succeeds iff that retry does not fail |
| SyncSchedule.Source.constructor | cmd/mcplexer/task_sync_wire.go:151-155 | the disclosure ledger starts empty |
| SyncSchedule.Source.List | cmd/mcplexer/task_sync_wire.go:203-253 | a successful call returns exactly the readable rows and has recorded a disclosure for each; one that fails at a row returns none and has recorded the readable rows before it |
| ClassKey.JsonQuoteLoop | cmd/mcplexer/monitoring_baseline_wire.go:194-208 | the rune loop computes `JsonQuote` |
| ClassKey.StoredIs | cmd/mcplexer/monitoring_baseline_wire.go:194-208 | reading a quoted key by section 7 of RFC 8259 gives the key with breaks as spaces, or fails on any other control character |
| ClassKey.QuoteRoundTripIff | cmd/mcplexer/monitoring_baseline_wire.go:194-208 | a key of characters comes back as itself iff it holds no control character |
| ClassKey.KeyRoundTripIff | cmd/mcplexer/monitoring_baseline_wire.go:194-208 | a key of any bytes, ranged over as runes, comes back as itself iff every byte is part of a character and none is a control character |
| Election.OneTaskPerClass | internal/store/sqlite/migrations/143_monitoring_incidents.sql:108-117 | in every run of any number of ensurers, with deletes, a non-empty class has at most one live task per workspace |
| Election.CallersAgree | cmd/mcplexer/monitoring_anomaly_wire.go:107-136 | without deletes, all anomaly and baseline callers that get a task for a control-free class get the same one |
| Election.AdoptFindsIff | cmd/mcplexer/monitoring_baseline_wire.go:125-150 | a caller that lost the race finds the winner's row iff its key holds no control character |
| Election.AnomalyTaskIsOpen | cmd/mcplexer/monitoring_anomaly_wire.go:157-168 | over any run the task an anomaly has settled on is open until somebody closes it under that caller |
| Election.ElectTwice | cmd/mcplexer/monitoring_baseline_wire.go:125-167 | a second election returns the first one's task iff the key is control-free, else an error or an empty id |
| DueNotices.ReceiptMeansAnnounced | cmd/mcplexer/task_notify.go:83-99 | in every interleaving a receipt exists only for a pair that was announced |
| DueNotices.AnnouncedAtMostOnceMore | cmd/mcplexer/task_due_notify.go:61-98 | over any run, restarts included, due announcements of a pair exceed its lost receipts by at most one |
| DueNotices.SilencedForGood | cmd/mcplexer/task_due_notify.go:74-83 | once a pair has a receipt and no scan has chosen it, it is never announced as due again |
| DueNotices.AnnouncedManyTimes | cmd/mcplexer/task_due_notify.go:88-98 | for every n there is a run that announces a task n times, losing n receipts |
| DueNotices.ErrorFreeScan | cmd/mcplexer/task_due_notify.go:61-98 | in any interleaving, a scan without an error of its own asks about exactly its listed pairs, announces one, once, iff it had no receipt when its own check ran, and leaves a receipt for every listed pair |
| DueNotices.ListingBegins | cmd/mcplexer/task_due_notify.go:100-123 | the due rows of a listing of distinct tasks are distinct pairs, so a scan can begin with them |
| DueNotices.ListDue | cmd/mcplexer/task_due_notify.go:100-123 | the paging loop returns exactly the due rows of a stable listing, in order |
| MemoryImport.ImportedOnce | cmd/mcplexer/memory_share_wire.go:335-397 | over any run with one import at a time per source memory, deletions and supersessions included, it has at most one live row |
| MemoryImport.OneRowIff | cmd/mcplexer/memory_share_wire.go:335-397 | over any run, overlapping imports, failed lookups, deletions and supersessions included, every source memory has at most one live row throughout iff no write comes upon a live row of its memory that it does not take over |
| MemoryImport.OverlapDoublesIff | cmd/mcplexer/memory_share_wire.go:335-397 | two imports of one memory, whatever happens between their writes, leave both rows live iff the later payload does not take over the earlier one's row |
| MemoryImport.OverlapFromEmpty | cmd/mcplexer/memory_share_wire.go:335-397 | from an empty store, two imports that look before either writes leave two rows, both live iff the second does not take over the first |
| MemoryImport.FailedLookupFromEmpty | cmd/mcplexer/memory_share_wire.go:305-326 | from an empty store, the same holds one after the other if the second lookup fails |
| MemoryImport.RepeatReturnsSameIff | cmd/mcplexer/memory_share_wire.go:305-326 | an import writes, anything happens that leaves one row per memory, a repeat looks: it returns that row iff the row was neither deleted nor taken over in between |
| MemoryImport.NeverPulledAgain | cmd/mcplexer/memory_share_wire.go:88-157 | an offer stamped as imported never passes the silent-pull gate again |
| MemoryImport.DeclinedKeepsPulling | cmd/mcplexer/memory_share_wire.go:138-157 | a declined offer is never stamped, so it passes the gate every time |
| MemoryImport.AllowedWorkspaces | cmd/mcplexer/memory_share_wire.go:187-204 | wildcard iff the wildcard scope is held; else the named workspaces in order, and global rows iff the bare scope is held |
| RulesFile.ParseVersionLoop | internal/agentrules/writer.go:202-211 | the digit loop computes the version with 64-bit wrap-around, or -1 |
| RulesFile.Rules.constructor | internal/agentrules/writer.go:41-108 | the object holds the file it was given |
| RulesFile.Rules.SyncBlock | internal/agentrules/writer.go:41-108 | the new file and the returned flag are those of `Sync` |
| RulesTheorems.WrittenIsFound | internal/agentrules/writer.go:22 | a rendered block is found again exactly, after any text without a stray marker line and before any text that lets it end |
| RulesTheorems.FoundIsMatch | internal/agentrules/writer.go:22 | what the reader finds decomposes the text as the pattern says |
| RulesTheorems.MatchIsFound | internal/agentrules/writer.go:22 | wherever the pattern matches, the reader finds a block there or earlier |
| RulesTheorems.BodyIsShortest | internal/agentrules/writer.go:22 | of all matches at the place of the found block none has a shorter body |
| RulesTheorems.SyncSettles | internal/agentrules/writer.go:41-108 | without an unpaired BEGIN line a second Sync changes nothing |
| RulesTheorems.UnpairedSyncsTwice | internal/agentrules/writer.go:41-108 | with one, both the first and the second Sync rewrite the file |
| RulesStray.UnpairedSettlesInTwo | internal/agentrules/writer.go:41-108 | the second Sync removes the text from the stray marker line to the end of the file, and a third changes nothing; without a requested URL, if the first Dashboard line behind that line holds no marker |
| RulesStray.StrayExists | internal/agentrules/writer.go:22 | a file that is only a marker line is such a file, for every version |
| RulesTheorems.SyncIdempotentIff | internal/agentrules/writer.go:41-108 | Sync settles in one call iff no marker line lacks its END |
| RulesTheorems.SyncHonest | internal/agentrules/writer.go:41-108 | `changed` is true iff the file's bytes differ |
| RulesTheorems.SyncKeepsSurroundings | internal/agentrules/writer.go:76-108 | replacing keeps every byte before the block and everything after END past the spaces it swallows |
| RulesTheorems.StatusAgreesWithSync | internal/agentrules/status.go:22-44 | up to date iff a plain Sync is a no-op |
| RulesTheorems.DryRunAgreesWithSync | internal/agentrules/writer.go:127-187 | DryRun predicts whether Sync writes, and predicts the bytes iff no custom URL is installed |
| RulesTheorems.DiffReadsRendered | cmd/mcplexer/rules.go:114-137 | after a default-URL Sync, `rules diff` reads back exactly the rendered block if no BEGIN text precedes it |
| RulesTheorems.UrlEnforcedIff | internal/agentrules/writer.go:76-98 | a current block is rewritten to a requested URL iff that URL is not a prefix of the installed one |
| RulesTheorems.NegativeNeverSettles | internal/agentrules/writer.go:22 | with a negative version, after any number of Syncs into a fresh file the next one still appends |
| AddonSlug.SlugSpec | internal/addon/openapi_slug.go:16-29 | a slug is empty iff the input has no letter or digit, else `[a-z][a-z0-9_]{0,61}` without doubled underscores |
| AddonSlug.SlugIdempotentIff | internal/addon/openapi_slug.go:16-29 | slugging twice changes nothing iff the length limit does not cut the slug just after an underscore, the only way a slug ends in one |
| AddonSlug.SlugTwice | internal/addon/openapi_slug.go:25-27 | slugging a slug drops exactly a trailing underscore and nothing else |
| AddonSlug.SlugStabilises | internal/addon/openapi_slug.go:16-39 | slugging settles after two applications |
| AddonPath.RewriteLoop | internal/addon/openapi_endpoints.go:94-121 | the builder loop computes `Rewrite` |
| AddonPath.RewriteIsExpand | internal/addon/openapi_endpoints.go:79-88 | for any path and any list of names the scans treat each token on its own, as a small machine over the names says |
| AddonPath.FinalIff | internal/addon/openapi_endpoints.go:79-88 | a token is left alone iff its name is not scanned for, becomes its own slot iff no later scan is for what the slot turns into, and has stray braces otherwise |
| AddonPath.ImportRewritesIff | internal/addon/openapi_endpoints.go:79-88 | for any list of names, every recognised token of every path is replaced exactly once iff no name turns into one that is scanned for later |
| AddonPath.OrderIrrelevantIff | internal/addon/openapi_endpoints.go:79-88 | the order of the parameters is irrelevant on every path iff no name turns into another under a later scan |
| AddonPath.CutNamesClash | internal/addon/openapi_slug.go:25-27 | a slug cut just after an underscore turns into the slug without it, so two such names are sensitive to their order |
| AddonPath.PassesLeaveStrays | internal/addon/openapi_endpoints.go:94-121 | k scans for any name give its slot followed by exactly k - 1 stray braces if a later scan matches the name again, and by none if not |
| AddonPath.ScanKeepsIff | internal/addon/openapi_endpoints.go:79-88 | for any list of names, the scans leave a text as it is iff it holds no recognised token |
| AddonPath.BuildRewritesAgain | internal/addon/builder.go:194-200 | building an imported endpoint leaves the tokens of a closed base URL as one round of scans does and those of the path as two rounds do |
| AddonPath.TwiceIff | internal/addon/builder.go:194-200 | after two rounds a recognised token is its own slot iff that slot turns into no name of the list, and has stray braces otherwise |
| AddonPath.BuildKeepsImportIff | internal/addon/builder.go:194-200 | building keeps what the import wrote iff the joined URL holds no recognised token: with a closed base URL, none of its own and none of the path that is matched again once replaced |
| AddonPath.CollectParams | internal/addon/openapi_endpoints.go:143-159 | the loop keeps the first parameter of each non-empty name |
| AddonPath.PathNamesDistinct | internal/addon/openapi_endpoints.go:143-159 | no name is scanned for twice in one pass |
| AddonRequest.SubstituteKeepsStructure | internal/addon/executor.go:216-237 | substitution keeps the number of `/`, `?` and `#` of the template, whatever the values |
| AddonRequest.RewriteThenSubstitute | internal/addon/executor.go:216-237 | one rewrite followed by substitution is direct filling of the path's own tokens, refusals and names that are no word included |
| AddonRequest.RewrittenCallIsRightIff | internal/addon/executor.go:216-237 | it reaches the described URL iff no recognised token has a name that is no word or a slot that is scanned for later, or the arguments lack a value both for a token's own name and for a slot that is left |
| AddonRequest.ImportedCall | internal/addon/executor.go:216-237 | an imported, built and called endpoint fills the base URL's tokens after one round of scans and the path's after two, refusals included |
| AddonRequest.ImportedCallIsRightIff | internal/addon/builder.go:194-200 | it reaches the described URL iff no recognised token has a name that is no word, none of the path has a slot that turns into a name of the list, none of the base URL one scanned for later; or the arguments lack a value both for a token's own name and for a slot that is left |
| AddonQuery.EscapeRoundTrip | internal/addon/executor.go:241-282 | unescaping an escaped component gives it back, for any bytes |
| AddonQuery.QueryRoundTrip | internal/addon/executor.go:241-282 | a server reads an encoded query back as exactly the pairs sent, with any bytes |
| AddonQuery.QueryArrives | internal/addon/executor.go:241-282 | from the query of the request URL, for a URL without a fragment, it reads the pairs the URL had and then exactly those sent |
| AddonQuery.QueryArrivesIff | internal/addon/executor.go:241-282 | for any URL it does so iff no parameter is sent or the URL has no fragment |
| AddonQuery.RoutedQueryArrivesIff | internal/addon/executor.go:91-116 | for a routed call it does so iff no parameter is sent or the tool's URL template has no hash, whatever the arguments |
| AddonQuery.PairsPermuted | internal/addon/executor.go:241-282 | the order in which the definitions are walked only permutes the pairs |
| AddonQuery.AppendQueryParams | internal/addon/executor.go:241-282 | the URL grows by exactly the encoded non-empty parameters, and every argument a template names is consumed |
| AddonQuery.BuildBody | internal/addon/executor.go:285-296 | the body is exactly the arguments not consumed |
| AddonQuery.RouteArguments | internal/addon/executor.go:91-116 | an argument is in the body iff the method and the body mapping carry one and no placeholder of the URL or a query template names it; there is no body if none is left |
| AddonNames.PickName | internal/addon/openapi_endpoints.go:125-138 | the suffix loop ends within one try more than there are used names, with the first free candidate |
| AddonNames.CollectNames | internal/addon/openapi_endpoints.go:12-28 | names are pairwise distinct, each the first free candidate of its operation |
| AddonNames.CandidateValidIff | internal/addon/builder_validate.go:9 | with k candidates taken a name passes the validator iff k is 0 and the base has two characters, or the base and the suffix fit in 63 |
| AddonNames.CollectedValidIff | internal/addon/openapi_endpoints.go:12-28 | every name of a document passes iff its base fits the number of its candidates that earlier operations took |
| AddonNames.LongNamesCollide | internal/addon/openapi_endpoints.go:125-138 | of two operations with one 62-character base the second gets that base with `_2`, which the validator refuses |
| AddonNames.OneLetterName | internal/addon/openapi_endpoints.go:125-138 | an operation id that slugs to one letter gets a name the validator refuses |
| AddonRegistry.Registry.constructor | internal/addon/loader.go:43-46 | an empty registry whose views agree |
| AddonRegistry.Registry.LoadFile | internal/addon/loader.go:80-133 | adds a file's tools in order, or stops at the first refused one and keeps exactly those before it; the three views agree either way |
| AddonRegistry.LoadDir | internal/addon/loader.go:32-60 | a registry of all files' tools with agreeing views, or null if any file is refused |
| AddonRegistry.Registry.Reload | internal/addon/builder.go:179-190 | all three views become the directory's content, or all stay as they were |
| AddonRegistry.Registry.ToolsForNamespace | internal/addon/loader.go:143-150 | the in-order filter of all tools, empty for an unknown namespace |
| AddonRegistry.LookupIsExact | internal/addon/loader.go:136-140 | looking up a tool's full name gives that tool |
| AddonRegistry.NamespaceHolds | internal/addon/loader.go:143-150 | a namespace's list holds exactly its own tools, each as often as the registry |
| AddonRegistry.LoadedDistinct | internal/addon/loader.go:116-124 | after a successful load no two tools share a full name |
| Leaderboard.ArmIdInjective | internal/api/concierge_handler.go:108 | an arm id determines its worker and version |
| Leaderboard.SortArms | internal/api/concierge_handler.go:142-152 | the in-place sort gives a strictly ordered permutation |
| Leaderboard.Reduce | internal/api/concierge_handler.go:105-130 | one bucket per arm with its counts, total, caption and latest time |
| Leaderboard.BuildArmLeaderboard | internal/api/concierge_handler.go:105-137 | the response is the rows of a board: every arm once, correct rollups, strictly sorted |
| Leaderboard.BoardUnique | internal/api/concierge_handler.go:105-163 | the board depends only on the multiset of signals |
| Leaderboard.TotalsAddUp | internal/api/concierge_handler.go:105-130 | the arms' totals add up to the number of signals |
| Leaderboard.VerdictsAddUpIff | internal/api/concierge_handler.go:117-126 | wins, losses and draws make up an arm's total iff none of its labels is unknown |

## Left out

- Backoff timing, deadlines, context time-outs and socket details: they appear only as steps that may or may not happen.
- TaskSync.Sink.ApplyRemoteEvent: a row is its workspace and its home revision; the field-level merge of a patch, status history and events are not modelled.
- BridgeAnswers.MannerlyAnsweredIff: that the daemon answers only where it was asked, and a replay with its first line, is an assumption on the daemon and is not derived from its code.
- CatchUpProofs.CursorHonestIff: local edits of mirror rows, deletions that travel as events, and changes of read permission without a new revision are not modelled; home stamps are distinct and growing.
- Paging.CatchUpCompleteIff: for a quiet home and sessions without faults; the interleaved case is the subject of `CatchUpProofs`.
- SyncSchedule.LinkedWorkspacesByPeer: the legacy branch over linked-workspace rows is not modelled.
- WorkspaceAccess on the home side and the authoriser's grant evaluation: single-function lookups over stores, taken as given verdicts.
- Election.CallersAgree: the triage path, which writes the same marker with another encoder, is not one of the callers.
- Incident records, dispositions and publication of the elected task: they follow the election and add only easy members.
- Titles, bodies, priorities, ordering and message ids of due notices (the batch id is a hash over sorted fingerprints).
- DueNotices.ListDue: rows that move between pages while the listing runs.
- Entity links, tags, embeddings and workspace routing of imported memories.
- AddonQuery.QueryArrives: a server that rejects semicolons in the query the URL already had; those sent are escaped.
- MemoryImport.NeverPulledAgain: a failing read of the offer table, which the code treats as not imported.
- RulesStray.UnpairedSettlesInTwo: without a requested URL, files whose first Dashboard line behind the stray marker line itself holds a marker.
- RulesTheorems.SyncIdempotentIff: content versions are a text around one Dashboard line without markers; file modes, directory creation and read errors are not modelled.
- AddonPath.BuildRewritesAgain: base URLs whose last opening brace is never closed, so that its token runs on into the path; `AddonPath.BuildKeepsImportIff` covers them.
- AddonRequest.RewriteThenSubstitute: a token that holds a further opening brace is covered only if it is recognised, and names that hold an opening brace are not; formatting of non-string argument values is taken as given bytes.
- AddonRequest.ImportedCall: the same tokens and names, and base URLs whose last opening brace is never closed.
- OpenAPI and YAML parsing, authentication, response handling and the builder's schema output.
- Leaderboard: the 1000-row limit and the filters of the listing.
- Serving wiring, daemon management, dashboards, HTTP handlers other than the leaderboard, and all other commands.
