# Verification model of agentactr

agentactr drives coding agents from issue trackers: it drafts and submits issues, claims them under a lease,
runs an agent process under memory supervision, runs the repository's quality gates and shows what happened.
This project models the parts in which correctness depends on state, loops and the order of effects, and
proves what they promise.  `dafny verify dfyconfig.toml` checks all of it.

| file | what it models |
|---|---|
| `IssueLedger.dfy`, `IssueMarkers.dfy`, `SubmissionProtocol.dfy`, `SubmissionHistory.dfy` | the issue submission ledger: four SQL statements, the recovery marker, and any number of concurrent processes that may crash between any two effects, and what a row says about the past |
| `ClaimMarkers.dfy`, `LeaseClaims.dfy`, `LeaseHistory.dfy` | lease claims as issue comments: printing and parsing, one claim, and whole histories of claims |
| `Pagination.dfy`, `RequestRetry.dfy` | the page walks and the bounded retry loop of the GitHub adapter |
| `MemoryActions.dfy`, `RegistryRuns.dfy`, `ProcessTree.dfy`, `MemorySizes.dfy` | the memory monitor: shared registry, action executor, process tree walk, byte sizes |
| `RuntimeLifecycle.dfy` | the event log of one runtime process on every way out |
| `GateRunner.dfy`, `GateOptIns.dfy`, `GateReport.dfy`, `ShellWords.dfy` | the quality gate runner, opting in, its report and the reader of that report, and shell words |
| `TraceRecords.dfy`, `AgentStates.dfy`, `TraceSummaries.dfy`, `Redaction.dfy`, `CompactJson.dfy` | the folds over logs behind the terminal view and the trace commands, and redaction for debug bundles |
| `Text.dfy`, `Sequences.dfy`, `Numbers.dfy`, `Wrappers.dfy` | string functions of the Rust standard library, sequence facts, `Min`, `Option` and `Result` |

Databases, trackers, processes, files and clocks are parameters: a table, a sequence of answers, a child relation,
an arbitrary function from call numbers to results.  A theorem about them holds for every answer they may give.

What the proofs showed about the code:

- The ledger's SQL guards alone keep the create call unique; the planner is not needed for it.  Keys that differ only
  in an absent, zero or oversized parent issue share a primary key and get one create call between them
  (`SubmissionProtocol.OneCreatePerPrimaryKey`).
- Whatever runs and crashes, a row that says `linked` was confirmed by the tracker or needed no link
  (`SubmissionHistory.LinkedWasConfirmed`).
- Recovery by marker is unambiguous exactly as long as no marker shows in another proposal's issue
  (`SubmissionProtocol.AmbiguousSearchIff`).  Issue sets are always told apart, but two proposals with equal contents
  are not if sanitising drops what distinguishes their ids, and a draft that quotes another proposal's marker is found
  with it.  In the same cases, and no others, a resume can record another proposal's issue as its own
  (`SubmissionProtocol.MisnamedRowIff`).
- The search marker of a run does not close the run id, so a run whose id is a prefix of another's finds the other's
  claim comment as well (`ClaimMarkers.FoundIffPrefix`); `LeaseHistory.OverwritesIff` says exactly when it replaces it,
  which is never before that lease has expired.  Still no run ever gets two comments.
- The page walks stop except on a list so long that page 4294967295 is full (`Pagination.WalkStopsIff`).
- A helper is registered when it is marked for cancellation, but when the supervisor is called only unless its last
  change of registration in between was a removal (`RegistryRuns.RegisteredAtCallIff`).
- An opt-in is brought into lower case and a gate's own texts are not; for the names the SDK makes this is harmless
  (`GateOptIns.EnabledIff`, `GateOptIns.LanguageGateIsEnabled`).
- The status map and the status search differ on a run whose last status event carries no string although an
  earlier one carried a known status (`TraceSummaries.StatusesAgreeIff`).
- Redaction is idempotent on values and on lines that are not JSON.  On a JSON line it is exactly when the numbers left
  in it read back as themselves, which the JSON library does not promise for floats (`Redaction.LineIsIdempotentIff`),
  and a text may lose its last empty line or a carriage return besides (`Redaction.TextIsIdempotentIff`).

## Model

| member | source | states |
|---|---|---|
| `IssueLedger.LedgerDatabase.Load` | crates/agentactr-cli/src/issue_commands.rs:2184-2235 | The row a key selects: the primary key must match and the text column for the parent issue too. |
| `IssueLedger.LedgerDatabase.Begin` | crates/agentactr-cli/src/issue_commands.rs:2237-2349 | For any planner: the new table and success are those of one guarded statement, and a failure leaves the table as it was. |
| `IssueLedger.LedgerDatabase.Materialize` | crates/agentactr-cli/src/issue_commands.rs:2351-2386 | The loop of insert-or-ignore statements gives the table of the specification fold. |
| `IssueLedger.LedgerDatabase.Record` | crates/agentactr-cli/src/issue_commands.rs:2388-2428 | The update sets the state and keeps a stored number or id that the caller does not replace; without a matching row nothing changes. |
| `IssueLedger.BeginIsGuarded` | crates/agentactr-cli/src/issue_commands.rs:2237-2349 | Whatever the planner says, begin succeeds only over a free primary key or a pending row; then exactly that row becomes submitted and no other row changes. |
| `IssueLedger.PlannedBeginSucceedsIff` | crates/agentactr-sdk/src/issue_submission.rs:1154-1168 | With the SDK's planner begin succeeds if and only if the primary key is free or the selected row is pending. |
| `IssueLedger.MaterializeOnlyAddsPending` | crates/agentactr-cli/src/issue_commands.rs:2351-2386 | Materialising any proposals adds pending rows that name no issue, one for each new primary key, and leaves every stored row as it is. |
| `IssueLedger.PrimaryKeysEqualIff` | crates/agentactr-cli/src/issue_commands.rs:2184-2235 | Two keys share a row if and only if they differ at most in parents that are absent, 0 or beyond the column's range. |
| `IssueLedger.RecordedRowIs` | crates/agentactr-cli/src/issue_commands.rs:2388-2428 | By columns: recording replaces the state of exactly this key's row, its number and id only by values that fit, and leaves every other row alone. |
| `IssueMarkers.TokenConcat` | crates/agentactr-core/src/issue_submission.rs:357-362 | Marker tokens are made piece by piece. |
| `IssueMarkers.TokenOfCharacter` | crates/agentactr-core/src/issue_submission.rs:357-362 | Of one character the token keeps an ASCII letter or digit, `-`, `_`, `:` or `.`, and nothing else. |
| `IssueMarkers.TokenKeepsSafeText` | crates/agentactr-core/src/issue_submission.rs:357-362 | A marker token keeps a text that already uses only the allowed characters. |
| `IssueMarkers.MarkersEqualIff` | crates/agentactr-core/src/issue_submission.rs:203-214 | Two keys have the same marker text if and only if their three sanitised tokens agree one by one. |
| `IssueMarkers.IssueSetsAreToldApart` | crates/agentactr-cli/src/main.rs:1107-1130 | Keys with equal markers have the same issue set, because accepted issue set ids hold only characters that sanitising keeps. |
| `IssueMarkers.ProposalsCollide` | crates/agentactr-core/src/issue_submission.rs:357-362 | Two proposals whose ids differ in any one dropped character have one marker but two primary keys. |
| `IssueMarkers.StrippingCollides` | crates/agentactr-cli/src/issue_commands.rs:719-765 | Concrete pair in any accepted issue set: proposals `p1` and `p/1` with one content digest share a marker but not a row. |
| `IssueMarkers.CandidateIff` | crates/agentactr-cli/src/adapters.rs:1580 | A posted issue body carries the marker of a key if and only if its own marker is the same or the drafted body quotes it; none arises across the blank line or inside another marker. |
| `SubmissionProtocol.GuardedIsKept` | crates/agentactr-cli/src/issue_commands.rs:2237-2428 | Every step of every process keeps the submission guard: whoever may create a key's issue is alone, and nobody has created it yet. |
| `SubmissionProtocol.CreateIsCalledAtMostOnce` | crates/agentactr-cli/src/issue_commands.rs:505-511 | Over every interleaving of submits, resumes and drafts, with a crash at any point and arbitrary planner answers, the create call happens at most once per ledger key. |
| `SubmissionProtocol.OneCreatePerPrimaryKey` | crates/agentactr-cli/src/issue_commands.rs:2237-2349 | Over the same runs two create calls never share a primary key, so keys that differ only in an absent, zero or oversized parent get one between them. |
| `SubmissionProtocol.TrackedIsKept` | crates/agentactr-cli/src/issue_commands.rs:383-640 | Every step keeps: issues belong to distinct keys that were really created, rows and processes name only issues that exist for their key. |
| `SubmissionProtocol.OneIssuePerKey` | crates/agentactr-cli/src/adapters.rs:1795-1862 | In every reachable state at most one issue has the exact marker of a key, exactly one once the row is past submitted, and it is the issue the row names. |
| `SubmissionProtocol.AtMostOneMatch` | crates/agentactr-cli/src/adapters.rs:1795-1862 | When no marker shows in the issue of another proposal, at most one issue has the exact marker in its body, whatever drafts the issues hold; hits that are no exact matches are not counted here. |
| `SubmissionProtocol.RecordedIdentityIsStable` | crates/agentactr-cli/src/issue_commands.rs:2388-2428 | One step never drops a row, never returns it to pending, and never clears or changes the issue number or id it names. |
| `SubmissionProtocol.RecordedIdentityNeverChanges` | crates/agentactr-cli/src/issue_commands.rs:2388-2428 | The same over any stretch of any run. |
| `SubmissionProtocol.CollisionIsReachable` | crates/agentactr-cli/src/adapters.rs:1795-1862 | Two proposals of one repository with different rows, the marker of one of which shows in the other's issue, can both be submitted, and then the search has several candidates. |
| `SubmissionProtocol.AmbiguousSearchIff` | crates/agentactr-cli/src/adapters.rs:1795-1862 | Exact condition: some run over a set of proposals reaches an ambiguous search if and only if, for two of one repository with different rows, their markers are equal or one draft quotes the other's marker. |
| `SubmissionProtocol.AcceptedProposalsCollide` | crates/agentactr-cli/src/issue_commands.rs:719-765 | Such proposals exist in every accepted issue set: equal contents under the ids `p1` and `p/1`. |
| `SubmissionProtocol.QuotingCollides` | crates/agentactr-cli/src/adapters.rs:1580 | A draft that quotes another proposal's marker makes the search for it ambiguous even if all markers differ. |
| `SubmissionProtocol.MisnamedRowIff` | crates/agentactr-cli/src/adapters.rs:1795-1862 | Exact condition for the worse outcome: some run leaves a row that names another key's issue if and only if the marker of one proposal shows in the issue of another that can be begun beside it. |
| `SubmissionProtocol.PlannerIsCovered` | crates/agentactr-sdk/src/issue_submission.rs:1170-1239 | In every guarded state the SDK planner's answer is a step of the protocol; it asks for creation exactly when no row has begun, for recovery exactly when a resume finds submitted. |
| `SubmissionHistory.LinkedWasConfirmed` | crates/agentactr-cli/src/issue_commands.rs:440-640 | Over every run: a row that says linked goes back to a link request for its key that the tracker confirmed, or its key has no parent and an issue was seen for it without mismatch. |
| `SubmissionHistory.UnlinkedWasRefused` | crates/agentactr-cli/src/issue_commands.rs:453-640 | Over every run: a row that says created_unlinked goes back to a link request for its key that the tracker refused, or that failed in a first submission. |
| `SubmissionHistory.CreatedWasSeen` | crates/agentactr-cli/src/issue_commands.rs:396-541 | Over every run: a row that says created or created_metadata_mismatch goes back to a create call or a search for its key that showed one issue, without a mismatch or with one. |
| `SubmissionHistory.EarlyRowWasWritten` | crates/agentactr-cli/src/issue_commands.rs:2237-2386 | Over every run: a submitted row was begun for exactly its key, and a pending one materialised with it. |
| `SubmissionHistory.LinkAnswerIsRecorded` | crates/agentactr-cli/src/issue_commands.rs:567-640 | Whatever others do in between, the process's next event after a link answer records linked if the tracker confirmed it, and created_unlinked if not. |
| `SubmissionHistory.ShownIssueIsRecorded` | crates/agentactr-cli/src/issue_commands.rs:511-541 | Likewise the issue a create call or a search showed is recorded with its number and id, as created or as a mismatch. |
| `SubmissionHistory.WayAfterCreation` | crates/agentactr-cli/src/issue_commands.rs:542-568 | After that an issue without a parent is recorded as linked; one with a parent is offered for linking, which needs its id. |
| `ClaimMarkers.ParseClaimMarker` | crates/agentactr-cli/src/adapters.rs:2737-2767 | The scan for the marker and its attribute loop compute the specification's parse, with the last of repeated attributes winning and none of the five missing. |
| `ClaimMarkers.ClaimRoundTrip` | crates/agentactr-cli/src/adapters.rs:2665-2674 | Parsing a printed claim gives back its run, owner, token and expiry, for all fields without white space and without the closing arrow. |
| `ClaimMarkers.FieldTexts` | crates/agentactr-cli/src/adapters.rs:2665-2674 | The five attributes as they are printed. |
| `ClaimMarkers.ParsedIff` | crates/agentactr-cli/src/adapters.rs:2737-2767 | For any text: it is a claim if and only if it holds an opening, a closing after it, and in between a word for each of the five attributes. |
| `ClaimMarkers.LastPartDecides` | crates/agentactr-cli/src/adapters.rs:2745-2760 | Whatever other words there are, in whatever order, the last word of an attribute gives its value. |
| `ClaimMarkers.BodyStartsWithSearchMarker` | crates/agentactr-cli/src/adapters.rs:2665-2674 | The search marker of a run is a prefix of the comment it prints. |
| `ClaimMarkers.FoundIffPrefix` | crates/agentactr-cli/src/adapters.rs:2665-2674 | The search marker of one run occurs in the claim comment of another if and only if the first run id is a prefix of the second. |
| `LeaseClaims.TrackedIssue.UpsertComment` | crates/agentactr-cli/src/adapters.rs:1219-1286 | The comment list becomes the old one with the first comment that holds the needle replaced, or the body appended. |
| `LeaseClaims.ScanLeases` | crates/agentactr-cli/src/adapters.rs:1396-1427 | The loop over the leases stops at the first that blocks and otherwise describes the last. |
| `LeaseClaims.TrackedIssue.WriteClaim` | crates/agentactr-cli/src/adapters.rs:1428-1480 | The comment, the labels and the read-back, for every tracker fault and a comment reply with or without an id. |
| `LeaseClaims.TrackedIssue.Claim` | crates/agentactr-cli/src/adapters.rs:1373-1481 | The issue after a claim and its answer are those of the claim specification, for every refusal, blocking lease and tracker fault. |
| `LeaseClaims.BlockedIff` | crates/agentactr-cli/src/adapters.rs:1373-1481 | The lease loop stops a claim if and only if some unexpired marker names another run, and reports such a marker. |
| `Text.LessIff` | crates/agentactr-cli/src/adapters.rs:1406 | The order in which expiry times are compared: the texts agree up to a place where the smaller one ends or has the smaller character. |
| `LeaseClaims.MarkersAreParsed` | crates/agentactr-cli/src/adapters.rs:2729-2735 | The markers of an issue are exactly those that some comment parses to. |
| `LeaseClaims.RefusedIff` | crates/agentactr-cli/src/adapters.rs:1373-1395 | By the issue's own fields: refused as a pull request, as not open, or as ignored, exactly under the three conditions in this order, and then unchanged. |
| `LeaseClaims.AcceptedIff` | crates/agentactr-cli/src/adapters.rs:1373-1481 | Accepted if and only if the issue is open, carries no ignored label, is no pull request unless allowed, no other run holds an unexpired lease, and every request succeeds, the comment's with an id; the issue then shows the exact marker and both labels. |
| `LeaseClaims.AcceptedIffShown` | crates/agentactr-cli/src/adapters.rs:1453-1465 | For any lease fields: a claim that is let through is accepted if and only if the read-back shows its exact marker and both labels and the comment had an id. |
| `LeaseClaims.ClaimLeaves` | crates/agentactr-cli/src/adapters.rs:1373-1481 | What every claim leaves behind, by fault: nothing when refused or blocked, else the comment and, from the labels on, exactly the two labels; and which answer goes with it. |
| `LeaseClaims.PreviousLeaseIs` | crates/agentactr-cli/src/adapters.rs:1396-1427 | The lease a claim reports: when blocked the first unexpired one of another run, otherwise the last one found, which is its own run's or expired, and none if no comment parses. |
| `LeaseHistory.StepKeepsOrder` | crates/agentactr-cli/src/adapters.rs:1373-1481 | Claims, renewals, other comments and edits, deletions, relabelling and time keep one holder and at most one comment for a run. |
| `LeaseHistory.OneRunHoldsTheLease` | crates/agentactr-cli/src/adapters.rs:1373-1481 | Over every history of serialised claims all unexpired markers on the issue belong to a single run. |
| `LeaseHistory.OneCommentPerRun` | crates/agentactr-cli/src/adapters.rs:1219-1286 | Over every history no run ever has two claim comments, even with run ids that are prefixes of each other. |
| `LeaseHistory.ClaimCommentsWereAllowed` | crates/agentactr-cli/src/adapters.rs:1373-1481 | Over every history each claim comment was written by an earlier claim with exactly its lease, when the issue was open, carried no label that claim ignores, was no pull request unless allowed, and no other run held an unexpired lease. |
| `LeaseHistory.AcceptedClaimsWereAllowed` | crates/agentactr-cli/src/adapters.rs:1373-1481 | Over every history each accepted claim met these conditions, and the issue then showed it. |
| `LeaseHistory.OverwritesIff` | crates/agentactr-cli/src/adapters.rs:1219-1286 | Exactly when a claim overwrites another run's comment: it is not refused, no other run holds an unexpired lease, the comment request takes effect, and the comment is the first claim of a run whose id begins with the claiming run's. |
| `LeaseHistory.ActiveLeaseIsSafe` | crates/agentactr-cli/src/adapters.rs:1373-1481 | While a lease is unexpired a claim by any other run is refused or fails, and changes nothing. |
| `Pagination.ListIssueComments` | crates/agentactr-cli/src/adapters.rs:1288-1327 | The page walk returns the whole list in order. |
| `Pagination.PushWanted` | crates/agentactr-cli/src/adapters.rs:1705-1793 | One page adds its wanted items until the limit is reached. |
| `Pagination.FetchIssueCandidates` | crates/agentactr-cli/src/adapters.rs:1705-1793 | The walk terminates and returns exactly the first `limit` items of the filtered list from the starting page on. |
| `Pagination.WantedConcat` | crates/agentactr-cli/src/adapters.rs:1705-1793 | Filtering page by page is filtering the whole list. |
| `Pagination.WantedOne` | crates/agentactr-cli/src/adapters.rs:1757-1765 | Of one item the filter keeps it unless it is a pull request and those are not asked for. |
| `Pagination.QueryIs` | crates/agentactr-cli/src/adapters.rs:1705-1720 | The page, page size and limit a query is brought to. |
| `Pagination.WalkStopsIff` | crates/agentactr-cli/src/adapters.rs:1288-1327 | Exact condition: a walk meets a page that is not full if and only if page 4294967295, at which the counter saturates, is not full. |
| `RequestRetry.JsonRequest` | crates/agentactr-cli/src/adapters.rs:2307-2402 | For every answer sequence the loop's outcome, number of requests and sleeps form the one exchange that `ExchangeIs` describes. |
| `RequestRetry.ExchangeIs` | crates/agentactr-cli/src/adapters.rs:2181-2402 | By the responses' fields: each sleep is the retry-after header, else the time to the quota's reset (60 s without one), else 60, 120 or 240 s for a 429 or a secondary limit; a response handed back before the fifth gives no reason to wait; a refused wait comes from the same cases and exceeds 300 s. |
| `RequestRetry.ExchangeIsUnique` | crates/agentactr-cli/src/adapters.rs:2307-2402 | One answer sequence allows exactly one exchange. |
| `RequestRetry.ExchangeIsBounded` | crates/agentactr-cli/src/adapters.rs:2307-2402 | At most five requests, sleeps only after 403 or 429, none above 300 s or 1200 s in all; a response handed back is the last one received. |
| `RequestRetry.BackoffIs` | crates/agentactr-cli/src/adapters.rs:2249-2252 | The backoff is 60 times 2 to the power min(attempt, 4), on the attempt's low 32 bits. |
| `RequestRetry.BackoffIgnoresCastIff` | crates/agentactr-cli/src/adapters.rs:2249-2252 | Exact condition under which the truncating cast of the attempt does not change the backoff. |
| `RequestRetry.FallbackExchange` | crates/agentactr-cli/src/adapters.rs:2181-2212 | With nothing but secondary-limit fallbacks four requests go out, the loop sleeps 60, 120 and 240 s, and gives up before a wait of 480 s. |
| `ProcessTree.ProcessTreePids` | crates/agentactr-cli/src/linux_memory.rs:1327-1343 | For any finite child relation, cyclic or not, the walk ends with exactly the pids reachable from a live root, each once, root first, in order of distance. |
| `ProcessTree.ExpandedIsComplete` | crates/agentactr-cli/src/linux_memory.rs:1327-1343 | A pid n steps below the root is in the finished worklist, at depth at most n. |
| `ProcessTree.DepthIsDistance` | crates/agentactr-cli/src/linux_memory.rs:1327-1343 | The level at which a pid was found is its distance from the root. |
| `MemorySizes.SizesAreExact` | crates/agentactr-cli/src/linux_memory.rs:1465-1488 | For every input text both parsers give the exact product of its number and unit, or an error when one is missing or the product does not fit u64: no result wraps. |
| `MemorySizes.UnitsAreExact` | crates/agentactr-cli/src/linux_memory.rs:1465-1488 | Any digits with a unit in any case, and white space around and between them, parse to that product. |
| `MemorySizes.UnitsAre` | crates/agentactr-cli/src/linux_memory.rs:1465-1488 | The units: bytes, and 1024, 1024^2, 1024^3 and, for the controller alone, 1024^4, each in three spellings. |
| `MemorySizes.CgroupRoundTrip` | crates/agentactr-cli/src/linux_memory.rs:1404-1412 | Parsing a rendered cgroup value returns it for every u64, the `max` sentinel included. |
| `MemorySizes.ParsersAgreeIff` | crates/agentactr-codex/src/lib.rs:1201-1226 | The two byte-size parsers agree on an input if and only if it is neither `max` nor a tera quantity that fits u64. |
| `MemorySizes.OptionalLimitIff` | crates/agentactr-codex/src/lib.rs:1190-1199 | A launch limit is read if and only if its text is a size; the words for no limit are no sizes, so testing them first hides none. |
| `MemorySizes.DecimalRoundTrip` | crates/agentactr-cli/src/linux_memory.rs:1404-1412 | The decimal text of a number has that number as its value. |
| `MemoryActions.ActiveMemoryRegistry.Register` | crates/agentactr-cli/src/linux_memory.rs:140-157 | Registering stores the target under its agent id and does not touch the cancelled set. |
| `MemoryActions.ActiveMemoryRegistry.Unregister` | crates/agentactr-cli/src/linux_memory.rs:159-163 | Unregistering removes the target and does not touch the cancelled set. |
| `MemoryActions.ActiveMemoryRegistry.Mark` | crates/agentactr-cli/src/linux_memory.rs:192-203 | One look-up-and-mark: an agent is handed out only if it is registered and was never marked, and is marked then. |
| `MemoryActions.ActiveMemoryRegistry.TargetByGroupId` | crates/agentactr-cli/src/linux_memory.rs:205-215 | Some registered target of the group, if there is one. |
| `MemoryActions.FailureLatch.Fail` | crates/agentactr-cli/src/linux_memory.rs:721-727 | The latch takes a reason only while it has none. |
| `MemoryActions.CancelHelper` | crates/agentactr-cli/src/linux_memory.rs:1060-1276 | Registry, supervisor calls, cgroup kills and result of a helper cancellation: supervisor first, cgroup kill only if that fails. |
| `MemoryActions.CleanUpGroup` | crates/agentactr-cli/src/linux_memory.rs:1060-1276 | A group clean-up cancels and kills one target of the group, the kill in any case, or does nothing and says so. |
| `MemoryActions.ExecuteMemoryActions` | crates/agentactr-cli/src/linux_memory.rs:1060-1276 | One result per action in order; registry, latch and helper cancellations after the list are those of the three specification folds; the results report every kill and every supervisor call made, each with its answer. |
| `MemoryActions.CancelledAllIs` | crates/agentactr-cli/src/linux_memory.rs:1060-1276 | A list of actions marks exactly the registered agents that its helper cancellations name. |
| `MemoryActions.HelperCallsAre` | crates/agentactr-cli/src/linux_memory.rs:1060-1276 | A list makes exactly one helper cancellation for each registered, uncancelled agent it names, with the target registered and the reason of the first action that names it. |
| `MemoryActions.HelperCallsAreDistinct` | crates/agentactr-cli/src/linux_memory.rs:1060-1276 | One list hands each agent to the supervisor at most once, and only agents that are registered and not yet cancelled. |
| `MemoryActions.LatchKeepsFirst` | crates/agentactr-cli/src/linux_memory.rs:1060-1276 | After any list the latch holds the first reason it ever got. |
| `RegistryRuns.NoAgentIsHandedOverTwice` | crates/agentactr-cli/src/linux_memory.rs:192-203 | Over every interleaving of register, unregister, re-register and cancel by any number of monitors, no agent is handed to the supervisor twice. |
| `RegistryRuns.HandedWasRegistered` | crates/agentactr-cli/src/linux_memory.rs:192-203 | Every target handed over was registered, as that very target, at the moment it was marked. |
| `RegistryRuns.CancelledForever` | crates/agentactr-cli/src/linux_memory.rs:139-215 | A marked agent stays marked through unregistering and registering again. |
| `RegistryRuns.RegisteredAtCallIff` | crates/agentactr-cli/src/linux_memory.rs:1060-1276 | Exactly when a supervisor call finds its agent registered, for every run: unless the last change to its registration between the marking and the call is a removal; and as exactly the marked target unless that change is anything but registering it. |
| `RegistryRuns.RegisteredSinceIff` | crates/agentactr-cli/src/linux_memory.rs:139-215 | The same at every later moment of a run, by the steps alone. |
| `RegistryRuns.MarkedOnce` | crates/agentactr-cli/src/linux_memory.rs:192-203 | An agent is marked at one step of a run only. |
| `RegistryRuns.HandOverCanBeLate` | crates/agentactr-cli/src/linux_memory.rs:1060-1276 | Concrete run in which the supervisor call comes after the agent was unregistered: registered holds at the marking, not at the call. |
| `RuntimeLifecycle.RuntimeProcessLifecycle.Terminate` | crates/agentactr-codex/src/lib.rs:1004-1013 | Records Terminated at most once: a further attempt is made only as long as none has succeeded. |
| `RuntimeLifecycle.RuntimeProcessLifecycle.Drop` | crates/agentactr-codex/src/lib.rs:1015-1019 | The drop handler adds nothing after a recorded Terminated, and otherwise makes one attempt. |
| `RuntimeLifecycle.WaitChildWithTimeout` | crates/agentactr-codex/src/lib.rs:1021-1041 | By polls, failures and elapsed time: the wait goes on exactly while the child runs without failure before the timeout, ends with the exit, poll error, failure or timeout of the first other round, at most one round late, and kills the child exactly when it gives up on one that still runs. |
| `RuntimeLifecycle.RunCodexExec` | crates/agentactr-codex/src/lib.rs:550-694 | For any failing observe calls the log grows by exactly the recorded events; Ok if and only if the child exits with success before anything ends the wait, monitor, streams and output are in order, and the three observe calls succeed; an error names what failed first. |
| `RuntimeLifecycle.OneFailure` | crates/agentactr-codex/src/lib.rs:550-694 | The conditions of two different errors exclude each other and success, so they determine the error. |
| `RuntimeLifecycle.ObservedLog` | crates/agentactr-codex/src/lib.rs:971-1019 | When every observe call succeeds, every way out records Started, Attributed unless the monitor refused, and one Terminated. |
| `RuntimeLifecycle.LogShape` | crates/agentactr-codex/src/lib.rs:971-1019 | Whatever calls fail, at most one Terminated is recorded, nothing follows it, and the others keep their order. |
| `RuntimeLifecycle.StartedIff` | crates/agentactr-codex/src/lib.rs:977-992 | Started heads the log if and only if its own call succeeds; without it the drop handler can still record Terminated. |
| `RuntimeLifecycle.AttributedIff` | crates/agentactr-codex/src/lib.rs:998-1002 | Attributed is recorded if and only if Started was, the monitor did not refuse, and its own call succeeds. |
| `RuntimeLifecycle.TerminatedIff` | crates/agentactr-codex/src/lib.rs:971-1019 | Terminated is recorded if and only if the explicit or the drop-handler attempt succeeds, whichever of them the way out makes. |
| `RuntimeLifecycle.TerminationLogIs` | crates/agentactr-codex/src/lib.rs:1004-1013 | Repeated attempts record one Terminated if and only if one of them succeeds. |
| `GateReport.ParseQualityGates` | crates/agentactr-cli/src/tui_command.rs:488-519 | The line loop of the terminal view computes the specification's reading of a report. |
| `GateReport.ReadSection` | crates/agentactr-cli/src/quality_command.rs:493-503 | Whatever came before it, a printed section is read as one gate with its name, state, required flag and command. |
| `GateReport.ReportRoundTrip` | crates/agentactr-cli/src/tui_command.rs:488-519 | Reading a printed report gives back exactly its gates in order, for trimmed one-line fields and outputs without lines the reader acts on. |
| `GateReport.CompletedIsNoise` | crates/agentactr-cli/src/tui_command.rs:488-519 | Output that the reader passes over stays so when the printer ends it with a newline. |
| `GateRunner.RunLegacyGate` | crates/agentactr-cli/src/quality_command.rs:484-525 | One command of the old plan: its report section, the files written, the guidance, and when it ends the run. |
| `GateRunner.RunTypedCommand` | crates/agentactr-cli/src/quality_command.rs:570-601 | One typed gate whose command is run. |
| `GateRunner.RunDomainGate` | crates/agentactr-cli/src/quality_command.rs:527-601 | One typed gate: reported only, skipped, or run, with the same account. |
| `GateRunner.RunQualityGates` | crates/agentactr-cli/src/quality_command.rs:455-604 | Ok if and only if there is a plan and every command that may be run can be run and, if its job is required, succeeds; what was run and what the report holds cover exactly the jobs up to the first that did not; the status file repeats the result. |
| `GateRunner.OldCommandStopsIff` | crates/agentactr-cli/src/quality_command.rs:484-525 | A command of the old plan ends the run if and only if it cannot be run, or is required and fails; one that is not required never does by failing; and what the error says. |
| `GateRunner.TypedGateStopsIff` | crates/agentactr-cli/src/quality_command.rs:527-601 | The same for a typed gate that has a command and may be run; any other never ends the run. |
| `GateRunner.JobsInOrder` | crates/agentactr-cli/src/quality_command.rs:470-527 | The jobs in order: the old plan unless a typed language gate with a command replaces it, then the typed gates. |
| `GateRunner.EveryJobIsCalled` | crates/agentactr-cli/src/quality_command.rs:475-569 | A run that is not ended early hands over every command that may be run. |
| `GateRunner.OldCommandLines` | crates/agentactr-cli/src/quality_command.rs:493-503 | The head lines of an old command's report section. |
| `GateRunner.ExecutedLines` | crates/agentactr-cli/src/quality_command.rs:577-588 | The head lines of a typed gate's section when it was run. |
| `GateRunner.FindingLines` | crates/agentactr-cli/src/quality_command.rs:528-539 | The head lines of the section of a typed gate without a command. |
| `GateRunner.SkippedLines` | crates/agentactr-cli/src/quality_command.rs:541-567 | The head lines of the section of a skipped gate. |
| `GateRunner.OnlyEnabledCommandsRun` | crates/agentactr-cli/src/quality_command.rs:475-569 | Whatever is run is a command of the old plan, which then was not migrated, or of a typed gate that needs no opt-in, network or credentials or is enabled. |
| `GateOptIns.EnabledIff` | crates/agentactr-cli/src/quality_command.rs:606-619 | For any gate: it is enabled if and only if some opt-in spells, in any case and between any white space, one of its five forms that is itself trimmed and in lower case. |
| `GateOptIns.AnySpellingEnables` | crates/agentactr-cli/src/quality_command.rs:606-619 | A gate with trimmed lower-case domain and name is enabled by every spelling of each of its forms. |
| `GateOptIns.OwnNameEnablesIff` | crates/agentactr-cli/src/quality_command.rs:606-619 | Naming any gate by its own name works if and only if the name is trimmed and in lower case, or spells another of its forms. |
| `GateOptIns.GateNameIsNormal` | crates/agentactr-sdk/src/discovery.rs:351-366 | Every gate name the SDK makes is trimmed and in lower case, and its parts are the non-empty ones between the characters that are no letters or digits. |
| `GateOptIns.LanguageGateIsEnabled` | crates/agentactr-sdk/src/discovery.rs:271-306 | A typed gate migrated from a stack's command is enabled by every spelling of each of its forms. |
| `GateRunner.PassedReportShowsAll` | crates/agentactr-cli/src/quality_command.rs:455-604 | Reading the report of a successful run back shows every job of the combined plan in order. |
| `GateRunner.StoppedReportShowsFailure` | crates/agentactr-cli/src/quality_command.rs:455-604 | Reading the report of a run that a required gate ended shows the jobs up to that gate, with its state. |
| `ShellWords.UnquoteShellWord` | crates/agentactr-cli/src/quality_command.rs:317-347 | The two nested character loops compute the specification's reading of a word, with the same refusals. |
| `ShellWords.UnquoteInvertsQuote` | crates/agentactr-sdk/src/discovery.rs:696-705 | Unquoting gives back every string the SDK quotes. |
| `ShellWords.AcceptedWordsArePosix` | crates/agentactr-cli/src/quality_command.rs:317-347 | On every word the runner accepts, its answer is POSIX quote removal. |
| `ShellWords.ScopedCheckRoundTrip` | crates/agentactr-cli/src/quality_command.rs:295-315 | A scoped Go check built by the SDK for any directory is recognised as that check with that directory. |
| `AgentStates.ApplyAgentEvent` | crates/agentactr-cli/src/tui_command.rs:387-424 | One event changes an agent's fields as the specification says. |
| `AgentStates.SaysIff` | crates/agentactr-cli/src/tui_command.rs:396-417 | What an event type says, by type: the order of the tests matters only between failures, blocked and review types, and `review_required` adds nothing to `review`. |
| `AgentStates.TrimStartMatchesIs` | crates/agentactr-cli/src/tui_command.rs:418-424 | The trimmed type does not begin with the prefix, and only copies of the prefix were taken off. |
| `AgentStates.RuntimeEventShowsKind` | crates/agentactr-cli/src/tui_command.rs:418-424 | A runtime event that names no process shows its bare kind as the activity. |
| `AgentStates.ActivityIs` | crates/agentactr-cli/src/tui_command.rs:418-450 | The activity shows the process id, the group id and the memory group an event gives, in this order, or else its type without the prefix. |
| `AgentStates.IntTextIs` | crates/agentactr-cli/src/tui_command.rs:426-450 | The text of an id is its decimal value, with a minus sign when it is negative. |
| `AgentStates.DeriveAgentStates` | crates/agentactr-cli/src/tui_command.rs:346-385 | The two loops over trace records and runtime events compute one fold over all events. |
| `AgentStates.AllEventsAre` | crates/agentactr-cli/src/tui_command.rs:346-385 | The fold runs over the trace first and keeps of each record its agent, type, time and payload. |
| `AgentStates.StatesAreProjections` | crates/agentactr-cli/src/tui_command.rs:346-385 | An agent's state depends on its own events alone, and exists if and only if there is one. |
| `AgentStates.AgentStateClosedForm` | crates/agentactr-cli/src/tui_command.rs:346-424 | After any events each agent's state is a closed form of its own: failure flag, shown state by fixed priority, last time given, last type, last activity. |
| `AgentStates.ShownForIs` | crates/agentactr-cli/src/tui_command.rs:387-417 | The priority: a failure wins over all but a blocked event that comes last; without one the last event that says something decides. |
| `TraceSummaries.SummarizeTraceRuns` | crates/agentactr-cli/src/trace_command.rs:185-218 | One summary per distinct run with the counts and first and last values of its own records, in strict order by latest time and run id; counts add up to the number of records. |
| `TraceSummaries.SummaryShowsFirst` | crates/agentactr-cli/src/trace_command.rs:185-210 | A summary shows the issue and time that a record of its run gives first. |
| `TraceSummaries.SummaryShowsLast` | crates/agentactr-cli/src/trace_command.rs:185-210 | And the times that one gives last. |
| `TraceSummaries.LastOwnRecord` | crates/agentactr-cli/src/trace_command.rs:185-210 | Its event type is that of the run's last record. |
| `TraceSummaries.BeforeIff` | crates/agentactr-cli/src/trace_command.rs:211-217 | The order: latest time first, runs without a time last, equal times by run id. |
| `TraceSummaries.OrderIsUnique` | crates/agentactr-cli/src/trace_command.rs:211-217 | The order leaves no choice: lists in it with the same members are the same list. |
| `TraceSummaries.LatestRunStatuses` | crates/agentactr-cli/src/trace_command.rs:8-22 | The map holds for every run the last status that was a string. |
| `TraceSummaries.LatestStatusIs` | crates/agentactr-cli/src/trace_command.rs:8-22 | By the records: the map holds the status of the last one that gives the run a status, and nothing for a run without one. |
| `TraceSummaries.BackwardIs` | crates/agentactr-cli/src/trace_command.rs:24-33 | The backward search gives the status of the run's last status event if that is a string, else `unknown`. |
| `TraceSummaries.SearchedStatusIs` | crates/agentactr-cli/src/trace_command.rs:24-33 | By the records: the search looks at the run's last status event alone. |
| `TraceSummaries.StatusesAgreeIff` | crates/agentactr-cli/src/trace_command.rs:8-33 | Exact condition under which the forward map and the backward search give a run the same status. |
| `TraceSummaries.StatusesCanDisagree` | crates/agentactr-cli/src/trace_command.rs:8-33 | Two records, the second a status event without a string, on which the two differ. |
| `Redaction.RedactJsonValue` | crates/agentactr-cli/src/debug_bundle.rs:355-380 | The recursive rewrite with its two loops computes the specification's redaction. |
| `Redaction.RedactIsIdempotent` | crates/agentactr-cli/src/debug_bundle.rs:355-380 | Redacting a tree of any depth twice is redacting it once. |
| `Redaction.ExposedNodesAreKept` | crates/agentactr-cli/src/debug_bundle.rs:355-380 | Under keys that are not sensitive the tree keeps its nodes: keys in order, array lengths and every leaf that is no secret. |
| `Redaction.HiddenNodesAreGone` | crates/agentactr-cli/src/debug_bundle.rs:355-380 | Below a sensitive key nothing is left but the replacement. |
| `Redaction.NothingSecretIsLeft` | crates/agentactr-cli/src/debug_bundle.rs:355-398 | Wherever one looks in a redacted tree, sensitive keys hold the replacement and no string looks like a secret. |
| `Redaction.SensitiveKeyIff` | crates/agentactr-cli/src/debug_bundle.rs:381-398 | A key is sensitive if and only if it holds one of six words in any case; the other five of the list add nothing. |
| `Redaction.LooksSecretIff` | crates/agentactr-cli/src/debug_bundle.rs:370-376 | A string is a secret if and only if it begins with `bearer ` or `sk-` in any case. |
| `Redaction.SensitiveLineIff` | crates/agentactr-cli/src/debug_bundle.rs:327-342 | A line is sensitive if and only if it holds one of ten words in any case; a bare `token` is none of them. |
| `Redaction.LineIsMasked` | crates/agentactr-cli/src/debug_bundle.rs:343-353 | Of a sensitive line that is not JSON nothing is left after its first `=`, or else its first `:`, or else at all; any other stays. |
| `Redaction.JsonLineHidesSecrets` | crates/agentactr-cli/src/debug_bundle.rs:322-326 | A redacted JSON line reads back as a tree in which sensitive keys hold the replacement and no string looks like a secret. |
| `Redaction.TextIsRedactedByLine` | crates/agentactr-cli/src/debug_bundle.rs:314-320 | The lines of a redacted text are the redacted lines. |
| `Redaction.LineIsIdempotentIff` | crates/agentactr-cli/src/debug_bundle.rs:322-353 | Redacting a line twice is redacting it once: always for a line that is not JSON, and for a JSON line if and only if every number that is left in it reads back as itself. |
| `CompactJson.ValuesDiffer` | crates/agentactr-cli/src/trace_command.rs:455-457 | No two values print the same compact text, whatever follows them in a list or object. |
| `CompactJson.EscapeReadsBack` | crates/agentactr-cli/src/trace_command.rs:455-457 | What the printer writes for a character of a string stands for it by section 7 of RFC 8259. |
| `CompactJson.CompactIsFaithfulIff` | crates/agentactr-cli/src/trace_command.rs:455-457 | With the compact printer, what redaction relies on is up to the parser alone: printed values are one line, and no two print alike, for any values with number texts. |
| `CompactJson.LossyLibraryIsFaithful` | crates/agentactr-cli/src/debug_bundle.rs:322-326 | A library that refuses deep nesting and rereads numbers in any fixed way meets what the line and text theorems ask. |
| `Redaction.TextIsIdempotentIff` | crates/agentactr-cli/src/debug_bundle.rs:314-320 | Exact condition under which redacting a whole text twice is redacting it once: its last line is not empty (if it has several), no earlier line returned as it is keeps a carriage return, and every number left in a JSON line reads back as itself. |
| `Redaction.NumberLineChanges` | crates/agentactr-cli/src/debug_bundle.rs:314-326 | A line that is a number whose printed text reads as another number changes on the second pass, and so does a text of that line. |
| `CompactJson.FloatLineChanges` | crates/agentactr-cli/src/debug_bundle.rs:314-326 | The same for the line 14.5185888909472219, when it is printed as 14.518588890947223 and that reads as 14.518588890947225. |
| `CompactJson.SomeLibraryChangesFloats` | crates/agentactr-cli/src/debug_bundle.rs:314-326 | A JSON library that meets all that redaction relies on can do so. |
| `Redaction.TextIsNotIdempotent` | crates/agentactr-cli/src/debug_bundle.rs:314-320 | A text ending in an empty line loses it on the second pass. |

## Left out

- HTTP, SQLite, Git, Docker, process spawning, signals, cgroup and /proc access: replaced by parameters with
  arbitrary answers.
- Ledger columns `created_issue_url`, `detail` and `updated_at`, and the migration of an older ledger table: no guard reads them.
- Issues opened, edited or deleted on the tracker by people: the submission protocol's issues only grow, and only
  drafts submitted by it can quote a marker.
- What a marker search reports beside exact matches: the code stops when the tracker counts several hits, exact or not;
  the theorems are about issues whose body holds the exact marker.
- Sending a create request again: `CallCreate` is one POST, taken to create nothing when it is answered with 403 or 429,
  after which the request loop sends it again.
- Repository names that differ in case alone: keys and searches compare them exactly, while the tracker ignores their
  case, so two spellings give two keys and one search.
- The order of ledger states when two live processes record for the same key: the update has no guard on the old
  state, so `linked` is not claimed to be final.
- Simultaneous claims from two hosts: the tracker offers no check-and-write, so a claim is one atomic step and mutual
  exclusion is stated for serialised claims.
- Lifecycle comments other than claims, and releasing a lease: no invariant beyond the upsert that is modelled.
- GitHub Projects, labels, GraphQL and request payloads: straight-line plumbing.
- Killing the child when recording Attributed fails: that path returns early; the lifecycle theorems are about the
  event log only.
- The memory governor's choice of actions and of the helper to cancel, and pressure sample deltas: the executor's
  theorems hold for any list of actions, and the deltas are plain saturating subtraction.
- The order in which a registry hands out one of several targets of a group: any of them is allowed, as for the hash
  map in the code.
- Error texts of the gate runner, of the retry loop and of the claim: kept as datatypes, not rendered.
- The list of words by which a failed gate is taken for a network failure: guidance is an arbitrary function of the
  gate's name and output.
- Failing file writes of the gate runner: every write succeeds.
- JSON and TOML libraries, SHA-256, clocks: the JSON parser and printer are parameters that must fit each other, the
  number texts of a value are whatever the parser yields, timestamps are strings in the order of the code's comparison.
- In-place rewriting of JSON trees and of agent states: the methods return new values, so aliasing is not captured.
- Pagination.ListIssueComments: asks that the list be shorter than 100 times 4294967295, because a longer one makes the
  saturating walk endless; `Pagination.WalkStopsIff` shows that nothing less will do.
- Pagination.FetchIssueCandidates: asks the same of the page size, and a starting page within 32 bits, its type in the code.
- RuntimeLifecycle.WaitChildWithTimeout: takes every round to last at least the 100 ms it sleeps.
- LeaseHistory.OneRunHoldsTheLease: takes claims to carry fields without white space and without the closing arrow, and
  other people neither to write nor to edit claim comments (they may delete them).
- Redaction.LineIsIdempotentIff: takes the JSON library to parse back what it prints of its own values up to their
  numbers, each number text being always read alike, to print no two values alike, and to reject empty text and text
  that ends with `>`; `CompactJson.LossyLibraryIsFaithful` shows libraries that do.
- ShellWords.AcceptedWordsArePosix: the reference is POSIX quote removal as in sections 2.2.1 to 2.2.3 and 2.6.7 of the
  POSIX Shell Command Language, without expansions, which the accepted words cannot contain.
