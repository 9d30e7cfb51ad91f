# CodeER: patches, publications, approvals and logs

A Dafny model of the parts of the CodeER monorepo in which a mistake would be silent: the unified-diff
pipeline from text to Git tree, the crash-safe publication protocol, canonical JSON and the hash-chained
event log, the approval machines, the leased sandbox rows and the outbox, and three bounded structures
(context builder, login limiter, replay guard). Properties hold for all texts, all runs, all
interleavings and all histories.

`dafny verify dfyconfig.toml` checks everything.

## How it is organised

| files | what they hold |
|---|---|
| `Wrappers`, `Text`, `Sequences` | result types, string primitives, reordering of lists |
| `Paths`, `PatchFormat` | path normalizers, hunk and section headers shared by the two parsers |
| `PublicationParser`, `RecoveryParser`, `ParserAgreement`, `PatchPrinter`, `PatchCounts` | the two diff parsers as index-driven loops over suffix functions, their agreement, parse after print, and what an accepted patch counts and carries |
| `HunkApplication`, `DiffRoundTrip` | applying hunks, undoing them, and diff followed by apply |
| `TreeRewrite`, `TreeDigest`, `PatchPipeline`, `PatchPolicy`, `PolicyReasons`, `PatchScope` | the tree request and predicted tree, the digest check, the whole pipeline, the patch policy, what its reasons mean, and what it says about the tree request |
| `Json`, `KeyOrder`, `CanonicalJson`, `EventChain` | JSON text and its decoder, orders of object keys, the two canonical serializers, the event log |
| `PublicationLifecycle`, `PublicationStore`, `PublicationProtocol`, `PublicationRetry`, `PublicationWorker` | the publication row, its protocol with many workers, convergence of retries, one worker's run |
| `PlanApproval`, `RecoveryLifecycle`, `RecoveryStore`, `RecoveryProtocol` | plan approval, the recovery row, and both stores with workers and human deciders as one machine |
| `SandboxLease`, `Outbox` | leased sandbox executions, the outbox and its queue |
| `Utf8`, `ContextBudget`, `LoginLimiter`, `ReplayGuard` | byte-budgeted context, pruned counters against their full history |

Loops of the source are methods with loop invariants, specified by a recursive function; rows that the
source updates in place are classes whose methods are tied to a function from old row to new row. The
protocols are state machines over those row functions: one atomic store transaction or remote call is one
step, a run is any list of steps, and a step that is not enabled changes nothing.

## Model

| member | source | states |
|---|---|---|
| Paths.CleanPathIsFixed | packages/recovery/src/diff.ts:21-35 | a path without empty, `.` or `..` segments is returned unchanged by both parsers' normalizers, so they agree on it |
| Paths.NormalizeKeepsPlace | packages/recovery/src/policy.ts:45-56 | a normalized path leads to the same place as the path itself, walked from every directory (an absolute one from the root) |
| Paths.NormalizedNeverClimbs | packages/recovery/src/diff.ts:21-35 | no path that either parser's normalizer lets through has a `..` segment |
| PublicationParser.ScanBody | packages/publication/src/execution.ts:317-340 | the innermost loop over `index` reads exactly the body that the suffix of the lines determines, with its observed counts |
| PublicationParser.ScanHunk | packages/publication/src/execution.ts:305-343 | one hunk: header, body and the count check, or the same error |
| PublicationParser.ScanHunks | packages/publication/src/execution.ts:303-344 | the hunk loop of a file, blank lines between hunks skipped |
| PublicationParser.ScanHeader | packages/publication/src/execution.ts:276-296 | the extended-header loop, stopping at a hunk or the next section |
| PublicationParser.ParseUnifiedDiffFiles | packages/publication/src/execution.ts:253-353 | the whole parser ends on every text and returns the files or the error that its specification gives |
| RecoveryParser.ScanBody | packages/recovery/src/diff.ts:127-160 | the body loop, which keeps a bare blank line without counting it |
| RecoveryParser.ScanHunk | packages/recovery/src/diff.ts:116-184 | one hunk with its counts, sequence number and provenance |
| RecoveryParser.ScanHunks | packages/recovery/src/diff.ts:109-185 | the hunk loop with the running file totals |
| RecoveryParser.ScanHeader | packages/recovery/src/diff.ts:77-96 | the extended-header loop of the second parser |
| RecoveryParser.ParseUnifiedDiff | packages/recovery/src/diff.ts:41-219 | the whole second parser with its provenance and totals |
| RecoveryParser.TotalsAreExact | packages/recovery/src/diff.ts:109-218 | file and patch totals are the sums over the hunks, hunks are numbered from 1, and added minus deleted is the sum of new minus old line counts |
| PatchCounts.CountsAreExact | packages/recovery/src/diff.ts:109-218 | in every accepted patch a hunk's added and deleted lines are the lines of its content after the header that start with `+` and not `+++`, and with `-` and not `---`; its header counts those and the context lines; file and patch totals are the sums |
| PatchCounts.ProvenanceIsCarried | packages/recovery/src/diff.ts:103-185 | every file of an accepted patch has provenance that cites evidence, and each of its hunks carries it |
| PatchCounts.AcceptedHunksAreWellFormed | packages/publication/src/execution.ts:303-344 | every hunk the publication parser accepts holds known lines only, as many of each kind as its header declares |
| ParserAgreement.ParsersAgree | packages/recovery/src/diff.ts:149-157 | on normalized paths: publication accepts with every file covered by provenance if and only if recovery accepts without a bare blank line in a hunk; then paths, change types, ranges and bodies are the same |
| ParserAgreement.CrLfParsesAlike | packages/recovery/src/diff.ts:41-50 | both parsers read a diff with CRLF line ends exactly as the diff with LF line ends |
| PatchPrinter.ParsePrint | packages/publication/src/execution.ts:253-353 | parsing the git-style rendering of any non-empty list of well-formed file patches returns exactly that list, decimal ranges included |
| PatchPrinter.HunkHeaderRoundTrip | packages/publication/src/execution.ts:238-238 | a rendered hunk header reads back as its four numbers, the default count of 1 included |
| PatchPrinter.PlainSection | packages/publication/src/execution.ts:239-250 | a section line of two clean paths is read back as exactly those two whenever the shown new path has no ` b/` inside it |
| HunkApplication.ApplyFileHunks | packages/publication/src/execution.ts:356-403 | the loops over hunks return what the specification gives, error for error |
| HunkApplication.ApplyHunkLines | packages/publication/src/execution.ts:374-399 | the loop over the lines of one hunk, with the terminator flag |
| HunkApplication.ApplySucceedsIff | packages/publication/src/execution.ts:366-402 | application succeeds exactly when all lines are valid, hunks are ordered without overlap and every old side is found at its start; the result is then the patched lines |
| HunkApplication.ErrorsMean | packages/publication/src/execution.ts:366-402 | a failed application names the first hunk that cannot be applied and why: it overlaps the hunk before it, or its first bad line is invalid, or is a context or a removal the base does not have there |
| HunkApplication.NoHunksIsIdentity | packages/publication/src/execution.ts:356-403 | zero hunks return every text unchanged |
| HunkApplication.ApplyLineCount | packages/publication/src/execution.ts:366-402 | on success the line count is the base's plus additions minus deletions |
| HunkApplication.SwappedPatchRestores | packages/publication/src/execution.ts:366-402 | the sign-swapped hunks at the landing positions apply to the patched lines and give the base lines back |
| DiffRoundTrip.ApplyRendered | packages/publication/src/execution.ts:356-403 | for every script between any two texts, cut into hunks that have a non-empty old side or start the file, the result is exactly the target, except for one newline too many when an unterminated addition comes before an unterminated removal |
| DiffRoundTrip.DiffThenApply | packages/publication/src/execution.ts:363-402 | with removals before additions, diff followed by apply gives exactly the target text, final newline included, for hunks with a non-empty old side or at the start of the file; for any other hunks exactly when none that lands a line early touches the hunk before it or moves its lines |
| DiffRoundTrip.WholesaleScript | packages/publication/src/execution.ts:356-403 | such a script exists between any two texts |
| DiffRoundTrip.ApplyRenderedIff | packages/publication/src/execution.ts:366-402 | for every script and every cut into hunks: they apply if and only if no hunk with an empty old side inside the file touches the hunk before it, and overlap otherwise; they give exactly the target if and only if, moreover, every line such a hunk adds equals the base line before its place and no unterminated addition precedes an unterminated removal |
| DiffRoundTrip.InsertionCanLandEarly | packages/publication/src/execution.ts:369-373 | a concrete insertion without context that lands one line too early |
| DiffRoundTrip.UndoRestoresTextIff | packages/publication/src/execution.ts:356-403 | applying the sign-swapped hunks to the patched text gives the base text back, terminator included, if and only if the patched text has no unterminated empty last line and their no-newline markers lead back to the terminator of the base |
| DiffRoundTrip.UndoRendered | packages/publication/src/execution.ts:356-403 | for the hunks of a removals-first script, the sign-swapped patch gives the first text back, except for one newline too many when an unterminated removal and an unterminated addition both occur |
| TreeRewrite.RewriteTree | packages/publication/src/execution.ts:746-796 | the loop's predicted blobs are the replay of the tree request it builds over the base; it succeeds exactly when every section is feasible, otherwise with the reason of the first that is not; with no path in two sections, each section has done to the predicted tree what its change type says |
| TreeRewrite.RewriteMeans | packages/publication/src/execution.ts:751-796 | with no path in two sections: a deleted path was in the base and is gone; an added one was absent and has mode 100644 and the blob of its patched empty text; a modified or renamed file has the old mode and the blob of the patched old text, and the old path of a rename is gone |
| TreeRewrite.FirstRefused | packages/publication/src/execution.ts:751-790 | an unsuccessful rewrite names the first section that is not feasible: a deletion or change of an absent path, an addition of a present one, or hunks that do not apply |
| TreeRewrite.UntouchedKept | packages/publication/src/execution.ts:746-796 | a path no section touches keeps its entry, or stays absent |
| TreeRewrite.SectionDecides | packages/publication/src/execution.ts:751-796 | with no path in two sections, a touched path gets what its own section alone would give it |
| TreeRewrite.ModifiedEntry | packages/publication/src/execution.ts:770-792 | a modified file keeps its mode and gets the blob of the patched content |
| TreeRewrite.OrderIrrelevant | packages/publication/src/execution.ts:751-796 | if no path occurs in two sections, neither success nor the resulting tree depends on section order |
| TreeDigest.DigestIff | packages/publication/src/execution.ts:406-412 | the digest check passes if and only if both trees hold the same blobs and the paths that the collation cannot tell apart are listed in the same order; so equal digests always mean equal blobs |
| TreeDigest.DigestedText | packages/publication/src/execution.ts:406-412 | what is hashed reads as an array of one object for each blob of the tree, in path order, with exactly its mode, its path and its name in lower case |
| TreeDigest.TiedPathsSplitDigests | packages/publication/src/execution.ts:406-412 | two listings of the same two blobs, at paths the collation cannot tell apart, in the two orders: their digests differ |
| PatchPipeline.PrintedPatchRewritesTree | packages/publication/src/execution.ts:735-796 | diffs of several files, printed, parsed, applied and replayed: each file ends with its intended text and old mode, and everything else is untouched |
| PatchPolicy.EvaluatePatchPolicy | packages/recovery/src/policy.ts:93-172 | the loops over files and hunks give the specified reasons in order, or throw on the same policy paths |
| PatchPolicy.ReviewHunks | packages/recovery/src/policy.ts:159-163 | one reason for every hunk without provenance |
| PatchPolicy.Budgets | packages/recovery/src/policy.ts:98-105 | the four budgets against the sums over all files |
| PatchPolicy.MatchIsUnder | packages/recovery/src/policy.ts:58-73 | a prefix check that does not throw says whether the path starts with the whole segments of the policy path |
| PatchPolicy.AllowedMeans | packages/recovery/src/policy.ts:98-171 | a patch is allowed exactly when no budget and no single file gives a reason |
| PolicyReasons.ReasonsMean | packages/recovery/src/policy.ts:93-172 | the reasons are exactly those the patch has earned, each once, stated kind by kind on the policy's fields and the four totals; a patch is allowed exactly when it has earned none |
| PolicyReasons.ThrowsIff | packages/recovery/src/policy.ts:58-73 | the evaluation throws exactly when some file with a good path reaches, before a match, a policy path that is absolute or climbs out |
| PolicyReasons.BaseNameMeans | packages/recovery/src/policy.ts:75-77 | the base name is what follows the last slash, slashes at the end aside |
| PolicyReasons.ExtensionMeans | packages/recovery/src/policy.ts:79-83 | the extension is what follows the last dot that has a name before it, in lower case; `Dockerfile` has its own |
| PatchPolicy.AllowedPartAllowed | packages/recovery/src/policy.ts:93-172 | an allowed patch stays allowed when any of its files are removed and it gets no bigger |
| PatchScope.RequestStaysInScope | packages/publication/src/execution.ts:751-796 | for every diff with normalized paths that both parsers and the policy accept: every path in the tree request is under an allowed path and under no denied one if and only if the old path of every rename section is |
| PatchScope.AcceptedRenameLeavesScope | packages/recovery/src/policy.ts:107-172 | a diff of one rename that both parsers accept and the policy allows, although the tree request removes a denied path |
| Json.ParseText | packages/incidents/src/index.ts:133-135 | decoding the JSON text of any value of finite numbers gives the value back |
| Json.EscapeShortest | packages/incidents/src/index.ts:133-135 | what is written for a character is the shortest text that reads back as it, and the only one of that length without capital hexadecimal digits |
| KeyOrder.HoistFixedIff | packages/incidents/src/index.ts:121-131 | a rebuilt object enumerates its index keys first, in numeric order, and leaves exactly the lists alone that have them so |
| KeyOrder.IndexIff | packages/incidents/src/index.ts:121-131 | the index keys are the decimal numerals of the integers below 2^32 - 1 |
| CanonicalJson.TextIffSame | packages/incidents/src/index.ts:121-135 | for both serializers, equal texts mean values equal up to key order, whatever the collation; objects in memory have the same text if and only if they are equal up to key order and the keys the collation cannot tell apart (index keys aside) come in the same order |
| CanonicalJson.TextUniqueIff | packages/incidents/src/index.ts:121-135 | every object in memory that is the same up to key order has the same text if and only if no object has two keys, both no index keys, that the collation cannot tell apart; for both serializers |
| CanonicalJson.CanonKeepsValue | packages/incidents/src/index.ts:121-131 | canonicalization changes nothing but key order |
| CanonicalJson.ReserializeParsed | packages/incidents/src/index.ts:121-135 | parsing a canonical text and serializing the object again gives the same text, and the parsed value is the original up to key order, for every finite value in memory |
| CanonicalJson.PolicyWritesCanon | packages/publication/src/policy.ts:10-19 | the direct serializer writes the text of the value with sorted keys |
| CanonicalJson.SerializersAgree | packages/publication/src/policy.ts:10-19 | the two serializers write the same text for a value if and only if in every object of it the sorted keys have the array-index keys first and in numeric order |
| CanonicalJson.TiedKeysSplitTexts | packages/incidents/src/index.ts:121-131 | two different keys, both no index keys, that the collation cannot tell apart give one value two texts |
| CanonicalJson.IndexKeysSplitSerializers | packages/publication/src/policy.ts:10-19 | an object with the keys 9 and 10 is written differently by the two serializers |
| EventChain.VerifyIncidentEventChain | packages/incidents/src/index.ts:326-378 | the loop over `previousHash` and `expectedSequence` returns the specified integrity result |
| EventChain.VerifyIffChained | packages/incidents/src/index.ts:326-378 | verification succeeds exactly on logs that, sorted, are numbered from 1, linked and correctly hashed |
| EventChain.BrokenMeans | packages/incidents/src/index.ts:326-378 | a broken result names the first event that is wrong, and whether it is its number, its link or its hash, in that order |
| EventChain.HashIff | packages/incidents/src/index.ts:310-324 | with an ideal hash, equal event hashes mean equal hashed fields, whatever keys the payloads have; they are equal exactly when, moreover, the payloads have one canonical form |
| EventChain.HashedText | packages/incidents/src/index.ts:310-324 | the text that is hashed reads as an object of exactly eleven members, each holding the command's field of its name (null for none), the sequence and the previous hash; the payload up to key order |
| EventChain.BuiltLogsVerify | packages/database/src/incident-store.ts:284-352 | a log built by serial appends, and every prefix of it, read back in any order, verifies if and only if every payload in it comes back with the same canonical form |
| EventChain.FaithfulIff | packages/database/src/incident-store.ts:284-352 | a payload does so exactly when it comes back equal up to key order with tied keys in their order; without tied keys, exactly when it comes back equal up to key order |
| EventChain.TiedPayloadBreaksLog | packages/incidents/src/index.ts:326-378 | a payload of two tied keys that the database gives back the other way round: the same value, and the log does not verify |
| EventChain.LastHashDetermines | packages/incidents/src/index.ts:326-378 | two verified logs with equal last hash have as many events and agree event by event in every hashed field, payloads up to key order; no condition on their keys |
| PublicationLifecycle.TerminalIffStuck | packages/publication/src/lifecycle.ts:3-10 | the terminal statuses are exactly those without a way out |
| PublicationLifecycle.OneWayPastCommit | packages/publication/src/lifecycle.ts:12-115 | the statuses past the commit are entered only from commit materializing to branch publishing |
| PublicationStore.Rows.ClaimPublication | packages/database/src/publication-store.ts:481-528 | claims only a free, expired or own lease in a claimable status, counts the attempt, and otherwise changes nothing |
| PublicationStore.Rows.Heartbeat | packages/database/src/publication-store.ts:530-552 | renews an unexpired own lease only |
| PublicationStore.Rows.AdvancePublication | packages/database/src/publication-store.ts:717-760 | fenced status change by the table |
| PublicationStore.Rows.RecordMaterialization | packages/database/src/publication-store.ts:762-842 | fenced insert-once of the commit, with the status change |
| PublicationStore.Rows.RecordPullRequest | packages/database/src/publication-store.ts:844-946 | fenced insert-once of the pull request, releasing the lease |
| PublicationStore.Rows.FailPublication | packages/database/src/publication-store.ts:948-1000 | fenced failure status by the table, releasing the lease |
| PublicationStore.ClaimRules | packages/database/src/publication-store.ts:481-528 | what a claim asks of status and lease, and that it writes the lease and one more attempt and nothing else |
| PublicationStore.WritesAreFenced | packages/database/src/publication-store.ts:530-1000 | no write takes effect without the writer's own unexpired lease |
| PublicationStore.StatusWrites | packages/database/src/publication-store.ts:717-1000 | under the lease a status change succeeds exactly by the table and changes status and version alone; a failure also gives up the lease |
| PublicationStore.InsertOnce | packages/database/src/publication-store.ts:762-946 | commit and pull request are written once; a repetition succeeds only with the same values; what both writes leave alone |
| PublicationProtocol.PublicationIsSafe | apps/worker/src/publication-execution-worker.ts:169-266 | over every run of any workers with crashes, expiry, takeover and stale workers: every ref creation carries the commit of the insert-once row, statuses past the commit have it, a recorded pull request has it as head, and every remote write is within the attempt limit |
| PublicationProtocol.PublicationIsStable | packages/database/src/publication-store.ts:762-946 | once set, the published commit, the head branch and the recorded pull request never change |
| PublicationProtocol.NextKeeps | apps/worker/src/publication-execution-worker.ts:128-293 | every single step of worker, clock, remote or monitor keeps the invariant and undoes nothing |
| PublicationProtocol.StatusMovesByTable | packages/publication/src/lifecycle.ts:121-125 | every status change in the machine is permitted by the table |
| PublicationProtocol.GuardsHold | packages/publication/src/execution.ts:735-960 | a worker gets past a place only if what is checked there holds: the bundle within the attempt limit, the lease and no cancellation, the unmoved base, the branch and pull request free or at its commit |
| PublicationRetry.QuietRun | apps/worker/src/publication-execution-worker.ts:128-293 | on an unchanged bundle and base, everything that exists after any run with faults, lost responses and crashes is what the target says |
| PublicationRetry.CleanStepLeads | packages/publication/src/execution.ts:1009-1026 | from any point of the failure-free path a worker's next step is closer to the end, or completes the publication |
| PublicationRetry.RetryConverges | apps/worker/src/publication-execution-worker.ts:128-293 | from every claimable status, however it was reached, one claim and a failure-free rerun of twenty steps end in monitoring with the one commit, branch and pull request, whatever the clock, heartbeats and other workers, stale ones included, do in between, as long as the lease never runs out |
| PublicationRetry.TimelyRetryConverges | packages/database/src/publication-store.ts:530-552 | it is enough that fewer than fifteen seconds pass between heartbeats |
| PublicationWorker.Rejection | packages/publication/src/execution.ts:145-223 | of the checks of the bundle, in order, the first that fails gives the status |
| PublicationWorker.AcceptedIff | packages/publication/src/execution.ts:145-223 | the bundle is accepted if and only if all twelve facts hold, the attempt limit included |
| PublicationWorker.RejectedBy | packages/publication/src/execution.ts:145-223 | which status is given, fact by fact in their order |
| PublicationWorker.EnsurePublicationBranch | packages/publication/src/execution.ts:869-897 | succeeds exactly when the branch is free or at the commit, also when somebody creates it between the read and the creation, and never moves it |
| PublicationWorker.EnsureDraftPullRequest | packages/publication/src/execution.ts:903-959 | succeeds exactly when the base is unmoved and the open pull request, if there is one or one is opened meanwhile, is for the commit, or with none the head branch exists; reuses it or adds exactly one from the head branch |
| PublicationWorker.ProcessPublication | apps/worker/src/publication-execution-worker.ts:85-327 | one whole run: success means every fact of the evidence holds, the attempts are within the maximum and the base is unmoved, and leaves the row in monitoring, the branch at the commit and a pull request for it; a rejected bundle ends in the status of its first failing fact with nothing published; nothing insert-once or create-only is ever changed, and a new branch is at the published commit unless a rival created it |
| PlanApproval.PlanRows.DecideTreatmentPlan | packages/database/src/investigation-store.ts:1654-1768 | inserts the vote once, counts distinct approvers and sets plan and investigation status together |
| PlanApproval.DecisionAccepted | packages/database/src/investigation-store.ts:1654-1694 | a decision is accepted exactly from a human, on the expected version of an open plan; otherwise which error |
| PlanApproval.DecisionOutcome | packages/database/src/investigation-store.ts:1696-1768 | a new approval approves the plan if and only if the distinct approvers, the actor included, reach the required number; a rejection rejects it; a request for revision sends it back; the investigation follows |
| PlanApproval.ApprovedExactly | packages/database/src/investigation-store.ts:1731-1768 | after any attempted decisions an approved plan has exactly its required number of distinct approvers and an open one has fewer |
| PlanApproval.DecidedIsFrozen | packages/database/src/investigation-store.ts:1685-1687 | no decision changes a decided plan |
| PlanApproval.RecastChangesNothing | packages/database/src/investigation-store.ts:1696-1723 | the same decision cast again changes nothing |
| RecoveryLifecycle.ResumableIsTerminalWithExit | packages/recovery/src/lifecycle.ts:3-86 | the resumable failures are exactly the terminal statuses that the table still lets go |
| RecoveryStore.RunRow.AcquireLease | packages/database/src/recovery-store.ts:620-682 | takes a free, expired or own lease, in all but five statuses |
| RecoveryStore.RunRow.RestartForRetry | packages/database/src/recovery-store.ts:708-734 | fenced reset to the start, outside the table |
| RecoveryStore.RunRow.Checkpoint | packages/database/src/recovery-store.ts:754-796 | fenced stage change by the table, logged |
| RecoveryStore.RunRow.RecordPatch | packages/database/src/recovery-store.ts:910-1028 | fenced insert of a new patch version |
| RecoveryStore.RunRow.Complete | packages/database/src/recovery-store.ts:1669-1708 | fenced status write that no table guards, releasing the lease |
| RecoveryStore.RunRow.ReleaseLease | packages/database/src/recovery-store.ts:736-752 | releases only at the publication gates |
| RecoveryStore.RunRow.ResumeRecovery | packages/database/src/recovery-store.ts:558-618 | takes the lease away from whoever had it, from six statuses only |
| RecoveryStore.RunRow.RequestRevision | packages/database/src/recovery-store.ts:1586-1667 | back to the start for the expected version, taking the lease away |
| RecoveryStore.RunRow.DecidePublication | packages/database/src/recovery-store.ts:1444-1584 | the decision with its checks in order, the vote inserted once, the threshold on distinct actors of the current patch |
| RecoveryStore.PublicationDecisionAccepted | packages/database/src/recovery-store.ts:1444-1509 | a decision is accepted exactly from a human, at the expected version, at the two publication gates, for a recorded patch, and an approval under dual control only from somebody who did not approve the plan |
| RecoveryStore.PublicationDecisionOutcome | packages/database/src/recovery-store.ts:1507-1584 | an accepted decision ends ready to publish if and only if it is an approval and the distinct approvers of the current patch, the actor included, reach the threshold; every other one, every rejection included, ends awaiting approval |
| RecoveryStore.AcquireRules | packages/database/src/recovery-store.ts:620-682 | what taking a lease asks of status and lease, and that it writes the lease alone |
| RecoveryStore.WorkerWrites | packages/database/src/recovery-store.ts:708-1028 | each write of a worker: refused without its own unexpired lease, and otherwise what it changes and what it leaves alone |
| RecoveryStore.HumanWrites | packages/database/src/recovery-store.ts:558-618 | resuming and revising take lease and cancellation away and keep patch, history and approvals |
| RecoveryProtocol.ReadyMeansReviewedAndApproved | packages/database/src/recovery-store.ts:1444-1584 | in every run, ready to publish means the threshold of distinct approvers of the current patch, an exactly approved plan, and the review, verification and package stages passed since that patch was recorded |
| RecoveryProtocol.DecisionDecides | packages/database/src/recovery-store.ts:1507-1584 | in every run the state directly after an accepted rejection awaits approval, and the one after an accepted approval is ready to publish if and only if the distinct approvers reach the threshold |
| RecoveryProtocol.DutiesStaySeparate | packages/database/src/recovery-store.ts:1489-1506 | with a threshold above one or high or critical risk, plan approvers and publication approvers are disjoint in every reachable state |
| RecoveryProtocol.NextInv | apps/worker/src/controlled-recovery-worker.ts:437-1018 | every step of worker or human, guarded or not, keeps the invariant of both stores |
| RecoveryProtocol.StaleWorkerWritesNothing | packages/database/src/recovery-store.ts:262-276 | a worker without the lease changes no row |
| SandboxLease.ExecutionRow.ClaimExecution | packages/database/src/sandbox-store.ts:638-666 | claims active executions with no lease or an expired one |
| SandboxLease.ExecutionRow.Heartbeat | packages/database/src/sandbox-store.ts:668-686 | renews by owner alone, expired or not |
| SandboxLease.ExecutionRow.UpdateStatus | packages/database/src/sandbox-store.ts:688-731 | fenced status of execution and reproduction together |
| SandboxLease.ExecutionRow.CompleteExecution | packages/database/src/sandbox-store.ts:942-1058 | fenced outcome, releasing the lease |
| SandboxLease.ExecutionRow.ReconcileExpiredLease | packages/database/src/sandbox-store.ts:1060-1085 | takes over an expired lease in flight |
| SandboxLease.TakenOverWritesNothing | packages/database/src/sandbox-store.ts:215-230 | leaving out all writes of a worker that lost its lease gives exactly the same run |
| SandboxLease.HolderIsAlone | packages/database/src/sandbox-store.ts:638-686 | while one worker holds an unexpired lease, no other worker's step changes anything |
| SandboxLease.WhoActs | packages/database/src/sandbox-store.ts:638-731 | which steps can take effect before, at and after the expiry of the lease: in the millisecond of expiry only the owner's heartbeat |
| SandboxLease.WhatIsWritten | packages/database/src/sandbox-store.ts:638-1085 | what each step writes when it acts, field by field |
| SandboxLease.OneOutcome | packages/database/src/sandbox-store.ts:942-1085 | with working-status updates, an execution gets at most one outcome and is frozen once it has it |
| SandboxLease.ExecutionRow.RequestCancellation | packages/database/src/sandbox-store.ts:575-636 | asks for cancellation unless the reproduction is already terminal |
| SandboxLease.TerminalIsFinalIff | packages/database/src/sandbox-store.ts:668-731 | in every reachable state a terminal status is final, and the whole row frozen, if and only if no lease is left on the row |
| SandboxLease.TerminalUpdateIsNotFinal | packages/database/src/sandbox-store.ts:688-709 | a terminal status written by an update is not final |
| Outbox.PublishedIsQueued | packages/database/src/incident-store.ts:1258-1307 | under any interleaving, lost answers included, a message ever marked published has its job in the queue for good, and no job is queued twice |
| Outbox.NeverStuck | packages/database/src/incident-store.ts:1398-1425 | a message neither published nor dead is claimable exactly from a known time on, at most the lock timeout or 256 seconds away |
| Outbox.DelayBounds | packages/database/src/incident-store.ts:1404-1405 | the delay starts at one second and doubles up to 256 seconds, so its cap of 300 is never reached |
| Outbox.AttemptsAreClaims | packages/database/src/incident-store.ts:1258-1292 | in every run the attempts of a message are the claims that took it, and a dead letter was claimed at least the maximum number of times |
| Outbox.FailureMark | packages/database/src/incident-store.ts:1398-1425 | a failure mark makes a dead letter exactly when the attempts its publisher saw reach the maximum, and otherwise a failed message due after the delay |
| Outbox.SettledMeans | apps/worker/src/index.ts:285-336 | what one pass leaves of a claimed message, by how its calls went |
| Outbox.StaysPublishedIff | packages/database/src/incident-store.ts:1398-1425 | along every run a published message stays published exactly as long as no failure mark takes effect on it |
| Outbox.StaleFailureUnpublishes | packages/database/src/incident-store.ts:1415-1418 | a run in which a publisher that was overtaken takes a published message back |
| Outbox.OutboxRows.ClaimOutboxBatch | packages/database/src/incident-store.ts:1258-1292 | claims the oldest claimable messages, up to the batch size: one is left behind only by a full batch of older ones; the others stay as they are |
| Outbox.OutboxRows.PublishOutbox | apps/worker/src/index.ts:271-338 | one pass changes exactly the claimed messages, settles them one by one until marking one failed throws, queues whatever it publishes, and restores the flag |
| Utf8.DecodeEncode | packages/ai/src/context.ts:72-79 | decoding undoes encoding |
| Utf8.CutText | packages/ai/src/context.ts:72-79 | a text cut at any byte decodes to exactly the characters that fit whole before the cut, and one replacement character if and only if the cut was inside a character; it grows by at most two bytes |
| ContextBudget.TruncatedFits | packages/ai/src/context.ts:72-79 | a text is cut only when it must be, to exactly the whole characters of 32 bytes less than the maximum and the mark, and then stays ten bytes under it |
| ContextBudget.SortIsPermutation | packages/ai/src/context.ts:92-96 | the sources in key order, none lost and none twice |
| ContextBudget.SortIsStable | packages/ai/src/context.ts:92-96 | sources whose keys the collation does not tell apart keep their order |
| ContextBudget.BuildInvestigationContext | packages/ai/src/context.ts:81-134 | every item fits its cap, the items are the chosen sources in order and stop only when fewer than 256 bytes remain, the total never exceeds the maximum, and the package is untruncated exactly when every source is there whole |
| ContextBudget.BoundedInputFits | apps/worker/src/investigation-worker.ts:177-186 | a bounded model input is never estimated above its token limit; it is the value when that fits, else exactly its whole characters up to 64 bytes less and the mark |
| LoginLimiter.JudgeLoginLimiter.IsLimited | apps/web/lib/judge-login-limiter.ts:73-76 | never limits more than the full history does, always as much globally, and exactly as the history while live addresses fit; the table stays bounded |
| LoginLimiter.JudgeLoginLimiter.RecordFailure | apps/web/lib/judge-login-limiter.ts:77-82 | the same for the attempt just recorded; with an empty window it answers exactly by whether a limit is at most one, where the history would answer by whether one is at most zero |
| LoginLimiter.JudgeLoginLimiter.RecordSuccess | apps/web/lib/judge-login-limiter.ts:83-85 | forgets the address, and leaves every other address and the global count as they are |
| LoginLimiter.SweepAgrees | apps/web/lib/judge-login-limiter.ts:41-51 | sweeping loses nothing that a later count would see |
| LoginLimiter.FailureAgrees | apps/web/lib/judge-login-limiter.ts:53-65 | tracking a failure keeps every counter the end of its history, and equal to it while live addresses fit |
| LoginLimiter.RoomForNewAddress | apps/web/lib/judge-login-limiter.ts:53-65 | while live addresses fit, a new address never finds the table full |
| ReplayGuard.WebhookReplayGuard.Accept | packages/publication/src/webhook.ts:24-32 | a well-formed id is accepted exactly when it was not accepted within the window, in the whole history |
| ReplayGuard.PrunedSpeaks | packages/publication/src/webhook.ts:26-29 | the pruned table answers for the whole history since the cutoff |

## Assumptions

- One live claim per worker id: publication and recovery claims may be re-entered by the same id, so two
  live runs under one id are not modelled. A publication branch is written only by its workers; a push by
  anybody else makes the webhook handler overwrite the recorded head (packages/database/src/github-webhook-store.ts:441-453).
- Hashes are injective functions with non-empty results; Git blob names read back what was written; commit
  creation is deterministic where retries are compared and arbitrary where safety is proved.
- `localeCompare` is a ranking of strings, with equal ranks for strings it cannot tell apart.
- Time is an integer clock that never runs backwards; every store transaction and every remote call is atomic.
- Strings are sequences of Unicode scalar values; the source's are UTF-16 code units, lone surrogates included.
- Where the code and its comment differ the code is followed: the comment in `packages/recovery/src/diff.ts:150`
  allows an empty hunk line only with a prefix, the code keeps a bare one without counting it.

## Left out

- Network, SQL text, BullMQ, Docker and Git processes: replaced by rows, a remote with refs and pull requests, and a queue keyed by job id.
- `PublicationStore.transition` writes a status without asking the table and is no step of the protocol.
- How the facts that `verifyPublicationBundle` checks are computed: they are given as booleans, and in the many-worker machine as one flag beside the attempt limit.
- Whether a failure can always be persisted: it cannot, and the machines only say what follows when it is or is not.
- Rename chains across sections and base files with CRLF line endings.
- The publication event log and the recovery event log, which have no verifier; the incident log has.
- Secret redaction, path-pattern regexes and lower-casing of extensions: uninterpreted functions.
- Merge readiness, health and severity scores, cost arithmetic, prompts, schemas and configuration.
- PublicationParser.ParseUnifiedDiffFiles: header numbers are unbounded naturals, so the loss of precision above 2^53 is not modelled.
- RecoveryParser.ParseUnifiedDiff: provenance is a map, so names inherited from the object prototype are not looked up; row ids and digests are left out.
- PatchPrinter.ParsePrint: asks that the rendered section line be readable, because the greedy ` b/` split can misread a path that contains ` b/`.
- DiffRoundTrip.DiffThenApply: is not true of every cut into hunks, because the code places an empty old range inside a file one line too early; DiffRoundTrip.ApplyRenderedIff says exactly when that is harmless.
- PatchScope.RequestStaysInScope: scope is not guaranteed for renames, because the policy looks at the new path only while the tree request also removes the old one; the condition is on the old paths.
- CanonicalJson.TextIffSame: undefined and non-finite numbers have no JSON text and are left out.
- Json.ParseText: the decoder reads text without insignificant whitespace and does not combine surrogate-pair escapes, neither of which the serializers write.
- EventChain.BuiltLogsVerify: row ids and creation times are not hashed and left out.
- PublicationRetry.RetryConverges: the rerun itself is failure-free and keeps its lease; anything may have happened before it.
- PublicationWorker.ProcessPublication: a single run at one time, with rivals on the remote only where the code rereads; the interleaved runs are those of PublicationProtocol. Cancellation messages and HTTP codes are not told apart in the failure class.
- Outbox.PublishedIsQueued: the queue is taken to ignore every job id it has ever seen.
- ContextBudget.BuildInvestigationContext: a source carries the serialized text of its redacted content; metadata, counts and the content hash are left out.
- LoginLimiter.JudgeLoginLimiter.RecordFailure: with an empty window the new failure is counted although no window contains it, so there the contract states both answers instead of their equality.
