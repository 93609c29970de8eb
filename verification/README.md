# Verified models of Codex tooling

A Dafny model of the parts of the Codex repository whose correctness is hardest to see, and proofs of what they
promise. `dafny verify dfyconfig.toml` checks everything.

- **The MCP regression gate** (`RegressionReport`, `RegressionReader`, `RegressionMeaning`, `RegressionGate`,
  `RegressionWitness`, `ConformanceRun`, `ComplianceReport`, `ComplianceLaws`, `PinnedSuite`). Scenario outcomes become
  checks, cases and a report; the report is read back, compacted to a baseline and compared with later runs. The
  reader's loops are methods proved against the function `Read`, and `Read` is characterised without its loops. The
  pipeline theorems: whatever the tested binary does, the reader accepts a run exactly when the run was complete;
  compaction loses only skips and gates every candidate alike; gate success is a preorder, so over any chain of gated
  runs failures never grow.
- **The reviewer gate** (`ReviewReport`, `ReviewGate`, `ReviewMeaning`, `ReviewRun`, `ReviewRunLaws`), its sibling over
  boolean verdicts with recomputed totals: compaction is lossless and idempotent, gate success is a preorder, and the
  reader accepts a produced report exactly when the three modes were run in order and every case recorded distinct
  reviewer checks.
- **Protocol state machines**: the JSONL app-server client (`AppServerClient`), the fixture server's legacy handshake
  over stdio and over HTTP sessions served by interleaved threads (`FixtureSessions`), mirrored headers
  (`MirroredHeaders`, `Decimal`) and the event-stream printer against the standard's interpreter (`ServerSentEvents`).
- **The analytics queue** (`AnalyticsBatches`, `AnalyticsQueue`, `AnalyticsLiveness`, `AnalyticsDedupe`): a bounded
  queue, one worker, flush barriers and batching over every interleaving, with the reducer an arbitrary deterministic
  step; from every reachable state the worker drains the queue; and the capped key set over every sequence of calls.
  The diff counter is `DiffCounts`.
- **Layered agent roles** (`AgentRoles`): the in-place fold over config layers equals a closed form for every name.
- **Text normalisers**: release versions (`ReleaseVersion`, `ReleaseRewriting`, `ReleaseLaws`), app-server paths
  (`AppServerPath`) and lint arguments (`LintArguments`).

`Sorting`, `TextOrder`, `Sequences`, `JsonFields`, `DecimalDigits` and `Wrappers` hold shared definitions. A field of an
untyped JSON object is `Raw`: missing, of a wrong shape, or a value.

Where the code does not keep a natural property on all inputs, the model keeps the code and the property is stated with
its exact condition:

- A written regression baseline reads back, compacts again to itself and gates like the report it came from exactly
  when nothing required was only skipped (`CompactReadsBack`, `CompactIdempotent`, `CompactionRefines`): the full branch
  counts a skipped scenario as observed, the writer drops it. `SkippedBaselineIsNotReadable` gives a report for which
  all three fail.
- A report passes the gate against itself only when it is clean, records the policy and no shipping check failed
  (`GateReflexive`).
- Joining onto a Windows path made only of separators, such as `//`, loses the path's kind and its components
  (`JoinKeepsKind`, `JoinAddsSegment`, `RootParts`).
- Rebuilding lint arguments is not idempotent when the manifest path is `--` (`RebuildIsIdempotent`,
  `SeparatorAsManifest`).
- Normalising rewrites alpha before beta, so `1-bet-alpha2` also normalises, to `1b2`; `NormalizeIsExact` lists this
  spelling with the intended ones.

## Model

| member | source | states |
|---|---|---|
| RegressionReport.NumberedNamesAreStable | scripts/mcp_conformance/run_codex_compliance.py:1443-1456 | A name that ends in `#` and decimal digits of any script is identified by its stem, so the arrival number of a repeated observation never makes a new identity |
| RegressionReader.ReadBucket | scripts/mcp_conformance/run_codex_compliance.py:1516-1554 | The loop over one bucket of a compact baseline returns exactly the malformed and duplicate records in order and the identities with this status added |
| RegressionReader.CollectCases | scripts/mcp_conformance/run_codex_compliance.py:1593-1613 | The loop over a report's cases keeps the first case of each key and reports malformed and duplicate ones in order |
| RegressionReader.ReadChecks | scripts/mcp_conformance/run_codex_compliance.py:1639-1664 | The loop over a case's checks returns its malformed checks, the status sets extended by its readable checks, and the HTTP scenarios they observe |
| RegressionReader.ReadRequiredCase | scripts/mcp_conformance/run_codex_compliance.py:1627-1677 | A required case is missing, empty, or read check by check; over HTTP the observed scenarios are compared with the catalog |
| RegressionReader.CheckCompactModes | scripts/mcp_conformance/run_codex_compliance.py:1556-1590 | For every mode in order, the compact branch reports an incomplete catalog, uncovered transports and unobserved or unexpected scenarios |
| RegressionReader.ReadRequiredModes | scripts/mcp_conformance/run_codex_compliance.py:1615-1679 | For every mode in order, the full branch reports the catalog and both required cases while one status map grows |
| RegressionReader.RequiredRegressionChecks | scripts/mcp_conformance/run_codex_compliance.py:1459-1679 | The whole reader, header and both branches, equals the specification `Read` on every report, malformed ones included |
| RegressionMeaning.FullReadingMeaning | scripts/mcp_conformance/run_codex_compliance.py:1593-1679 | An identity has a status in a full reading exactly when the first case of its mode and transport holds a readable check with that identity and status |
| RegressionMeaning.ReadingHasNoEmptySets | scripts/mcp_conformance/run_codex_compliance.py:1554-1659 | No identity of any reading has an empty status set |
| RegressionMeaning.CompactReadingMeaning | scripts/mcp_conformance/run_codex_compliance.py:1510-1554 | A compact reading has exactly the listed passes and failures and never a skip |
| RegressionMeaning.CaseTableMeaning | scripts/mcp_conformance/run_codex_compliance.py:1598-1613 | The table holds a key exactly when some case has it, and then the first such case |
| RegressionMeaning.CaseProblemsMeaning | scripts/mcp_conformance/run_codex_compliance.py:1598-1613 | Collecting cases reports nothing exactly when every case is well formed and no required key repeats |
| RegressionMeaning.MalformedChecksMeaning | scripts/mcp_conformance/run_codex_compliance.py:1640-1658 | A case reports no malformed check exactly when all its checks are readable |
| RegressionMeaning.BucketProblemsMeaning | scripts/mcp_conformance/run_codex_compliance.py:1522-1553 | A bucket reports nothing exactly when all records are well formed and pairwise different |
| RegressionMeaning.ReadCaseIsClean | scripts/mcp_conformance/run_codex_compliance.py:1627-1677 | A required case reports nothing exactly when it exists, has checks, all are readable and over HTTP they observe exactly the catalog |
| RegressionMeaning.FullIsClean | scripts/mcp_conformance/run_codex_compliance.py:1465-1679 | A full report reads without problems exactly when it meets the declarative predicate of clean full reports |
| RegressionMeaning.CompactIsClean | scripts/mcp_conformance/run_codex_compliance.py:1465-1591 | A compact baseline reads without problems exactly when it meets the declarative predicate of clean baselines |
| RegressionMeaning.ReadIsClean | scripts/mcp_conformance/run_codex_compliance.py:1459-1679 | Over both branches, the reader is silent exactly on clean reports |
| RegressionGate.CompactAccepts | scripts/mcp_conformance/run_codex_compliance.py:1682-1700 | A baseline is written exactly for clean reports that record the OAuth policy and have no shipping failure |
| RegressionGate.CompactKeepsStatuses | scripts/mcp_conformance/run_codex_compliance.py:1702-1726 | Reading a written baseline gives back every pass and failure of the report and drops exactly the skips |
| RegressionGate.CompactReadsBack | scripts/mcp_conformance/run_codex_compliance.py:1556-1726 | A written baseline reads without problems if and only if every required case and catalog scenario has a check that was not skipped |
| RegressionGate.CompactIdempotent | scripts/mcp_conformance/run_codex_compliance.py:1682-1726 | Compacting a written baseline again gives the same baseline, under exactly the same condition |
| RegressionGate.ObservedInCatalog | scripts/mcp_conformance/run_codex_compliance.py:1574-1590 | A clean report never observes a scenario outside its mode's catalog |
| RegressionGate.WalkCandidate | scripts/mcp_conformance/run_codex_compliance.py:1772-1784 | The candidate loop returns, in identity order, the shipping errors, the new failures and the known failures |
| RegressionGate.WalkBaseline | scripts/mcp_conformance/run_codex_compliance.py:1785-1798 | The baseline loop returns, in identity order, the shipping errors, the missing checks and the fixed checks |
| RegressionGate.EvaluateRegressionGate | scripts/mcp_conformance/run_codex_compliance.py:1744-1809 | The gate equals its specification for every pair of reports: errors in order, the four lists and the verdict |
| RegressionGate.GatePasses | scripts/mcp_conformance/run_codex_compliance.py:1744-1809 | The gate passes exactly when both reports are clean with one recorded OAuth policy, neither has a shipping failure, no failure is new, every pass is still a pass and every old failure is still observed |
| RegressionGate.GateReflexive | scripts/mcp_conformance/run_codex_compliance.py:1744-1809 | A report passes the gate against itself if and only if it is clean, records the policy and has no shipping failure |
| RegressionGate.GateTransitive | scripts/mcp_conformance/run_codex_compliance.py:1744-1809 | Passing against a report that passed against a third means passing against the third |
| RegressionGate.PassingKeeps | scripts/mcp_conformance/run_codex_compliance.py:1744-1809 | Across one passing gate failures only shrink and passes only grow |
| RegressionGate.GateChain | scripts/mcp_conformance/run_codex_compliance.py:1744-1809 | Over any chain of gated runs the last passes against the first, failing identities never grow and every early pass survives |
| RegressionGate.GateAccounts | scripts/mcp_conformance/run_codex_compliance.py:1772-1798 | Every failure is new or known and not both; every old failure is known, fixed or missing; fixed is disjoint from the others; known and missing overlap only for a baseline that both passed and failed |
| RegressionGate.CompactionRefines | scripts/mcp_conformance/run_codex_compliance.py:1682-1809 | Gating any candidate against a written baseline gives the same result, lists and errors included, as gating against the report it was made from, if and only if nothing required was only skipped |
| RegressionWitness.SkippedBaselineIsNotReadable | scripts/mcp_conformance/run_codex_compliance.py:1682-1726 | There is a clean report whose baseline is written but does not read back: every required case is there and its one scenario was skipped. It passes against itself and is refused by its own baseline |
| RegressionGate.SkipsDoNotMatter | scripts/mcp_conformance/run_codex_compliance.py:1714-1725 | Dropping skips changes neither the passing nor the failing identities nor whether shipping fails |
| ConformanceRun.LoadChecks | scripts/mcp_conformance/official_conformance.py:306-342 | The loop over a result file keeps, in order, every object that is not a trace entry, names the unnamed by position and takes a missing status for a failure |
| ConformanceRun.CountNames | scripts/mcp_conformance/run_codex_compliance.py:1178-1180 | The counting loop gives each name its number of occurrences |
| ConformanceRun.NumberingIsUndone | scripts/mcp_conformance/run_codex_compliance.py:1111-1139 | The number appended to a repeated check name is taken off again by the reader, for every result and position |
| ConformanceRun.CollectScenario | scripts/mcp_conformance/run_codex_compliance.py:1177-1222 | One scenario contributes its official checks, numbered where names repeat, then the adapter check, then a runner failure when nothing else would show it |
| ConformanceRun.RunOfficialCase | scripts/mcp_conformance/run_codex_compliance.py:1142-1250 | The case builder equals its specification: all scenarios in order, the selection failure when there is none, then the supplemental checks |
| ConformanceRun.OfficialCaseSucceeds | scripts/mcp_conformance/run_codex_compliance.py:1177-1249 | A case succeeds exactly when there is a scenario, every scenario passes and every supplemental check succeeded |
| ConformanceRun.NoScenarioIsMasked | scripts/mcp_conformance/official_conformance.py:461-464 | Whatever mix of exit code, checks and adapter outcome, a successful case holds no unsuccessful scenario |
| ConformanceRun.OfficialCaseIsExact | scripts/mcp_conformance/run_codex_compliance.py:138-140 | Without supplemental checks a non-empty case succeeds exactly when every scenario succeeded and every check status is one a successful run may report |
| ComplianceReport.OnlyKeepsAll | scripts/mcp_conformance/official_conformance.py:183-233 | A request selects exactly the requested names of a catalog, and all of it in order exactly when every name was requested |
| ComplianceReport.WholeCatalogSelected | scripts/mcp_conformance/official_conformance.py:183-233 | With authentication included, a mode that can be selected gets its whole catalog exactly when nothing was requested or everything in it was |
| ComplianceReport.SelectScenarios | scripts/mcp_conformance/run_codex_compliance.py:1338-1345 | Scenario selection over the modes fails at the first mode that cannot be selected, or gives every mode its selection |
| ComplianceReport.RunModes | scripts/mcp_conformance/run_codex_compliance.py:1350-1380 | The inner loop runs one transport over the modes, skipping HTTP modes with no scenario, and stops at the first case whose directory exists |
| ComplianceReport.RunMatrix | scripts/mcp_conformance/run_codex_compliance.py:1347-1380 | The nested loops produce the cases of every transport and mode in order, or stop at the first case whose directory an earlier one made |
| ComplianceReport.RunCompliance | scripts/mcp_conformance/run_codex_compliance.py:1306-1422 | A run stops at the first unselectable mode, stops at the first case whose directory exists, or gives a report of exactly its cases, successful when the version check and every case are; it finishes exactly when no two cases share a directory |
| ComplianceLaws.StdioCaseIsClean | scripts/mcp_conformance/run_codex_compliance.py:976-1108 | Any stdio case the harness can write is one the reader accepts |
| ComplianceLaws.HttpCaseIsClean | scripts/mcp_conformance/run_codex_compliance.py:1142-1250 | An HTTP case is one the reader accepts exactly when it ran the mode's whole catalog |
| ComplianceLaws.ProducedCasesDistinct | scripts/mcp_conformance/run_codex_compliance.py:1347-1380 | A run makes a new directory for every case, and so finishes, exactly when it visits no mode and no transport twice, which is also exactly when its cases are pairwise different |
| ComplianceLaws.RunHasCleanCase | scripts/mcp_conformance/run_codex_compliance.py:1347-1380 | A run has an acceptable case for a mode and transport exactly when it visited it, with the whole catalog over HTTP |
| ComplianceLaws.ProducerMeetsReader | scripts/mcp_conformance/run_codex_compliance.py:1306-1679 | Whatever the tested binary does, the gate's reader accepts a run's report if and only if the run was complete |
| ComplianceLaws.CompleteRunStatuses | scripts/mcp_conformance/run_codex_compliance.py:1593-1679 | In a complete run an identity reads with a status exactly when some check of the run has both |
| ComplianceLaws.CompleteRunSkipsNothing | scripts/mcp_conformance/run_codex_compliance.py:1190-1202 | A complete run has a check that was not skipped for every required case and every scenario |
| ComplianceLaws.RunSuccessIsExact | scripts/mcp_conformance/run_codex_compliance.py:1382-1386 | A complete run is reported successful exactly when its reading has no failing identity |
| ComplianceLaws.StoredRunIsFaithful | scripts/mcp_conformance/run_codex_compliance.py:1306-1809 | A complete run without shipping failure can be stored; the stored baseline reads cleanly with the same passes and failures, is a fixed point of compaction, gates every candidate like the run itself, and the run passes against it |
| ComplianceLaws.StoredIsFaithful | scripts/mcp_conformance/run_codex_compliance.py:1682-1809 | The same for any clean report in which nothing required was only skipped |
| ComplianceLaws.DefaultRunIsAccepted | scripts/mcp_conformance/run_codex_compliance.py:2113-2118 | With all modes, both transports and no restriction a run always starts, and the gate's reader accepts it exactly when the version check succeeded |
| PinnedSuite.PinnedDefaultRun | scripts/mcp_conformance/official_conformance.py:21-101 | The same for the pinned catalogs, whatever the tested binary does |
| PinnedSuite.PinnedIsValid | scripts/mcp_conformance/official_conformance.py:21-101 | The pinned catalogs meet what the laws about complete runs assume of an upstream release |
| ReviewGate.CollectChecks | scripts/mcp_conformance/review_regressions.py:969-988 | The loop over a case's checks reports malformed and duplicate checks, records each other verdict and conjoins them |
| ReviewGate.CollectCase | scripts/mcp_conformance/review_regressions.py:944-993 | One case is malformed, unexpected, duplicate, empty or collected, and its success flag is compared with its checks |
| ReviewGate.CollectRefs | scripts/mcp_conformance/review_regressions.py:890-903 | The loop over the listed cases reports malformed and repeated ones and observes the rest |
| ReviewGate.CollectBucket | scripts/mcp_conformance/review_regressions.py:909-938 | One bucket is absent or read record by record into the verdicts |
| ReviewGate.CollectFull | scripts/mcp_conformance/review_regressions.py:940-993 | The loop over a full report's cases equals the fold of the case step |
| ReviewGate.RequiredReviewChecks | scripts/mcp_conformance/review_regressions.py:859-1029 | The whole reviewer reader, both branches and the recomputed totals, equals its specification on every report |
| ReviewMeaning.FullReviewMeaning | scripts/mcp_conformance/review_regressions.py:939-1029 | A full reviewer report reads without problems exactly when its cases are the required ones, once each, with distinct readable checks and honest success flags and totals; its verdicts are then exactly its checks' verdicts |
| ReviewMeaning.CompactReviewMeaning | scripts/mcp_conformance/review_regressions.py:882-1029 | A compact reviewer baseline reads without problems exactly when it lists the required cases once each, its two buckets list readable, distinct and disjoint checks and its totals are theirs; its verdicts are then exactly the listed ones |
| ReviewMeaning.RefsMeaning | scripts/mcp_conformance/review_regressions.py:890-903 | Listed cases are taken on silently exactly when all are readable and no key repeats, and are then the observed cases |
| ReviewMeaning.BucketMeaning | scripts/mcp_conformance/review_regressions.py:909-938 | A bucket is taken on silently exactly when its records are readable, distinct and new, and then adds exactly their verdicts |
| ReviewRun.RunSlots | scripts/mcp_conformance/review_regressions.py:787-834 | Consecutive cases are run in order and appended to those before them |
| ReviewRun.RunMain | scripts/mcp_conformance/review_regressions.py:787-819 | A mode's main cases are the reviewer profile over stdio and, for the modern mode, the six HTTP profiles in order |
| ReviewRun.RunBoundaries | scripts/mcp_conformance/review_regressions.py:821-834 | The catalog boundary cases of every mode follow, by transport and profile |
| ReviewRun.CountChecks | scripts/mcp_conformance/review_regressions.py:836-850 | The report's counts are the sums over the cases of checks, failures and successful cases |
| ReviewRun.RunReview | scripts/mcp_conformance/review_regressions.py:774-856 | A run produces the specified report for any modes and any outcomes |
| ReviewRun.RequiredIsVisited | scripts/mcp_conformance/review_regressions.py:71-90 | The required cases are exactly those a run over all modes visits |
| ReviewRun.KeyInjective | scripts/mcp_conformance/review_regressions.py:71-90 | Different cases have different keys |
| ReviewRunLaws.CountsAgree | scripts/mcp_conformance/review_regressions.py:836-850 | Over different required cases the totals the reader recomputes are the producer's counts |
| ReviewRunLaws.ReviewRunIsAccepted | scripts/mcp_conformance/review_regressions.py:774-1029 | Whatever the probes find, the reviewer reader accepts a run's report if and only if the three modes were run in order and every case recorded at least one check, all under reviewer names and none twice |
| ReviewRunLaws.ReviewRunIsStorable | scripts/mcp_conformance/review_regressions.py:774-1110 | A run can be stored exactly under the same condition; its baseline then reads back with the verdicts of the run's checks, and the run passes against it |
| ReviewMeaning.ChecksMeaning | scripts/mcp_conformance/review_regressions.py:969-988 | A case's checks are collected silently exactly when all are readable and no name repeats, and then add exactly their verdicts |
| ReviewMeaning.CasesMeaning | scripts/mcp_conformance/review_regressions.py:944-993 | Cases are collected silently exactly when all are clean and no key repeats |
| ReviewGate.ReadingsAreGood | scripts/mcp_conformance/review_regressions.py:859-1029 | Every verdict of any reading belongs to a required case and a reviewer check id |
| ReviewGate.BaselineReadsBack | scripts/mcp_conformance/review_regressions.py:882-938 | A baseline listing the passing and failing sides of a verdict map reads back as that map over the required cases |
| ReviewGate.CompactIsLossless | scripts/mcp_conformance/review_regressions.py:1032-1067 | A baseline is written exactly for problem-free reports; it reads back without problems and with the same verdicts, and compacting it again changes nothing |
| ReviewGate.WalkCandidate | scripts/mcp_conformance/review_regressions.py:1086-1092 | The candidate loop splits the failing checks, in order, into known and new |
| ReviewGate.WalkBaseline | scripts/mcp_conformance/review_regressions.py:1094-1099 | The baseline loop lists, in order, the missing and the fixed checks |
| ReviewGate.EvaluateReviewGate | scripts/mcp_conformance/review_regressions.py:1070-1110 | The reviewer gate equals its specification for every pair of reports |
| ReviewGate.GatePasses | scripts/mcp_conformance/review_regressions.py:1101-1102 | The gate passes exactly when both reports read cleanly, no failure is new and no baseline check is missing |
| ReviewGate.GateReflexive | scripts/mcp_conformance/review_regressions.py:1070-1110 | A report passes against itself if and only if it reads without problems |
| ReviewGate.GateTransitive | scripts/mcp_conformance/review_regressions.py:1070-1110 | Reviewer gate success is transitive |
| ReviewGate.PassingStaysPassing | scripts/mcp_conformance/review_regressions.py:1086-1102 | Across a passing gate every check that passed in the baseline still passes |
| ReviewGate.CompactionRefines | scripts/mcp_conformance/review_regressions.py:1032-1110 | Gating against a stored baseline equals gating against the report it came from |
| ReviewGate.GateAccounts | scripts/mcp_conformance/review_regressions.py:1086-1099 | Every check is accounted for by exactly the lists its two verdicts put it in |
| AppServerClient.AppServer.constructor | scripts/mcp_conformance/run_codex_compliance.py:159-200 | A new client has spent no id, sent nothing and kept no event |
| AppServerClient.AppServer.Send | scripts/mcp_conformance/run_codex_compliance.py:228-237 | Sending appends one line, or fails and changes nothing once the server stops reading |
| AppServerClient.AppServer.HandleServerRequest | scripts/mcp_conformance/run_codex_compliance.py:319-353 | A server request is recorded and answered once with its own id: an elicitation is accepted with the content made from its params, anything else refused by name |
| AppServerClient.AppServer.DoRequest | scripts/mcp_conformance/run_codex_compliance.py:242-276 | A request leaves the client in exactly the specified state and returns the specified outcome, over any interleaving of server requests, events and other answers |
| AppServerClient.AppServer.WaitForNotification | scripts/mcp_conformance/run_codex_compliance.py:278-317 | Waiting scans kept events from the given position, then the incoming ones, leaving exactly the specified state |
| AppServerClient.SessionAccounts | scripts/mcp_conformance/run_codex_compliance.py:242-353 | Over any session every dequeued item is handed to one request or kept as an event exactly once and in arrival order, and each kept server request gets exactly one reply with its id unless some operation found the process gone; in that case the replies are the first of these, in order |
| AppServerClient.AnswerIsOwn | scripts/mcp_conformance/run_codex_compliance.py:242-276 | A message handed to a request carries that request's id and is what the request returns |
| AppServerClient.ExecIds | scripts/mcp_conformance/run_codex_compliance.py:242-317 | Each request spends exactly one id, other operations none, and only a request hands out a message |
| AppServerClient.IdsOnlyGrow | scripts/mcp_conformance/run_codex_compliance.py:242-252 | Ids strictly grow over the requests of a session |
| AppServerClient.LateAnswersAreNotReturned | scripts/mcp_conformance/run_codex_compliance.py:242-276 | What a later request returns answers its own id and never that of any earlier request |
| FixtureSessions.ConnectionState.HandleMessage | scripts/mcp_conformance/server.py:306-362 | Handling a message updates the two handshake fields and plans the notifications and the reply exactly as specified |
| FixtureSessions.RunStdio | scripts/mcp_conformance/server.py:1641-1671 | Before reading the next line the stdio loop writes exactly the notifications and then the response, if any, that the specification plans for a line from the state of the lines before it |
| FixtureSessions.StdioHandshake | scripts/mcp_conformance/server.py:487-536 | After any lines the connection has seen an initialize exactly when some line was a valid one, and is initialized exactly when a notification followed it |
| FixtureSessions.StdioResultsNeedHandshake | scripts/mcp_conformance/server.py:306-362 | A line is answered with a result only if it is the initialize itself or the handshake was already complete, and with a notification only in the latter case |
| FixtureSessions.StepKeeps | scripts/mcp_conformance/server.py:1412-1568 | Every arrival, service and deletion by any request thread keeps the session invariant |
| FixtureSessions.EveryRunKeeps | scripts/mcp_conformance/server.py:1412-1568 | The invariant holds after every run of interleaved request threads |
| FixtureSessions.SessionHandshake | scripts/mcp_conformance/server.py:1433-1540 | In every run a live session was created by an initialize request, is initialized exactly when that request was valid, was served, and a notification carrying the session's id was served on it later; after a malformed one it never leaves its first state |
| FixtureSessions.ResultsNeedHandshake | scripts/mcp_conformance/server.py:1433-1540 | In every run a message is answered with a result only if it is the valid initialize that opened its session or that session's handshake was complete before it, and sends notifications only in the latter case |
| FixtureSessions.SessionsAreUnshared | scripts/mcp_conformance/server.py:1542-1568 | In every run two live session ids name two different states |
| FixtureSessions.SessionServesItsOwn | scripts/mcp_conformance/server.py:1542-1568 | In every run whatever was served on a live session's state is the initialize that created it or carried that session's id |
| FixtureSessions.ServingLeavesOthers | scripts/mcp_conformance/server.py:1504-1509 | In every run serving a request of one live session changes neither the state nor the entry of another |
| FixtureSessions.OtherSessionsAreUntouched | scripts/mcp_conformance/server.py:1412-1568 | From any point of any run a live session keeps its entry and its state over any further steps that neither delete it, nor open a session under its id, nor serve one of its requests |
| FixtureSessions.FreshSessionHandshake | scripts/mcp_conformance/server.py:1542-1568 | When no two initialize requests draw the same id, the messages served on a live session's state are exactly those answered under its id, and it is initialized exactly when a valid initialize and later an initialized notification were answered under that id |
| ServerSentEvents.PrintingIsUndone | scripts/mcp_conformance/server.py:1344-1371 | For every profile and every list of one-line texts, interpreting the encoded bytes by section 9.2.6 of the WHATWG HTML standard gives exactly those texts in order |
| ServerSentEvents.AnyLineEnd | scripts/mcp_conformance/server.py:1344-1371 | LF, CRLF and a CR that no LF follows each end exactly the line before them |
| ServerSentEvents.FloodExceedsLimit | scripts/mcp_conformance/server.py:49-53 | The flood prefix is made of whole 2048-byte comment lines and exceeds the 8 MiB event limit |
| MirroredHeaders.ValidateParams | scripts/mcp_conformance/server.py:1289-1341 | The loop over the mirrored arguments reports the first mismatch, exactly as specified |
| MirroredHeaders.WrappedTextDecodes | scripts/mcp_conformance/server.py:1237-1260 | A Base64-wrapped header decodes to the text that was wrapped |
| MirroredHeaders.HeadersDetermineCall | scripts/mcp_conformance/server.py:737-771 | Two accepted calls with the same mirrored headers have the same four arguments, for all strings and all integers in range |
| MirroredHeaders.EveryCallCanBeMirrored | scripts/mcp_conformance/server.py:1237-1341 | Every call the type checks accept is accepted when each argument is mirrored in wrapped form |
| Decimal.NatTextInjective | scripts/mcp_conformance/server.py:1289-1341 | Different numbers print differently |
| Decimal.IntTextInjective | scripts/mcp_conformance/server.py:1289-1341 | Different integers, signed ones included, print differently |
| AnalyticsBatches.TrackEventRequestBatches | codex-rs/analytics/src/client.rs:739-760 | The batching loop equals the specification `Batches` |
| AnalyticsBatches.BatchesAreBatching | codex-rs/analytics/src/client.rs:739-760 | The batches flatten to the events in order, none is empty, an isolated event travels alone and no two neighbours could be merged |
| AnalyticsBatches.BatchingIsUnique | codex-rs/analytics/src/client.rs:739-760 | Any batching with these properties is the one computed |
| AnalyticsQueue.RetainEvents | codex-rs/analytics/src/client.rs:725-726 | The retain loop keeps, in order, exactly the events that may be sent with an API key |
| AnalyticsQueue.SendTrackEvents | codex-rs/analytics/src/client.rs:713-737 | Sending posts exactly the batches of the allowed events, in order |
| AnalyticsQueue.WorkerLoop | codex-rs/analytics/src/client.rs:147-172 | Draining a queue alone posts exactly what the sequential reference does and acknowledges its flushes in order |
| AnalyticsQueue.StepKeeps | codex-rs/analytics/src/client.rs:147-183 | Every step of any sender, flush caller or the worker keeps the queue invariant |
| AnalyticsQueue.EveryRunKeeps | codex-rs/analytics/src/client.rs:147-183 | The invariant holds after every interleaving |
| AnalyticsQueue.FlushesStayDistinct | codex-rs/analytics/src/client.rs:244-265 | No two accepted flushes are the same call, and none is still waiting |
| AnalyticsQueue.RunsDeliverInOrder | codex-rs/analytics/src/client.rs:147-183 | In every run the queue is bounded, messages are handled in the order accepted, posted batches are a prefix of the sequential reference and all of it when the worker is idle, and every batch is well formed |
| AnalyticsQueue.RunsDeliverTheReducer | codex-rs/analytics/src/client.rs:713-737 | With the authentication fixed, posted and pending batches flatten to the allowed output of the reducer run over the handled messages; once drained, over all accepted ones |
| AnalyticsQueue.FlushIsABarrier | codex-rs/analytics/src/client.rs:244-265 | An acknowledged flush has one place in the accepted order, and everything up to that place was posted before |
| AnalyticsLiveness.EveryRunAnswers | codex-rs/analytics/src/client.rs:154-159 | In every run the acknowledged flushes, and at most one more that is owed, are the flushes taken from the queue, in order |
| AnalyticsLiveness.EveryRunDrains | codex-rs/analytics/src/client.rs:147-172 | From every state a run can reach the worker's own steps empty the queue, post all the reducer's output for the accepted messages and acknowledge every accepted flush in order |
| AnalyticsDedupe.EmittedKeys.constructor | codex-rs/analytics/src/client.rs:167-171 | A new queue remembers no key |
| AnalyticsDedupe.EmittedKeys.ShouldEnqueueAppUsed | codex-rs/analytics/src/client.rs:185-201 | The app key set and answer change exactly as the specification step for an app call says, and the plugin set does not change |
| AnalyticsDedupe.EmittedKeys.ShouldEnqueuePluginUsed | codex-rs/analytics/src/client.rs:203-224 | The plugin key set, cleared even by keyless calls, and the answer change exactly as the specification step says, and the app set does not change |
| AnalyticsDedupe.EmitsAreConserved | codex-rs/analytics/src/client.rs:185-224 | Answers given are the keys held now plus a full set for each clear |
| AnalyticsDedupe.EmitBound | codex-rs/analytics/src/client.rs:185-224 | Over every call sequence at most 4096 keys are held and a key is answered true at most once plus the total of true answers divided by 4096 |
| AnalyticsDedupe.RepeatsNeedAClear | codex-rs/analytics/src/client.rs:185-224 | Between two true answers for one key the set was cleared |
| AnalyticsDedupe.HeldUntilClear | codex-rs/analytics/src/client.rs:185-224 | A key that was asked about stays held until a clear |
| DiffCounts.AcceptedLineCounts | codex-rs/analytics/src/accepted_lines.rs:27-61 | The loop over a diff's lines computes the specified counts |
| DiffCounts.CountingInvertsPrinting | codex-rs/analytics/src/accepted_lines.rs:27-61 | For every list of printed files the counts are the numbers of added and deleted body lines, whatever the lines look like |
| DiffCounts.CountsAddUp | codex-rs/analytics/src/accepted_lines.rs:27-61 | The counts of any two diffs add up when the second begins with a file header |
| DiffCounts.CountMeaning | codex-rs/analytics/src/accepted_lines.rs:32-55 | Over any lines the counts are the sizes of the sets of additions and deletions, defined by position and hunk |
| DiffCounts.HunkStateMeaning | codex-rs/analytics/src/accepted_lines.rs:28-41 | The counter is in a hunk exactly when a hunk header precedes with no file header since |
| DiffCounts.CountOfText | codex-rs/analytics/src/accepted_lines.rs:32-32 | Counting a text counts its lines with either line ending and with or without a final one |
| AgentRoles.ReadDeclarations | codex-rs/agent-roles/src/loader.rs:46-73 | The loop over a layer's declarations equals its specification: first readable declaration per name, files claimed, warnings in order |
| AgentRoles.DeclaredMeaning | codex-rs/agent-roles/src/loader.rs:46-73 | A name is declared exactly when some declaration reads as it, the first one wins, and every declared file is claimed |
| AgentRoles.DiscoverRoles | codex-rs/agent-roles/src/loader.rs:290-335 | The discovery loop equals its specification over the folder's files |
| AgentRoles.DiscoveredMeaning | codex-rs/agent-roles/src/loader.rs:290-335 | A name is discovered exactly when an unclaimed file reads as it, and the first such file defines it |
| AgentRoles.CombineRoles | codex-rs/agent-roles/src/loader.rs:75-98 | Discovered roles join the declared ones unless the name is taken, each clash giving one warning in name order |
| AgentRoles.ReadLayer | codex-rs/agent-roles/src/loader.rs:36-98 | Reading one layer gives its accepted definitions and warnings, or the error of its folder |
| AgentRoles.MergeRoles | codex-rs/agent-roles/src/loader.rs:100-113 | The in-place merge of a layer equals the specified merge, with one warning per undescribed name in order |
| AgentRoles.LoadAgentRoles | codex-rs/agent-roles/src/loader.rs:34-117 | The layered loader equals the fold of the layers from low to high, and stops at the first folder that cannot be listed |
| AgentRoles.FoldIsClosedForm | codex-rs/agent-roles/src/loader.rs:100-113 | After any layers each name has its closed form: every field from the highest layer that sets it among the first describing layer and those above |
| AgentRoles.LoadedIffDescribed | codex-rs/agent-roles/src/loader.rs:105-112 | A name is loaded exactly when some layer describes it |
| AgentRoles.UndescribedMeaning | codex-rs/agent-roles/src/loader.rs:105-111 | A definition is dropped with a warning exactly when no layer up to its own describes the name |
| AgentRoles.LoadIsClosedForm | codex-rs/agent-roles/src/loader.rs:34-117 | A load succeeds exactly when every folder could be listed, and then every name has its closed form |
| AgentRoles.LoadWarnings | codex-rs/agent-roles/src/loader.rs:34-117 | A successful load reports exactly each layer's warnings in layer order |
| AgentRoles.LoadWithoutLayers | codex-rs/agent-roles/src/loader.rs:125-145 | The plain loader equals its specification and stops at the first bad declaration |
| AgentRoles.PlainLoadMeaning | codex-rs/agent-roles/src/loader.rs:125-145 | The plain load succeeds exactly when every declaration reads, is described and names are distinct, and then holds exactly those roles |
| ReleaseVersion.PatternIsPrinted | sdk/python/release_version.py:10-12 | The pattern of normalised versions matches exactly the printed versions, each in one way |
| ReleaseLaws.NormalizeIsExact | sdk/python/release_version.py:68-82 | A text normalises to a version if and only if, without surrounding space and prefix, it is one of the version's spellings; the alpha rewrite completing a beta mark is one of them |
| ReleaseLaws.SpellingsNormalise | sdk/python/release_version.py:75-78 | The four rewrites in sequence turn every spelling into the printed version |
| ReleaseLaws.OnlySpellingsNormalise | sdk/python/release_version.py:75-78 | Whatever the four rewrites turn into a printed version was a spelling of it |
| ReleaseLaws.WrittenNormalises | sdk/python/release_version.py:69-73 | A spelling normalises between any white space and after either prefix |
| ReleaseLaws.NormalizeIsIdempotent | sdk/python/release_version.py:68-82 | Normalising a normalised version changes nothing |
| ReleaseLaws.NormalizeUndoesTag | sdk/python/release_version.py:45-65 | A text has a tag exactly when it normalises, and normalising the tag gives the same version |
| ReleaseLaws.TagsAreInjective | sdk/python/release_version.py:45-65 | Two texts have the same tag exactly when they have the same normal form |
| ReleaseLaws.TagIsIdempotent | sdk/python/release_version.py:45-65 | The tag of a tag is the tag |
| ReleaseLaws.ResolveIsExact | sdk/python/release_version.py:35-42 | The resolver accepts exactly the versions of the runtime shape; each is its own normal form and gets its tag without error |
| AppServerPath.JoinKeepsKind | codex-rs/app-server-client/src/path.rs:33-58 | Joining a segment keeps a path POSIX or Windows if and only if the path is neither a Windows root of separators only nor a bare drive |
| AppServerPath.JoinAddsSegment | codex-rs/app-server-client/src/path.rs:21-41 | The components after joining are the old ones and the segment, if and only if the path is not a Windows root of separators only |
| AppServerPath.JoinAllIsExact | codex-rs/app-server-client/src/path.rs:21-41 | The same for every non-empty list of segments |
| AppServerPath.AbsoluteJoins | codex-rs/app-server-client/src/path.rs:13-41 | From an absolute path every fold of joins stays absolute, of the same kind, with the segments appended |
| AppServerPath.RootParts | codex-rs/app-server-client/src/path.rs:33-41 | Joining onto a root of separators only loses the kind and glues a backslash to the segment |
| AppServerPath.ComponentsAreClean | codex-rs/app-server-client/src/path.rs:21-31 | Components are non-empty and hold no separator of the path's kind |
| LintArguments.ParseWrapperArgs | tools/argument-comment-lint/wrapper_common.py:55-104 | The parsing loop equals the specification `Parse` on every command line |
| LintArguments.ParseMeaning | tools/argument-comment-lint/wrapper_common.py:55-104 | The parts around the first separator are the command line, and each flag is set exactly when some argument in flag position, or its value, decides it |
| LintArguments.BuildFinalArgs | tools/argument-comment-lint/wrapper_common.py:107-122 | The builder equals the specification `Build` |
| LintArguments.ParseBuilt | tools/argument-comment-lint/wrapper_common.py:55-122 | Parsing built arguments gives the user's lint and cargo arguments back in order behind the defaults, with exactly the default flags added |
| LintArguments.RebuildIsIdempotent | tools/argument-comment-lint/wrapper_common.py:55-122 | Rebuilding rebuilt arguments changes nothing if and only if the manifest path is not the separator or the user gave one |
| LintArguments.SeparatorAsManifest | tools/argument-comment-lint/wrapper_common.py:69-74 | A manifest path equal to the separator is parsed as one and hides everything after it |

## Left out

- Subprocesses, sockets, timeouts, what temporary directories hold, and JSON text: outcomes, messages and parsed
  values are parameters.
- Python's equality of `True`, `1` and `1.0` in untyped reports, and the `TypeError` an unhashable JSON value raises
  inside a membership test.
- DecimalDigits fixes the decimal digits of Unicode 15.0; other Python versions know slightly different sets.
- ComplianceLaws.StdioCaseIsClean: what a stdio case checks is an oracle giving any non-empty list of named
  supplemental checks; the probes that fill it are not spelled out.
- Regression and reviewer reports: problems are values, not the English sentences that name the label; durations,
  details, summaries, matrices and diagnostics are not part of the records.
- ReviewRunLaws.ReviewRunIsAccepted: what a case's probes record is an oracle giving any list of named verdicts.
- AnalyticsQueue.EveryRunKeeps: the channel, its senders and the worker are a state machine over values; `WorkerLoop`
  alone has the loop's form.
- The analytics reducer, the HTTP request and the capture file: the reducer is an opaque step function and a batch
  counts as posted when it is handed to delivery.
- FixtureSessions.EveryRunKeeps: handling one message under a session is one atomic step. A new session id is any
  text; one already in use is overwritten, as the table's assignment does.
- FixtureSessions.FreshSessionHandshake: that the ids drawn in a run differ is assumed of the random generator; the
  other session theorems do without it.
- FixtureSessions.StdioHandshake: what a ready server answers, notifications included, is an oracle; only the
  handshake decides whether it is asked.
- MirroredHeaders.WrappedTextDecodes: Base64 and UTF-8 decoding is an oracle that may fail.
- Agent roles: TOML parsing, file reads and directory listing are oracles; nickname and path validation are inside
  them.
- ServerSentEvents.PrintingIsUndone: texts are characters, one byte each; the transport's chunking is not modelled.
- ReleaseVersion works on characters; the command line and the output file of the resolver are not modelled.
- AppServerPath compares characters where the source compares bytes; the characters compared are ASCII.
- The 64-bit width of the diff counters, and the fingerprint events built from the counts.
- The rest of the lint wrapper: toolchain, environment and library selection.
- The agent graph store and agent identity, which forward to code that is not part of this model.
- Packaging, release staging, formatters, smoke tests, table-of-contents and ASCII checks, report printing and
  redaction: build plumbing that would only add easy members.
