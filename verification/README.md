# Glimmung: verified models

Dafny models of the parts of Glimmung whose behaviour is hardest to see from the code:
the managed runner that executes a phase's steps, the text formats that its programs
exchange, the graph algorithms and the edge routing of the dashboard, and the token
search of the evidence matchers. `dafny verify dfyconfig.toml` checks all of it.

Methods and classes are written as the programs are, with their loops and fields, and are
proved against functions; the lemmas are about those functions.

| files | what they model |
|---|---|
| `RunnerModel`, `Runner`, `RunnerExpansion` | the runner as a state machine; the class whose methods implement it; the expansion of dynamic blocks |
| `RunnerAccount`, `RunnerReport` | why each entry of a run is what it is, told from the entries before it and the commands; what a completion reports |
| `RunnerInstances` | where a block's cases come from, and what its planned steps are called and carry |
| `RunnerProtocol`, `RunnerGuarantees` | an automaton of what may happen in a run, that every run follows it, and what that guarantees |
| `RunnerLedger`, `RunnerPlan` | what a completion reports, and which steps start |
| `RunnerCases`, `RunnerSuccess` | recorded cases: the check that never fires, what a success takes and what it reports |
| `RunnerFailures`, `RunnerWorlds`, `RunnerExposure` | which jobs may succeed although a case failed, or record cases after a failing one, and worlds that show it for each of them |
| `CaseVerdict`, `CaseReport` | verdicts and evidence of dynamic cases; whose reasons and artifacts are reported |
| `EventOrder`, `EventNumbers` | numbering of events by concurrent log readers: the system and its invariant, and what holds in every run |
| `LogStream`, `LineScanner`, `LineForwarding` | log forwarding, line by line |
| `Json`, `JsonText` | the JSON reader, and exactly which texts it takes for which objects |
| `OutputFile`, `OutputReading` | the step output file: its writer and its parser, and what any file says |
| `OutputRoundTrip`, `OutputLosses` | writer and parser together, for records that a line can carry and for everything a step can write |
| `ShellQuoting`, `JsonChunks`, `TokenSearch` | shell quoting, bracket scanning, token search |
| `SystemGraph`, `RowOrder`, `ProjectGraph`, `CycleLineage` | graph search and the order of its rows, project filter, lineage walk |
| `EdgeRouting`, `EdgeNesting`, `EdgeCrossings` | recycle, entry and advance edges of the phase graph: their routes, and which of them meet each other or run through nodes |
| `Text`, `Numbers`, `Selections` | strings and decimal numbers as Go reads and writes them; filtered sequences |

## What is assumed

The runner's surroundings are an arbitrary `World`: for each execution of a command its
exit code, its outputs and its completion file; for each numbered event whether its post
fails; whether the workspace, the checkout and the completion fail; whether the context is
cancelled when the runner asks after an error (it asks at most once in a run); and what a
JSON text decodes to as a list of cases. `EventsURL` and `CompletedURL` are configured. A
verification's status is the text that it prints as, so that an absent status is the text
`<nil>`, which is unknown. The trace of a run also holds refusals that the runner reports
only as an error.

`EventOrder` takes every interleaving of the main thread and the two log readers, down to
the mutex, and every order of delivery. Forwarding programs write into sinks that may fail
at any attempt. In `EdgeRouting` an edge ends at the middle of the outer side of its
handle, which is what the drawing library is taken to do.

## What was found

- The check for a failed case at the top of the loop over planned steps is never true
  (`GuardIsDead`).
- A success does not always mean that no case failed: a step outside a dynamic block whose
  `GLIMMUNG_DYNAMIC_CASE_INDEX` is not a positive number can record a failing case that
  nothing acts on. `ZeroIndexHidesFailure` is an example, `HonestIffReadable` the exact
  condition on the job.
- After such a failing case others can be recorded, and fail as well (`TwoFailures`).
  `OnlyLastFailsIff` is the exact condition on the job: such a step can be reached, and
  after it one that can record a case.
- The item label of a dynamic block is never used, since every case has a caption
  (`LabelIsUnused`).
- The aggregate verdict depends on the order of the cases exactly if there are fails and
  unknown statuses and no errors (`OrderMattersIffMixed`, `FailAndUnknown`).
- Of everything a step can write, the outputs come back exactly if no key is repeated, the
  lines fit the scanner (or the file is a single object), no plain key has an equals sign or
  a line break, no plain value has a line break or ends in white space, and no JSON member
  is named `key` (`OutputsRoundTrip`). `EmitOutput` does not look at its key for equals signs
  and line breaks (`BrokenKeyIsUnreadable`), and `Abort` does not look at its reason for line
  breaks: a reason comes back exactly if it has none and fits (`AbortRoundTrip`), and one
  with a line break can make the file unreadable (`AbortOverLinesIsUnreadable`). `Abort` may
  also write its key a second time after a blank reason, which is unreadable too
  (`UnreadableExamples`).
- `lineWriter` mirrors the agent's loop exactly for streams whose lines end in newlines,
  have no carriage return before them, and fit the scanner (`LineWriterMirrorsAgent`).
- Recycle edges into a phase stay apart exactly if their sources differ and, if the inner
  one comes from the left of the target, both thread through each other (`ApartExactly`).
  Among the first eight they never do, so that the inner source must be at or right of the
  target (`ApartIffNested`).
- Lanes are counted for each target, so that edges into different phases may run over each
  other in one lane (`SameLaneExactly`). In any lanes, edges from sources at or right of
  their targets meet as `DifferentPhasesExactly` says; in the first eight lanes this is a
  condition on columns (`DifferentPhases`). From the fourth on, an edge into a phase can run through the node before it
  (`FourthEdgeRunsThrough`). No recycle edge meets an entry or an advance edge.

## Model

| member | source | states |
|---|---|---|
| RunnerProtocol.RunFollowsProtocol | cmd/glimmung-runner/main.go:294-358 | in every world, everything that happens in a run is allowed by the protocol automaton at that point, and the run ends completed |
| RunnerGuarantees.CompletesOnce | cmd/glimmung-runner/main.go:294-358 | a run that follows the protocol attempts exactly one completion, and nothing happens after it |
| RunnerGuarantees.ConcludesAsCalledFor | cmd/glimmung-runner/main.go:303-357 | the conclusion is the one its entries call for: failure after a refused step; after a fault timed_out under cancellation and else failure; aborted only after an error-free abort request; success only with none of these |
| RunnerGuarantees.NothingBeginsAfterAStop | cmd/glimmung-runner/main.go:337-355 | once there has been a failed post, a failed step, a failing verdict, a refusal or a request to abort, no step, block or command begins |
| RunnerGuarantees.NothingRecordedAfterAFailure | cmd/glimmung-runner/main.go:746-765 | a failing case that the runner acts on is the last case recorded in the run |
| RunnerGuarantees.StartIsEnded | cmd/glimmung-runner/main.go:693-780 | in a complete run every delivered start of a step is followed by its end, a failure, an abort or a completion under its slug, with nothing between them but the step's command, outputs and case |
| RunnerGuarantees.EndIsStarted | cmd/glimmung-runner/main.go:693-780 | every end of a step follows a delivered start under its slug in the same way |
| RunnerGuarantees.BracketsAreUnique | cmd/glimmung-runner/main.go:693-780 | starts and ends are paired one to one, and a step ends before the next one starts |
| RunnerExposure.OnlyLastFailsIff | cmd/glimmung-runner/main.go:1699-1763 | in every world at most one recorded case fails and it is the last, if and only if the job starts with a block or has no static step with an unreadable case index that can be reached and followed by a step that records |
| RunnerExposure.ReadableFailsLast | cmd/glimmung-runner/main.go:746-765 | in a job whose static steps have readable case indices or none, at most one recorded case fails in any world, and it is the last |
| RunnerExposure.TwoFailures | cmd/glimmung-runner/main.go:1738-1744 | two steps with case index 0 can both record failing cases in one run |
| RunnerExposure.FailureIsFollowed | cmd/glimmung-runner/main.go:517-549 | for every exposed job there are outputs, keys of other groups included, with which the failing case is followed by another |
| RunnerFailures.FailingIsExposed | cmd/glimmung-runner/main.go:308-357 | a run with a failing case before the last one has an exposed job |
| RunnerFailures.BlockNeeds | cmd/glimmung-runner/main.go:385-459 | a block records or is passed with cases only if its first step can be executed and its group is not known to have none |
| RunnerPlan.StartsFollowPlan | cmd/glimmung-runner/main.go:308-357 | the started steps are a prefix of the job's steps with each block replaced by its expansion, each posted expansion is that of the cases published by then, and a success has started all of it |
| RunnerPlan.StepStarts | cmd/glimmung-runner/main.go:693-700 | a step starts itself and nothing else; a step without a slug starts nothing and fails |
| RunnerLedger.RunReportsTrace | cmd/glimmung-runner/main.go:1499-1552 | event numbers ascend, no output is posted again after it has been set, the completion carries exactly the outputs that delivered events have set, and the aggregate over exactly the cases recorded |
| RunnerLedger.StopsNameTheFailure | cmd/glimmung-runner/main.go:441-456 | a group is stopped only right after a step has failed for its verdict, under the index of the case, which is the last one recorded and a failing one |
| RunnerReport.RunIsExplained | cmd/glimmung-runner/main.go:693-780 | every entry of every run follows from those before it: an event takes the number after all events and log lines so far; an output is the next one, by key, of the last command's output file; a step ends with its command's exit code if that has failed, as a failure if its outputs, files or verdict are wrong, and else as completed or aborted; a case says what the command's completion file says; an empty expansion alone is skipped; a stop names the group expanded last; the completion carries the outputs set, the aggregate over the cases, and their evidence after that written last without a case |
| RunnerReport.EndsTellExitCodes | cmd/glimmung-runner/main.go:723-780 | the end of a step whose command has failed carries that command's exit code, any other failure 1, and a completion the exit code of a command that has not failed |
| RunnerReport.ReportWithoutCases | cmd/glimmung-runner/main.go:1503-1534 | a run without cases reports the verification of the last command that has written one, and nothing if none has, and the evidence of the last that has written some |
| RunnerReport.StepRecordsCase | cmd/glimmung-runner/main.go:1699-1711 | a step records exactly the verification and the evidence of its completion file, under its own index and label, if it has a case index and the file a verification |
| RunnerReport.PlannedRunInTurn | cmd/glimmung-runner/main.go:423-460 | the planned steps run in turn up to the first that fails or asks to abort; the group is stopped exactly if that one has failed for its verdict, under its case's index |
| RunnerCases.GuardIsDead | cmd/glimmung-runner/main.go:423-437 | in every world a run is the same with and without the check for a failed case before a step of the next case |
| RunnerCases.StepRecords | cmd/glimmung-runner/main.go:1699-1711 | a step records at most one case, under its own index; if it fails and the index is one the runner acts on, the step fails |
| RunnerCases.PlannedUnguarded | cmd/glimmung-runner/main.go:423-459 | for planned steps with ascending indices the check never succeeds, and after a success all failing cases have indices that are not positive or the greatest integer |
| RunnerCases.PlanAscends | cmd/glimmung-runner/main.go:463-496 | the steps planned for a block carry the indices of their cases, readable and never falling |
| RunnerExposure.HonestIffReadable | cmd/glimmung-runner/main.go:1699-1744 | success means in every world that no recorded case failed, if and only if the job cannot succeed at all or each of its static steps has a readable case index or none |
| RunnerExposure.ZeroIndexHidesFailure | cmd/glimmung-runner/main.go:1738-1744 | a job of one step with case index 0 can record a failing case and succeed |
| RunnerSuccess.OnlyRunnableSucceeds | cmd/glimmung-runner/main.go:308-336 | a run can succeed only if every static step has a supported type and a slug, every block a positive maximum, and the job does not start with a block |
| RunnerSuccess.VerdictOfSuccess | cmd/glimmung-runner/main.go:1508-1510 | the verdict posted with a success none of whose cases failed is a pass, or an error if a case has an unknown status |
| RunnerExpansion.DynamicStepBlock | cmd/glimmung-runner/main.go:360-377 | the block starting at a position is the longest run of dynamic steps of its group: all of its steps are of it, and the step after it, if there is one, is not |
| RunnerExpansion.ConcreteDynamicSteps | cmd/glimmung-runner/main.go:463-496 | the two loops build the expansion, which `PlannedStepIs` tells |
| RunnerExpansion.ExpandedAt | cmd/glimmung-runner/main.go:468-494 | case c's instance of template t stands at position c times the block's length plus t, and there are no other planned steps |
| RunnerExpansion.InstanceKeepsEnv | cmd/glimmung-runner/main.go:477-487 | an instance keeps every variable of its template that is not about its case |
| RunnerExpansion.InstanceTellsCase | cmd/glimmung-runner/main.go:477-487 | an instance can read its case's index and the number of cases back from its environment |
| RunnerExpansion.NumberItems | cmd/glimmung-runner/main.go:617-628 | the loop builds the cases of the decoded items, which `CasesAre` tells |
| RunnerExpansion.CountCases | cmd/glimmung-runner/main.go:544-547 | the loop builds as many cases as counted |
| RunnerInstances.CasesAre | cmd/glimmung-runner/main.go:517-629 | the cases of a group are those of the first of its JSON outputs that is not blank, one per item with the item's own JSON and trimmed caption, or else as many as the first such count says, numbered captions filling in; none if there are more than the maximum |
| RunnerInstances.NormalizedIsName | cmd/glimmung-runner/main.go:579-594 | the normalized name of a group is its lower-case words of letters and digits, joined by single underscores |
| RunnerInstances.PlannedStepIs | cmd/glimmung-runner/main.go:463-496 | the step at position c times the block's length plus t is named after template t and the number of case c in two digits or more, and carries the group, the caption, the JSON, the index and the count of case c, the template's slug, the maximum, and the template's other variables |
| RunnerInstances.PlannedStepHasItem | cmd/glimmung-runner/main.go:617-629 | the planned steps of case c carry the JSON of item c of the list, or an empty object if the cases are only counted |
| RunnerInstances.SlugsDiffer | cmd/glimmung-runner/main.go:474 | planned steps have one slug only if they stand for one case and for templates of one slug |
| RunnerInstances.LabelIsUnused | cmd/glimmung-runner/main.go:467-471 | the item label makes no difference to the planned steps |
| Runner.Runner.Run | cmd/glimmung-runner/main.go:294-358 | the run with all its branches leaves exactly the state that the model gives, and returns an error unless it has delivered a success or an abort |
| Runner.Runner.RunDynamicStepBlock | cmd/glimmung-runner/main.go:385-422 | a block is checked, expanded, announced and run, or skipped, as in the model |
| Runner.Runner.RunPlannedSteps | cmd/glimmung-runner/main.go:423-460 | the loop over planned steps, with the check before each step and the stop after a failing verdict |
| Runner.Runner.DoStep | cmd/glimmung-runner/main.go:693-720 | a step is started, executed and finished as in the model |
| Runner.Runner.ExecuteStep | cmd/glimmung-runner/main.go:706-722 | the outputs and the completion file of a command are taken in even if it failed; the first error counts |
| Runner.Runner.FinishStep | cmd/glimmung-runner/main.go:723-780 | a failed command, bad outputs, a failing verdict, an abort and a completion are reported in this precedence |
| Runner.Runner.PublishOutputs | cmd/glimmung-runner/main.go:1350-1371 | outputs are posted in the order of their keys, each set after its post, up to the first that is set already or cannot be posted |
| Runner.Runner.CollectCompletionMetadata | cmd/glimmung-runner/main.go:1683-1731 | a verdict of a step with a case index is recorded for the case; otherwise verification and evidence replace what was there |
| Runner.Runner.DynamicCaseFailureForStep | cmd/glimmung-runner/main.go:1738-1744 | a step's verdict is that of the latest completion under its index, if the index is a positive number |
| Runner.Runner.DynamicCasesForGroup | cmd/glimmung-runner/main.go:517-549 | the cases of a block come from the first JSON output that is not blank, or else the first such count |
| Runner.Runner.FirstOutput | cmd/glimmung-runner/main.go:519-523 | the first of the keys whose output is set and not blank, trimmed |
| Runner.Runner.PostEvent | cmd/glimmung-runner/main.go:1471-1476 | an event takes the next number, whether or not its post succeeds |
| Runner.Runner.PostCompletion | cmd/glimmung-runner/main.go:1499-1552 | recorded cases replace the step verification and join the evidence |
| Runner.Runner.PostShutdown | cmd/glimmung-runner/main.go:671-681 | a shutdown posts runner_failed and then the timed_out completion, whatever the post gave |
| CaseVerdict.AggregateVerification | cmd/glimmung-runner/main.go:1824-1881 | the loop computes the fold over the cases |
| CaseVerdict.StatusIsVerdict | cmd/glimmung-runner/main.go:1832-1845 | the folded status is: error if some case is an error, and else what the first abnormal case says, an unknown status counting as an error |
| CaseVerdict.PassAndError | cmd/glimmung-runner/main.go:1832-1845 | the aggregate passes if and only if every status is blank or pass, and is an error whenever some case is |
| CaseVerdict.OrderMattersIffMixed | cmd/glimmung-runner/main.go:1832-1845 | every order of the cases gives the same status if and only if there is an error, or no fail, or no unknown status |
| CaseVerdict.FailAndUnknown | cmd/glimmung-runner/main.go:1832-1845 | a fail before an unknown status gives a fail, and after it an error |
| CaseVerdict.FirstFailureWins | cmd/glimmung-runner/main.go:1855-1859 | the aggregate carries the failure block of the first abnormal case that has one, and none if none has |
| CaseReport.ReasonsAre | cmd/glimmung-runner/main.go:1840-1852 | the reasons of the aggregate are, case by case, that its status is unknown, if it is, and its reasons that are not blank, trimmed |
| CaseVerdict.AppendEvidence | cmd/glimmung-runner/main.go:1990-2007 | the loop with its set of seen keys computes the merge |
| CaseVerdict.AppendsFirstOccurrences | cmd/glimmung-runner/main.go:1990-2007 | merging appends, in order, exactly the artifacts with a key that is new at their position |
| CaseVerdict.AppendInParts | cmd/glimmung-runner/main.go:1990-2007 | merging two lists one after the other is merging their concatenation |
| CaseVerdict.AppendKeepsUnique | cmd/glimmung-runner/main.go:1990-2015 | merging keeps keys unique, and the keys are those of both lists |
| CaseReport.KeysIdentify | cmd/glimmung-runner/main.go:2009-2015 | two artifacts have one key exactly if they are of one kind and have one reference, or else path, or else address; those with none of these have no key |
| CaseVerdict.SameKeysEitherWay | cmd/glimmung-runner/main.go:1860-1890 | the two aggregators, which visit a case's lists in opposite orders, keep the same keys |
| CaseVerdict.AggregateEvidence | cmd/glimmung-runner/main.go:1883-1890 | the evidence of a completion is merged from what was there and from each case |
| CaseReport.EvidenceIsFirst | cmd/glimmung-runner/main.go:1860-1890 | both aggregators keep the first artifact of each key: the verdict with each case's verification first, the completion after what was there and with each case's own artifacts first |
| CaseVerdict.DynamicCaseFailure | cmd/glimmung-runner/main.go:1746-1763 | the backward search finds whether the latest completion under an index failed |
| CaseReport.CaseFailedIs | cmd/glimmung-runner/main.go:1746-1763 | a case has failed exactly if its index is positive and the last completion under it is a fail or an error |
| EventNumbers.NextInv | cmd/glimmung-runner/main.go:1463-1476 | every step of any thread, the mutex and the network keeps the invariants of numbering, framing and logging |
| EventNumbers.NumbersAreUnique | cmd/glimmung-runner/main.go:1463-1469 | under every interleaving no two events carry the same number |
| EventNumbers.LogsLieWithinTheirStep | cmd/glimmung-runner/main.go:698-776 | numbers follow the steps; a step's start has the smallest and its terminal event the greatest number of the step, the main thread's other events included; events between steps come before the next start |
| EventNumbers.NumbersFollowReadOrder | cmd/glimmung-runner/main.go:1321-1339 | of two delivered lines of one stream, the one read first has the smaller number |
| EventNumbers.SortingReplaysTheLog | cmd/glimmung-runner/main.go:1265-1339 | when all posts have arrived, sorting by number gives each stream's lines as they were read, whatever the order of arrival |
| LogStream.StreamLogs | cmd/glimmung-runner/main.go:1265-1304 | the loop forwards and reports what the segments of the log call for |
| LogStream.ForwardsOrdinaryLines | cmd/glimmung-runner/main.go:1272-1296 | the forwarded lines are those outside every payload, each once and in order |
| LogStream.CountIsPayload | cmd/glimmung-runner/main.go:1275-1290 | an end marker reports the number of lines since the latest start marker, none of which is forwarded |
| LogStream.NextItems | cmd/glimmung-runner/main.go:1272-1296 | what each line adds, inside and outside a payload; a nested start begins the count again |
| LogStream.SanitizedIs | cmd/glimmung-runner/main.go:1341-1348 | a line is forwarded as it is, an empty one as a blank, and of a longer one as much as is allowed and the number of characters missing |
| LineForwarding.LineWriter.Write | harness/remotehost/remotehost.go:487-500 | the loop drains whole lines; a failed write keeps its line |
| LineForwarding.LineWriter.Flush | harness/remotehost/remotehost.go:504-511 | a rest without a newline is written once, and the buffer is empty afterwards |
| LineForwarding.ForwardStream | harness/remotehost/remotehost.go:348-353 | what a stream copied up to the first error and flushed writes is always its beginning; into a sink that does not fail, it is the whole stream cut after its newlines |
| LineForwarding.FeedConserves | harness/remotehost/remotehost.go:487-500 | over any writes into any sink, failures included, what was written and what is buffered is the input, and only whole lines are written |
| LineForwarding.WritesAreTheCut | harness/remotehost/remotehost.go:480-511 | into a sink that does not fail, the writes are the stream cut after each newline |
| LineForwarding.ChunkingDoesNotMatter | harness/remotehost/remotehost.go:480-511 | two chunkings of one stream give the same writes |
| LineForwarding.CutIsUnique | harness/remotehost/remotehost.go:480-511 | a stream can be cut after its newlines in one way only |
| LineForwarding.ForwardStdout | harness/agent/agent.go:119-145 | the scanner loop writes a line per line, ignoring failures, and observes costs and the last line |
| LineForwarding.ForwardsEveryLine | harness/agent/agent.go:119-145 | into a sink that does not fail, the writes are the scanned lines, each with a newline |
| LineForwarding.OutcomeOfLines | harness/agent/agent.go:125-143 | the cost is the sum of the priced lines, and the last line the last that is not blank |
| LineForwarding.ScansTheCut | harness/agent/agent.go:119-145 | the scanned lines are the pieces of the cut stream without their newline and one carriage return, up to the first that does not fit |
| LineForwarding.ForwardersAgree | harness/agent/agent.go:119-145 | the scanned lines are the cut stream if and only if every piece ends in a newline, has no carriage return before it, and fits |
| LineForwarding.LineWriterMirrorsAgent | harness/remotehost/remotehost.go:474-511 | for any chunking, both forwarders write the same if and only if the scanner keeps every piece of the stream |
| Json.StringRoundTrip | harness/step/context.go:162-166 | a string escaped as in section 7 of RFC 8259 is read back |
| Json.Object1RoundTrip | harness/step/context.go:191-195 | an object of one string member is read back |
| Json.Object2RoundTrip | harness/step/context.go:162-166 | an object of two string members is read back |
| Json.NoObjectInFront | cmd/glimmung-runner/main.go:2091-2095 | a text with something other than white space after an object is no object |
| JsonText.ObjectIsRead | cmd/glimmung-runner/main.go:2091-2095 | every text that RFC 8259 allows for an object of strings, with any white space and any spelling of the characters, is read with the members that it spells |
| JsonText.ObjectIsSpelled | cmd/glimmung-runner/main.go:2091-2095 | nothing else is read, except that half of a surrogate pair counts as the replacement character |
| JsonText.ObjectHasLast | cmd/glimmung-runner/main.go:2091-2095 | of several members of one name the last counts |
| OutputFile.MergeOutputJSON | cmd/glimmung-runner/main.go:2091-2107 | the pairs of an object are set one after the other, up to the first that cannot be set |
| OutputFile.SetOutput | cmd/glimmung-runner/main.go:2109-2118 | a blank or repeated key is refused |
| OutputFile.ParseOutputFile | cmd/glimmung-runner/main.go:2047-2089 | the file is read as one object or else line by line, and one bad line makes it unreadable |
| OutputReading.FileReads | cmd/glimmung-runner/main.go:2047-2118 | a file sets exactly these outputs: none if it is blank; if it is one object, the one named by its member key, or else those named by its members; and otherwise what its lines set one after the other, all short enough, with trimmed names that are neither blank nor set before |
| OutputReading.LineReads | cmd/glimmung-runner/main.go:2064-2088 | a line sets nothing if it is blank, what its object sets if it starts with a brace, and else the output named before the first equals sign to what comes after it, up to white space at the end; any other line is an error |
| OutputFile.RejectedObject | cmd/glimmung-runner/main.go:2060-2088 | when a file that is one object is refused, with any of its pairs set already, reading it line by line fails as well |
| OutputFile.Context.EmitOutput | harness/step/context.go:147-169 | a new output is noted and written in the line form or as an object; blank and repeated keys are refused |
| OutputFile.Context.EmitJSONOutput | harness/step/context.go:174-196 | a new output is noted and written as a single member |
| OutputFile.Context.Abort | harness/step/context.go:204-220 | the reason is noted and written once; a blank one does not count |
| OutputFile.Context.AppendOutputFile | harness/step/context.go:231-241 | a line is appended, or the append fails |
| OutputFile.StaysConsistent | harness/step/context.go:147-220 | what a context believes it has emitted is what its records say, and only a blank abort reason is ever followed by its own key |
| OutputLosses.OutputsRoundTrip | cmd/glimmung-runner/main.go:2047-2118 | for all records a step can write, the emitted outputs come back if and only if every plain key and value can stand on a line, no member is named key, no key is repeated, the lines fit or there is a single object, and no plain value ends in white space |
| OutputLosses.ContextRoundTrip | harness/step/context.go:147-241 | the same for the outputs and the file of every context none of whose appends has failed |
| OutputLosses.PlainRoundTrip | cmd/glimmung-runner/main.go:2066-2083 | a single plain output comes back if and only if its key has no equals sign, neither key nor value has a line break, the value does not end in white space, and the line fits |
| OutputLosses.EmitRoundTrip | harness/step/context.go:147-169 | a single emitted output comes back if and only if its value has a line break, its key starts with a brace, or both can stand on a line |
| OutputLosses.AbortRoundTrip | harness/step/context.go:204-220 | a single abort reason comes back if and only if it has no line break and fits on a line |
| OutputLosses.BrokenKeyIsUnreadable | harness/step/context.go:147-169 | a key with a line break after text without an equals sign makes the file unreadable |
| OutputLosses.AbortOverLinesIsUnreadable | harness/step/context.go:215-217 | an abort reason with a line break before an ordinary line makes the file unreadable |
| OutputLosses.UnreadableExamples | harness/step/context.go:204-220 | a key over two lines, an abort reason over two lines, and an abort reason after a blank one, whose files cannot be read |
| OutputLosses.RecordsSet | cmd/glimmung-runner/main.go:2064-2088 | any written file that can be read sets at least one output per record, and if no more, then each record one that is known from the record |
| OutputLosses.ReadInParts | cmd/glimmung-runner/main.go:2064-2088 | lines put together are read one part after the other |
| OutputRoundTrip.MemberNamedKey | cmd/glimmung-runner/main.go:2096-2099 | a file of a single member named key sets the output named by the member's value to an empty text, if that name is not blank, and is unreadable otherwise; the output key never gets the member's value |
| ShellQuoting.ShellJoin | cmd/glimmung-runner/main.go:1222-1232 | the joined line of any arguments tokenises to exactly those arguments |
| ShellQuoting.BodyRoundTrip | cmd/glimmung-runner/main.go:1230-1232 | inside the opening quote a quoted value reads as the value itself |
| ShellQuoting.ShellJoinRoundTrip | cmd/glimmung-runner/main.go:1222-1232 | tokenising under sections 2.2 and 2.3 of the POSIX.1-2017 Shell Command Language inverts the joining |
| JsonChunks.BalancedJsonChunks | frontend/src/IssueDetailView.tsx:5539-5586 | the loop computes the scan, after which start is -1 if and only if the stack is empty |
| JsonChunks.ChunksAreComplete | frontend/src/IssueDetailView.tsx:5539-5586 | documents rendered from any bracket and string tree, among text without opening brackets, come back exactly |
| JsonChunks.ChunksAreSound | frontend/src/IssueDetailView.tsx:5539-5586 | for every input the chunks are disjoint, ordered parts of it, each balanced outside its strings |
| SystemGraph.ComputeRow | frontend/src/GraphView.tsx:63-83 | the loop with its queue computes the search, which ends |
| SystemGraph.ComputeRows | frontend/src/GraphView.tsx:63-83 | one row per issue, in order |
| SystemGraph.IssuesAre | frontend/src/GraphView.tsx:65 | the rows are those of the nodes of kind issue, in order |
| SystemGraph.RowIsCorrect | frontend/src/GraphView.tsx:66-82 | a row lists, without duplicates and by shortest distance, exactly the existing nodes reachable from the issue through existing nodes |
| RowOrder.RowStandsInOrder | frontend/src/GraphView.tsx:66-82 | a row stands in the order in which the edges of the issue and of the nodes before lead to its nodes, each found by the first edge to it |
| ProjectGraph.FilterGraph | frontend/src/mockApi.ts:1271-1294 | the loop computes the least set closed under edges that has the project's issues; the graph returned has exactly the nodes to which edges lead from an issue of the project, and the edges between such nodes, in their order and as often as the graph has them |
| ProjectGraph.FilteringKeepsRows | frontend/src/mockApi.ts:1271-1294 | the rows of the project's issues are the same sequences in the filtered graph |
| ProjectGraph.KeptIsLed | frontend/src/mockApi.ts:1271-1294 | an id is kept if and only if edges lead to it from an issue of the project |
| CycleLineage.ComputeCycleLineage | frontend/src/IssueDetailView.tsx:5979-6005 | the guarded loop ends on every graph; it returns depth, kicker and origin of the walk from node to node along the parents of their last run nodes |
| CycleLineage.LineageOnAcyclic | frontend/src/IssueDetailView.tsx:5979-6005 | on a closed acyclic graph the depth is the number of ancestors, the kicker the direct parent and the origin the one root among the ancestors |
| CycleLineage.LineageOfNodes | frontend/src/IssueDetailView.tsx:5979-6005 | the same told from the nodes: ancestors are reached by chains of run nodes and their parents |
| CycleLineage.ParentsAre | frontend/src/IssueDetailView.tsx:5980-5983 | the map has exactly the ids of run nodes, each with the parent of the last node of that id |
| CycleLineage.WalkIsUnique | frontend/src/IssueDetailView.tsx:5979-6005 | the walk is determined by the graph |
| CycleLineage.DepthIsBounded | frontend/src/IssueDetailView.tsx:5979-6005 | the depth is at most the number of runs |
| CycleLineage.DepthCountsAncestors | frontend/src/IssueDetailView.tsx:5979-6005 | where the walk ends at a root, the depth is the number of ancestors |
| CycleLineage.WalkReachesRoot | frontend/src/IssueDetailView.tsx:5979-6005 | on a closed acyclic graph it does |
| EdgeRouting.PhaseXPositions | frontend/src/PhaseGraph.tsx:316-324 | the first column stands at the gutter, and each other a gap after the end of the one before |
| EdgeRouting.ColumnsApart | frontend/src/PhaseGraph.tsx:316-324 | columns do not overlap |
| EdgeRouting.RecycleRoutes | frontend/src/PhaseGraph.tsx:708-735 | lanes follow the sources' columns and slots run the other way |
| EdgeRouting.RoutesAreRouted | frontend/src/PhaseGraph.tsx:708-737 | every visible arrow into the target is routed once, by source column |
| EdgeRouting.IntoAre | frontend/src/PhaseGraph.tsx:708-713 | the arrows routed to a phase are exactly those between existing phases that lead to it, each as often as it is given |
| EdgeRouting.SortIsStable | frontend/src/PhaseGraph.tsx:716-718 | arrows from one column keep their order |
| EdgeRouting.SlotsAreTheHandles | frontend/src/PhaseGraph.tsx:365-372 | the edges' slots are exactly the target's handles, one each |
| EdgeRouting.HandlesAreOrdered | frontend/src/PhaseGraph.tsx:301-310 | recycle handles lie below the advance handle, in order, and at most at 86 percent |
| EdgeRouting.HandlesAreSpaced | frontend/src/PhaseGraph.tsx:305-310 | a single handle stands at 60 percent; several start at 54, are 16 percent apart up to three, and end at 86 from three on |
| EdgeNesting.RecycleEdgesNest | frontend/src/PhaseGraph.tsx:490-516 | two edges into a phase from different columns at or right of it do not meet |
| EdgeNesting.ApartIffSourcesDiffer | frontend/src/PhaseGraph.tsx:490-516 | among sources at or right of the target, two edges stay apart if and only if their sources differ |
| EdgeNesting.ApartExactly | frontend/src/PhaseGraph.tsx:490-516 | for any number of lanes two edges stay apart if and only if their sources differ and, if the inner one comes from the left, both sources lie right of the other's approach and, left of the target, below the other's handle |
| EdgeNesting.ApartIffNested | frontend/src/PhaseGraph.tsx:490-516 | among the first eight edges, two stay apart if and only if the inner one's source is at or right of the target and left of the other's |
| EdgeNesting.LanesFitBelow | frontend/src/PhaseGraph.tsx:786-796 | every lane stays 42 pixels inside the graph |
| EdgeNesting.RouteStands | frontend/src/PhaseGraph.tsx:490-516 | a route leaves the middle of its source's lower side; lanes start 24 pixels below the highest node and are 24 apart, approaches start 30 left of the target and are 16 apart |
| EdgeNesting.DeepestLane | frontend/src/PhaseGraph.tsx:786-796 | the last lane of the phase with the most edges ends exactly 42 pixels above the lower edge of the graph |
| EdgeNesting.GutterFits | frontend/src/PhaseGraph.tsx:585-608 | with entry edges the gutter has their 156 pixels; without, the outermost approach to the first column is exactly 42 pixels from the edge |
| EdgeNesting.FirstColumnApproachesFit | frontend/src/PhaseGraph.tsx:585-608 | approaches to the first column are at least 42 pixels right of the edge |
| EdgeNesting.EntryBendsOutside | frontend/src/PhaseGraph.tsx:470-488 | the entry edge bends left of every approach if and only if the outermost one is right of its source |
| EdgeNesting.EntryBendStands | frontend/src/PhaseGraph.tsx:470-476 | the entry edge bends 16 pixels left of the outermost approach, but not left of its source |
| EdgeNesting.FirstColumnEntryFits | frontend/src/PhaseGraph.tsx:470-488 | in the first column it always does, right of the graph's edge |
| EdgeCrossings.EntryBends | frontend/src/PhaseGraph.tsx:470-475 | the entry edge bends up by at least 20 pixels where its phase has recycle edges, and is level where it has none |
| EdgeCrossings.EntryMeetsNoRecycle | frontend/src/PhaseGraph.tsx:470-516 | an entry edge shares no point with a recycle edge, whatever phases they lead to |
| EdgeCrossings.AdvanceMeetsNoRecycle | frontend/src/PhaseGraph.tsx:529-542 | nor does the curve of an advance edge |
| EdgeCrossings.SameLaneExactly | frontend/src/PhaseGraph.tsx:708-735 | two recycle edges of one lane into different phases meet if and only if their stretches along it overlap or the last stretch of the left one reaches the other |
| EdgeCrossings.DifferentPhasesExactly | frontend/src/PhaseGraph.tsx:490-516 | in any lanes, two edges into different phases from sources at or right of them meet if and only if the one rises through the other's lane, or through the stretch to its handle, or encloses what crosses it |
| EdgeCrossings.DifferentPhases | frontend/src/PhaseGraph.tsx:708-735 | in any of the first eight lanes this is so if and only if the edge into the earlier phase starts at or right of the later phase, and does not run around the other edge from further right on a lower lane |
| EdgeCrossings.RunsThroughExactly | frontend/src/PhaseGraph.tsx:490-516 | a recycle edge runs through a node if and only if the node is left of its target, reaches right of its approach and down below its handle |
| EdgeCrossings.FourthEdgeRunsThrough | frontend/src/PhaseGraph.tsx:490-516 | the first three edges into a phase run through no node, and the others through the node before the phase if that is at least as high as the phase's own |
| TokenSearch.TokenPresent | harness/evidence/evidence.go:56-78 | a token is found if and only if some occurrence, overlapping ones included, has a boundary on both sides, ignoring case |
| TokenSearch.ExpectedTextMatch | harness/evidence/evidence.go:31-37 | a blank expectation always matches; any other as a token of letters and digits |
| TokenSearch.GameStateJSONContainsID | harness/evidence/evidence.go:44-49 | blank texts never match; an id also ends at an underscore |
| TokenSearch.IdMatchIsTextMatch | harness/evidence/evidence.go:31-86 | an id match is a text match without an underscore next to it |
| TokenSearch.CaseDoesNotMatter | harness/evidence/evidence.go:56-78 | case plays no part, in the text or in the token |
| TokenSearch.LettersAlike | harness/evidence/evidence.go:56-78 | only the two cases of one letter are alike |
| Numbers.AtoiOfDecimal | cmd/glimmung-runner/main.go:479-480 | a written index is read back as the same number |
| Numbers.AtoiRange | cmd/glimmung-runner/main.go:1700 | the value of an index that cannot be read is 0 or an end of the integer range |
| Numbers.AtoiOfItoa | cmd/glimmung-runner/main.go:1700 | every written integer is read back, and one out of range is an error with the end of the range as its value |
| Numbers.AtoiReads | cmd/glimmung-runner/main.go:1700 | a text is an integer if and only if it is an optional sign before digits whose value is in range |
| Numbers.SpellsDecimal2 | cmd/glimmung-runner/main.go:474 | a number has exactly one form in two digits or more without needless zeros |

## Left out

- Subprocesses, HTTP, git checkouts, SSH and files are results of the surroundings; the agent steps' prompt, token and credentials are not modelled.
- JSON decoding of case lists is an arbitrary function; the captions found in an item are part of its result.
- JSON values other than strings in the output file, and their printing by `stringifyOutputValue`; objects in it are flat.
- Go's map order when a JSON object has several members: members are set in the order of the text, which gives the same outputs or the same refusal.
- Unicode: white space is ASCII, case folding is ASCII, and strings are sequences of characters, not of bytes.
- Markdown sections, reasons' labels, evidence references and step error blocks of completions: text joined or passed through.
- Failure reasons and messages of events: which event is posted, for which step and with which exit code is modelled, its message is not.
- Prices, usage profiles and the packages that compute them; `ForwardStdout` takes the price of a line as given.
- Rounded corners of entry and recycle edges.
- `ParseTRX`, `ObservedUnitTestResult` and `parseAgentLogPayloads`: single loops over decoded elements.
- The verify-loop engine, leases, locks and the supervisor.
- EdgeNesting.ApartIffNested: speaks of the first eight lanes, where the condition is on columns only; ApartExactly has no such bound.
- EdgeCrossings.DifferentPhases: speaks of the first eight lanes, where the condition is on columns only; DifferentPhasesExactly has no such bound.
- EdgeCrossings.DifferentPhasesExactly: speaks of sources at or right of the targets; for other sources SameLaneExactly covers one lane.
- RunnerGuarantees.NothingRecordedAfterAFailure: speaks of failing cases that the runner acts on; OnlyLastFailsIff says what holds of the others.
- RunnerLedger.StopsNameTheFailure: says that the case is the last one recorded for indices below the greatest integer, which a block would need as many cases to reach.
- CaseVerdict.AggregateVerification: leaves out the aggregate's evidence references, its list of summaries of the cases, and the labels in front of its reasons, which are looked up from the case.
- JsonText.ObjectIsRead: leaves out texts with half of a surrogate pair, which stands for no character; ObjectIsSpelled says how they are read.
- OutputFile.MergeOutputJSON: takes an object with values other than strings for no object, where the runner prints them as text.
- OutputFile.ParseOutputFile: rejects files with such objects, for the same reason.
- RunnerModel.Begin: enters `Ran` when a step's execution begins; the execution of an agent step may fail before its command, when its runtime cannot be resolved or announced, and the number of that announcement counts among those its log readers take.
- EventNumbers.NextInv: takes the log readers' lines as given; which lines they are is what `LogStream` says.
