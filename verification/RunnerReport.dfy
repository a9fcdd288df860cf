/** Every entry of a run is explained by those before it; what that says about exit codes and
    about the report of a run. */
module RunnerReport {
  import opened Text
  import opened Selections
  import opened CaseVerdict
  import opened CaseReport
  import opened RunnerModel
  import opened RunnerCases
  import opened RunnerLedger
  import opened RunnerAccount
  import OutputFile

  // ----- Steps

  lemma ExecuteBooks(w: World, slug: string, step: StepSpec, s: State)
    requires Books(w, s) && Told(w, s) && Settled(s.cases) && !Running(s.trace)
    ensures Ready(w, s, step, Execute(w, slug, step, s))
  {
    hide Books, Told, Running, Settled, Published, PublishAll, Collect, Begin, TakenIn, Clean, FailedSince, CaseFailed, JudgedFailure, Runs, LastGroup;
    if Executable(step.kind) {
      var x := w.executions(s.executed);
      var p := PublishAll(w, slug, x.outputs, Begin(w, slug, s));
      PublishAllBooks(w, slug, s);
      CollectBooks(w, step, s, p);
    }
  }

  /** The end that Finish posts is explained. */
  lemma FinishExplained(w: World, slug: string, step: StepSpec, s: State, b: Ended)
    requires Ready(w, s, step, b)
    ensures b.failed ==> EventExplained(w, b.state.trace, StepFailed(slug, b.exitCode))
    ensures !b.failed && (b.outputFailed || JudgedFailure(step, b.state.cases)) ==> EventExplained(w, b.state.trace, StepFailed(slug, 1))
    ensures !b.failed && !b.outputFailed && !JudgedFailure(step, b.state.cases) ==>
              EventExplained(w, b.state.trace, if AbortRequested(b.state.outputs) then StepAborted(slug) else StepCompleted(slug, b.exitCode))
  {
    hide Running, TakenIn, Clean, FailedSince, CaseFailed, JudgedFailure, Runs, LastGroup, AbortRequested, AllExplained;
    OutputsKept(b.state);
  }

  lemma FinishBooks(w: World, slug: string, step: StepSpec, s: State, b: Ended)
    requires Ready(w, s, step, b)
    ensures var p := Finish(w, slug, step, b);
            Books(w, p.state) && Told(w, p.state) && LastGroup(p.state.trace) == LastGroup(s.trace)
  {
    hide Books, Told, LastGroup, EventExplained, Running, TakenIn, Clean, FailedSince, CaseFailed, JudgedFailure, Runs, AbortRequested, Post;
    FinishExplained(w, slug, step, s, b);
    if b.failed {
      PostBooks(w, b.state, StepFailed(slug, b.exitCode));
    } else if b.outputFailed || JudgedFailure(step, b.state.cases) {
      PostBooks(w, b.state, StepFailed(slug, 1));
    } else if AbortRequested(b.state.outputs) {
      PostBooks(w, b.state, StepAborted(slug));
    } else {
      PostBooks(w, b.state, StepCompleted(slug, b.exitCode));
    }
  }

  lemma StartBooks(w: World, slug: string, s: State)
    requires Books(w, s) && slug != "" && Trimmed(slug)
    ensures var t := Post(w, s, StepStarted(slug)).state;
            Books(w, t) && SameBut(w, s, t) && (Told(w, s) ==> Told(w, t)) && LastGroup(t.trace) == LastGroup(s.trace) && !Running(t.trace)
  {
    hide Books, Told, LastGroup, Running, SameBut;
    PostBooks(w, s, StepStarted(slug));
    Snoc(w, s.trace, Posted(s.seqNo + 1, !w.postFails(s.seqNo + 1), StepStarted(slug)));
  }

  lemma StepBooks(w: World, step: StepSpec, s: State)
    requires Books(w, s) && Told(w, s) && Settled(s.cases)
    ensures var t := RunStep(w, step, s).state;
            Books(w, t) && Told(w, t) && LastGroup(t.trace) == LastGroup(s.trace)
  {
    hide Books, Told, LastGroup, Running, Execute, Finish, Ready, Settled;
    var slug := Slug(step);
    OutputFile.TrimIsTrimmed(step.slug);
    if slug == "" {
      assert Explained(w, s.trace, Rejected(BlankSlug));
      LogBooks(w, s, Rejected(BlankSlug));
      Snoc(w, s.trace, Rejected(BlankSlug));
    } else {
      var p := Post(w, s, StepStarted(slug));
      StartBooks(w, slug, s);
      if p.err == NoError {
        ExecuteBooks(w, slug, step, p.state);
        FinishBooks(w, slug, step, p.state, Execute(w, slug, step, p.state));
      }
    }
  }

  /** Whether a step gets to run its command. */
  predicate RunsCommand(w: World, step: StepSpec, s: State) {
    Slug(step) != "" && !w.postFails(s.seqNo + 1) && Executable(step.kind)
  }

  /** The case that a step records: under its own index and label, what its completion file
      says; it records none without a case index, or if the file has no verification. */
  lemma StepRecordsCase(w: World, step: StepSpec, s: State)
    ensures var file := w.executions(s.executed).completion;
            RunStep(w, step, s).state.cases == s.cases +
              if RunsCommand(w, step, s) && HasVerification(file) && IndexText(step) != ""
              then [CaseCompletion(IndexOf(step), Trim(Get(step.env, CaseLabel)), file.verification.value, file.evidence)]
              else []
  {
    var p := Post(w, s, StepStarted(Slug(step)));
    if RunsCommand(w, step, s) {
      var x, t := w.executions(s.executed), Begin(w, Slug(step), p.state);
      if x.outputs.Some? {
        SortedKeys(x.outputs.value.Keys);
        PublishKeepsCases(w, Slug(step), x.outputs.value, Sorted(x.outputs.value.Keys), t);
      }
      assert PublishAll(w, Slug(step), x.outputs, t).state.cases == s.cases;
    }
    FinishKeepsCases(w, Slug(step), step, Execute(w, Slug(step), step, p.state));
  }

  // ----- Blocks

  lemma StopBooks(w: World, group: string, step: StepSpec, s: State)
    requires Books(w, s) && Told(w, s) && Settled(s.cases) && LastGroup(s.trace) == Some(group)
    ensures var p := RunStep(w, step, s);
            p.err == VerificationError ==>
              var t := Post(w, p.state, GroupStopped(group, IndexOf(step))).state; Books(w, t) && Told(w, t)
  {
    hide Told, LastGroup, RunStep, Settled, VerdictFailed, Kept, AllExplained, Runs, Posts, LogsTaken;
    var p := RunStep(w, step, s);
    if p.err == VerificationError {
      StepBooks(w, step, s);
      StepFailsForVerdict(w, step, s);
      PostBooks(w, p.state, GroupStopped(group, IndexOf(step)));
    }
  }

  lemma {:induction false} PlannedBooks(w: World, group: string, steps: seq<StepSpec>, last: int, s: State)
    requires Books(w, s) && Told(w, s) && Settled(s.cases) && LastGroup(s.trace) == Some(group)
    ensures var t := RunPlanned(w, false, group, steps, last, s).state;
            Books(w, t) && Told(w, t)
    decreases |steps|
  {
    hide Books, Told, LastGroup, RunStep, Settled, Post;
    if steps != [] {
      var p := RunStep(w, steps[0], s);
      StepBooks(w, steps[0], s);
      StepSettles(w, steps[0], s);
      StopBooks(w, group, steps[0], s);
      if p.err == NoError && !AbortRequested(p.state.outputs) {
        PlannedBooks(w, group, steps[1..], IndexOf(steps[0]), p.state);
      }
    }
  }

  /** The steps in turn, up to the first that fails or asks to abort, and how many come before
      the last one run. */
  function InTurn(w: World, steps: seq<StepSpec>, s: State): (Out, nat)
    decreases |steps|
  {
    if steps == [] then (Out(s, NoError), 0)
    else
      var p := RunStep(w, steps[0], s);
      if |steps| == 1 || p.err != NoError || AbortRequested(p.state.outputs) then (p, 0)
      else
        var r := InTurn(w, steps[1..], p.state);
        (r.0, r.1 + 1)
  }

  /** The planned steps of a block run in turn; if one of them fails for its verdict, the group
      is stopped, under the index of its case. */
  lemma {:induction false} PlannedRunInTurn(w: World, group: string, steps: seq<StepSpec>, last: int, s: State)
    ensures steps != [] ==> InTurn(w, steps, s).1 < |steps|
    ensures var (r, k) := InTurn(w, steps, s);
            RunPlanned(w, false, group, steps, last, s) ==
              if r.err == VerificationError && k < |steps| then Stopped(r, Post(w, r.state, GroupStopped(group, IndexOf(steps[k])))) else r
    decreases |steps|
  {
    hide RunStep, Post;
    if steps != [] {
      var p := RunStep(w, steps[0], s);
      if p.err == NoError && !AbortRequested(p.state.outputs) {
        PlannedRunInTurn(w, group, steps[1..], IndexOf(steps[0]), p.state);
      }
    }
  }

  lemma ExpansionBooks(w: World, group: string, none: bool, planned: seq<StepSpec>, s: State)
    requires Books(w, s) && Told(w, s) && Settled(s.cases) && (none ==> planned == [])
    ensures var t := RunExpansion(w, false, group, none, planned, s).state;
            Books(w, t) && Told(w, t)
  {
    hide Books, Told, LastGroup, Settled, RunPlanned;
    PostBooks(w, s, GroupExpanded(group, planned));
    var p := Post(w, s, GroupExpanded(group, planned));
    if p.err == NoError {
      if none {
        assert p.state.trace[|p.state.trace| - 1] == Posted(s.seqNo + 1, true, GroupExpanded(group, []));
        PostBooks(w, p.state, StepSkipped(group));
      } else {
        PlannedBooks(w, group, planned, 0, p.state);
      }
    }
  }

  lemma BlockBooks(w: World, block: seq<StepSpec>, s: State)
    requires block != [] && InBlock(block[0]) && Books(w, s) && Told(w, s) && Settled(s.cases)
    ensures var t := RunBlock(w, false, block, s).state;
            Books(w, t) && Told(w, t)
  {
    hide Books, Told, Settled, RunExpansion, CasesForGroup;
    var group, maxItems := Trim(block[0].group), block[0].dynamic.value.maxItems;
    var cases := CasesForGroup(w, group, maxItems, s.outputs);
    RefusalBooks(w, s, NoMaxItems);
    RefusalBooks(w, s, NoCases);
    if cases.Some? {
      NothingToPlan(block);
      ExpansionBooks(w, group, cases.value == [], ConcreteSteps(block, cases.value), s);
    }
  }

  lemma NothingToPlan(block: seq<StepSpec>)
    requires block != [] && InBlock(block[0])
    ensures ConcreteSteps(block, []) == []
  {}

  lemma RefusalBooks(w: World, s: State, cause: Cause)
    requires Books(w, s) && Told(w, s) && cause != NoWorkspace && cause != NoCheckout
    ensures Books(w, Log(s, Rejected(cause))) && Told(w, Log(s, Rejected(cause)))
  {
    hide Books, Told;
    assert Explained(w, s.trace, Rejected(cause));
    LogBooks(w, s, Rejected(cause));
  }

  // ----- The run

  lemma {:induction false} StepsBooks(w: World, steps: seq<StepSpec>, s: State)
    requires Books(w, s) && Told(w, s) && Settled(s.cases)
    ensures var t := RunSteps(w, false, steps, s).state;
            Books(w, t) && Told(w, t)
    decreases |steps|
  {
    hide Books, Told, Settled, RunStep, RunBlock, LastGroup;
    if steps != [] {
      if InBlock(steps[0]) {
        var block := Block(steps);
        BlockBooks(w, block, s);
        BlockUnguarded(w, block, s);
        var p := RunBlock(w, false, block, s);
        if Continue(p) == AllRun {
          StepsBooks(w, steps[|block|..], p.state);
        }
      } else if !Supported(steps[0].kind) {
        RefusalBooks(w, s, UnsupportedType);
      } else {
        StepBooks(w, steps[0], s);
        StepSettles(w, steps[0], s);
        var p := RunStep(w, steps[0], s);
        if Continue(p) == AllRun {
          StepsBooks(w, steps[1..], p.state);
        }
      }
    }
  }

  lemma AggregateIsExplained(cases: seq<CaseCompletion>)
    ensures Aggregates(cases, AggregateAll(NOTHING, cases))
  {
    hide AggregateAll, KeepsFirst, FirstBlamed, Says, Verdict;
    StatusIsVerdict(cases);
    FirstFailureWins(NOTHING, cases);
    EvidenceIsFirst(cases, []);
    var said := ReasonsAre(NOTHING, cases);
    assert AllSay(cases, said) && [] + Flatten(said) == Flatten(said);
  }

  lemma ReportIsExplained(w: World, s: State)
    requires Books(w, s) && Told(w, s)
    ensures ReportExplained(Files(w, s.trace), CasesOf(s.trace), ReportedBy(s))
    ensures EvidenceExplained(Files(w, s.trace), CasesOf(s.trace), EvidenceBy(s))
  {
    hide Aggregates, LastVerification, LastEvidence, AggregateAll, EvidenceOf, KeepsFirst, AllExplained, Files, CasesOf;
    OutputsKept(s);
    AggregateIsExplained(s.cases);
    EvidenceIsFirst(s.cases, s.completion.evidence);
  }

  lemma CompleteBooks(w: World, conclusion: Conclusion, s: State)
    requires Books(w, s) && Told(w, s)
    ensures Books(w, Complete(w, conclusion, s))
  {
    hide Books, Told, ReportedBy, EvidenceBy, ReportExplained, EvidenceExplained;
    ReportIsExplained(w, s);
    SetOutputs(w, s);
    LogBooks(w, s, Completed(!w.completionFails, conclusion, s.outputs, ReportedBy(s), EvidenceBy(s)));
  }

  lemma SetOutputs(w: World, s: State)
    requires Books(w, s)
    ensures s.outputs == OutputsOf(s.trace)
  {}

  lemma FailedBooks(w: World, s: State)
    requires Books(w, s) && Told(w, s)
    ensures var t := Post(w, s, RunnerFailed).state; Books(w, t) && Told(w, t)
  {
    hide Books, Told;
    PostBooks(w, s, RunnerFailed);
  }

  lemma ErrorBooks(w: World, s: State)
    requires Books(w, s) && Told(w, s)
    ensures Books(w, CompleteError(w, s))
  {
    hide Books, Told, Complete, Post;
    if w.shutdown {
      FailedBooks(w, s);
      CompleteBooks(w, TimedOut, Post(w, s, RunnerFailed).state);
    } else {
      CompleteBooks(w, Failure, s);
    }
  }

  lemma ConcludeBooks(w: World, r: Progress)
    requires Books(w, r.state) && Told(w, r.state)
    ensures Books(w, Conclude(w, r))
  {
    hide Books, Told, Complete, CompleteError;
    match r.end {
      case AllRun => CompleteBooks(w, Success, r.state);
      case AbortedRun => CompleteBooks(w, Aborted, r.state);
      case Refused => CompleteBooks(w, Failure, r.state);
      case Errored => ErrorBooks(w, r.state);
    }
  }

  lemma StartOfBooks(w: World)
    ensures Books(w, START) && Told(w, START) && Settled(START.cases)
  {}

  lemma CauseBooks(w: World, cause: Cause)
    requires Books(w, START) && Told(w, START) && Explained(w, [], Rejected(cause))
    ensures Books(w, Log(START, Rejected(cause))) && Told(w, Log(START, Rejected(cause)))
  {
    hide Books, Told, Explained;
    LogBooks(w, START, Rejected(cause));
  }

  /** Every entry of every run follows from the entries before it and from what the commands
      have done. */
  lemma RunIsExplained(w: World, job: seq<StepSpec>)
    ensures AllExplained(w, RunAll(w, true, job).trace)
    ensures Runs(RunAll(w, true, job).trace) == RunAll(w, true, job).executed
  {
    hide Complete, CompleteError, Post, Told, Settled, RunSteps, Conclude;
    GuardIsDead(w, job);
    StartOfBooks(w);
    RunHasBooks(w, job);
    RunsOfBooks(w, RunAll(w, false, job));
  }

  lemma RunHasBooks(w: World, job: seq<StepSpec>)
    requires Books(w, START) && Told(w, START) && Settled(START.cases)
    ensures Books(w, RunAll(w, false, job))
  {
    hide Books, Complete, CompleteError, Post, Told, Settled, RunSteps, Conclude, Log;
    if w.workspaceFails {
      CauseBooks(w, NoWorkspace);
      ErrorBooks(w, Log(START, Rejected(NoWorkspace)));
    } else if w.checkoutFails {
      var s := Log(START, Rejected(NoCheckout));
      CauseBooks(w, NoCheckout);
      FailedBooks(w, s);
      CompleteBooks(w, TimedOut, Post(w, s, RunnerFailed).state);
      CompleteBooks(w, Failure, Post(w, s, RunnerFailed).state);
    } else {
      StepsBooks(w, job, START);
      ConcludeBooks(w, RunSteps(w, false, job, START));
    }
  }

  // ----- What follows

  predicate TellsExitCode(x: Execution, event: Event) {
    match event
    case StepFailed(_, code) => code == if x.failed then x.exitCode else 1
    case StepAborted(_) => !x.failed
    case StepCompleted(_, code) => !x.failed && code == x.exitCode
    case _ => true
  }

  /** The end of a step whose command has failed carries the exit code of that command; a step
      that has completed carries that of a command that has not failed. */
  lemma EndsTellExitCodes(w: World, job: seq<StepSpec>, n: nat)
    requires n < |RunAll(w, true, job).trace|
    ensures var trace := RunAll(w, true, job).trace;
            trace[n].Posted? && Running(trace[..n]) ==>
              Runs(trace[..n]) > 0 && TellsExitCode(w.executions(Runs(trace[..n]) - 1), trace[n].event)
  {
    hide RunAll, Running, Runs, TakenIn, Clean, FailedSince;
    RunIsExplained(w, job);
    var trace := RunAll(w, true, job).trace;
    assert Explained(w, trace[..n], trace[n]);
    if Running(trace[..n]) {
      RunningHasRun(trace[..n]);
    }
  }

  lemma {:induction false} RunningHasRun(trace: seq<Entry>)
    requires Running(trace)
    ensures Runs(trace) > 0
    decreases |trace|
  {
    if !trace[|trace| - 1].Ran? {
      RunningHasRun(trace[..|trace| - 1]);
    }
  }

  /** The completion files of the first n commands. */
  function FirstFiles(w: World, n: nat): seq<CompletionFile> {
    seq(n, i requires 0 <= i < n => w.executions(i).completion)
  }

  lemma {:induction false} FilesWithoutCases(w: World, trace: seq<Entry>)
    requires CasesOf(trace) == []
    ensures Files(w, trace) == FirstFiles(w, Runs(trace))
    decreases |trace|
  {
    if trace != [] {
      FilesWithoutCases(w, trace[..|trace| - 1]);
    }
  }

  /** A run that records no case reports the verification that the last command with one has
      written, and nothing if none has; and the evidence that the last command with some has
      written. */
  lemma ReportWithoutCases(w: World, job: seq<StepSpec>) returns (v: Option<Verification>, evidence: seq<Artifact>)
    ensures var s := RunAll(w, true, job);
            s.cases == [] ==>
              && LastVerification(FirstFiles(w, s.executed), v) && LastEvidence(FirstFiles(w, s.executed), evidence)
              && s.trace != [] && s.trace[|s.trace| - 1].Completed?
              && s.trace[|s.trace| - 1].reported == (match v { case None => Nothing case Some(x) => OfStep(x) })
              && s.trace[|s.trace| - 1].evidence == evidence
  {
    hide RunAll, LastVerification, LastEvidence, AllExplained, OutputsOf, Aggregates, KeepsFirst, FirstFiles;
    var s := RunAll(w, true, job);
    v, evidence := None, [];
    RunReportsTrace(w, job);
    RunIsExplained(w, job);
    var front, e := s.trace[..|s.trace| - 1], s.trace[|s.trace| - 1];
    if s.cases == [] {
      LastIsExplained(w, s.trace);
      OutputsKept(s);
      FilesWithoutCases(w, front);
      v :| LastVerification(Files(w, front), v) && e.reported == match v { case None => Nothing case Some(x) => OfStep(x) };
      evidence :| LastEvidence(Files(w, front), evidence) && e.evidence == evidence;
    }
  }

  lemma LastIsExplained(w: World, trace: seq<Entry>)
    requires AllExplained(w, trace) && trace != []
    ensures Explained(w, trace[..|trace| - 1], trace[|trace| - 1])
  {}
}
