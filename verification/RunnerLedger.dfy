/** What a run reports is what its events have said: outputs, cases and numbers. */
module RunnerLedger {
  import opened Text
  import opened Numbers
  import opened CaseVerdict
  import opened RunnerModel
  import opened RunnerCases

  /** The outputs that the delivered events have set. */
  function OutputsOf(trace: seq<Entry>): map<string, string> {
    if trace == [] then map[] else WithOutput(OutputsOf(trace[..|trace| - 1]), trace[|trace| - 1])
  }

  function WithOutput(outputs: map<string, string>, e: Entry): map<string, string> {
    match e
    case Posted(_, true, PhaseOutputSet(_, key, value)) => outputs[key := value]
    case _ => outputs
  }

  function CasesOf(trace: seq<Entry>): seq<CaseCompletion> {
    if trace == [] then []
    else
      var front, e := CasesOf(trace[..|trace| - 1]), trace[|trace| - 1];
      if e.Recorded? then front + [e.tc] else front
  }

  /** The numbers of the events ascend, up to last. */
  predicate InOrder(trace: seq<Entry>, last: int) {
    trace == []
    || var front, e := trace[..|trace| - 1], trace[|trace| - 1];
       if e.Posted? then e.number <= last && InOrder(front, e.number - 1) else InOrder(front, last)
  }

  /** No key is posted that an earlier event has set. */
  predicate SetOnce(trace: seq<Entry>) {
    trace == []
    || var front, e := trace[..|trace| - 1], trace[|trace| - 1];
       SetOnce(front) && (e.Posted? && e.event.PhaseOutputSet? ==> e.event.key !in OutputsOf(front))
  }

  predicate IsStop(e: Entry) {
    e.Posted? && e.event.GroupStopped?
  }

  /** A step has just failed for its verdict: that of the latest case recorded under the
      index is a failing one, and no case has been recorded since. (Indices are below the
      greatest integer unless a block has as many cases.) */
  predicate VerdictFailed(trace: seq<Entry>, index: int) {
    && trace != [] && trace[|trace| - 1].Posted?
    && trace[|trace| - 1].event.StepFailed? && trace[|trace| - 1].event.exitCode == 1
    && var cases := CasesOf(trace);
       && CaseFailed(cases, index)
       && (index < MAX_INT ==> cases != [] && cases[|cases| - 1].index == index && Failed(cases[|cases| - 1]))
  }

  /** A group is stopped only when its step has failed for the verdict of the case named. */
  predicate StopsExplained(trace: seq<Entry>) {
    trace == []
    || var front, e := trace[..|trace| - 1], trace[|trace| - 1];
       StopsExplained(front) && (IsStop(e) ==> VerdictFailed(front, e.event.index))
  }

  predicate Kept(s: State) {
    && s.outputs == OutputsOf(s.trace) && s.cases == CasesOf(s.trace)
    && InOrder(s.trace, s.seqNo) && SetOnce(s.trace) && StopsExplained(s.trace)
  }

  lemma {:induction false} InOrderBelow(trace: seq<Entry>, a: int, b: int)
    requires InOrder(trace, a) && a <= b
    ensures InOrder(trace, b)
    decreases |trace|
  {
    if trace != [] && !trace[|trace| - 1].Posted? {
      InOrderBelow(trace[..|trace| - 1], a, b);
    }
  }

  lemma PostKeeps(w: World, s: State, event: Event)
    requires Kept(s) && !event.PhaseOutputSet? && (event.GroupStopped? ==> VerdictFailed(s.trace, event.index))
    ensures Kept(Post(w, s, event).state)
  {
    var t := Post(w, s, event).state;
    assert t.trace[..|t.trace| - 1] == s.trace;
  }

  lemma LogKeeps(s: State, e: Entry)
    requires Kept(s) && !e.Posted? && !e.Recorded?
    ensures Kept(Log(s, e))
  {
    assert Log(s, e).trace[..|s.trace|] == s.trace;
  }

  lemma {:induction false} PublishKeeps(w: World, slug: string, outputs: map<string, string>, keys: seq<string>, s: State)
    requires forall k | k in keys :: k in outputs
    requires Kept(s)
    ensures Kept(Publish(w, slug, outputs, keys, s).state)
    decreases |keys|
  {
    if keys != [] && keys[0] !in s.outputs {
      var p := Post(w, s, PhaseOutputSet(slug, keys[0], outputs[keys[0]]));
      assert p.state.trace[..|p.state.trace| - 1] == s.trace;
      if p.err == NoError {
        PublishKeeps(w, slug, outputs, keys[1..], SetOutputIn(p.state, keys[0], outputs[keys[0]]));
      }
    }
  }

  lemma BeginKeeps(w: World, slug: string, s: State)
    requires Kept(s)
    ensures Kept(Begin(w, slug, s))
  {
    var later := s.seqNo + w.executions(s.executed).logs;
    InOrderBelow(s.trace, s.seqNo, later);
    LogKeeps(s.(executed := s.executed + 1, seqNo := later), Ran(slug));
  }

  lemma ExecuteKeeps(w: World, slug: string, step: StepSpec, s: State)
    requires Kept(s)
    ensures Kept(Execute(w, slug, step, s).state)
  {
    hide Kept, Begin, PublishAll, Collect;
    if Executable(step.kind) {
      var x := w.executions(s.executed);
      BeginKeeps(w, slug, s);
      PublishAllKeeps(w, slug, x.outputs, Begin(w, slug, s));
      CollectKeeps(step, x.completion, PublishAll(w, slug, x.outputs, Begin(w, slug, s)).state);
    }
  }

  lemma PublishAllKeeps(w: World, slug: string, outputs: Option<map<string, string>>, s: State)
    requires Kept(s)
    ensures Kept(PublishAll(w, slug, outputs, s).state)
  {
    hide Kept, Publish;
    if outputs.Some? {
      SortedKeys(outputs.value.Keys);
      PublishKeeps(w, slug, outputs.value, Sorted(outputs.value.Keys), s);
    }
  }

  lemma CollectKeeps(step: StepSpec, file: CompletionFile, s: State)
    requires Kept(s)
    ensures Kept(Collect(step, file, s).state)
  {
    hide Kept, IndexText, IndexOf, Trim, Judged, Get;
    if file.Written? && file.verification.Some? && IndexText(step) != "" {
      RecordKeeps(s, Judged(step), CaseCompletion(IndexOf(step), Trim(Get(step.env, CaseLabel)), file.verification.value, file.evidence));
    } else {
      MetadataKeep(s, Collect(step, file, s).state.completion);
    }
  }

  lemma RecordKeeps(s: State, judged: bool, tc: CaseCompletion)
    requires Kept(s)
    ensures Kept(Record(s, judged, tc))
  {
    assert Record(s, judged, tc).trace[..|s.trace|] == s.trace;
  }

  lemma MetadataKeep(s: State, completion: Metadata)
    requires Kept(s)
    ensures Kept(s.(completion := completion))
  {}

  lemma FinishKeeps(w: World, slug: string, step: StepSpec, b: Ended)
    requires Kept(b.state)
    ensures Kept(Finish(w, slug, step, b).state)
  {
    PostKeeps(w, b.state, StepFailed(slug, b.exitCode));
    PostKeeps(w, b.state, StepFailed(slug, 1));
    PostKeeps(w, b.state, StepAborted(slug));
    PostKeeps(w, b.state, StepCompleted(slug, b.exitCode));
  }

  lemma {:induction false} StepKeeps(w: World, step: StepSpec, s: State)
    requires Kept(s)
    ensures Kept(RunStep(w, step, s).state)
  {
    var slug := Slug(step);
    LogKeeps(s, Rejected(BlankSlug));
    PostKeeps(w, s, StepStarted(slug));
    var p := Post(w, s, StepStarted(slug));
    ExecuteKeeps(w, slug, step, p.state);
    FinishKeeps(w, slug, step, Execute(w, slug, step, p.state));
  }

  /** A step that fails for its verdict has recorded it: no older case is to blame. */
  lemma StepFailsForVerdict(w: World, step: StepSpec, s: State)
    requires Kept(s) && Settled(s.cases)
    ensures var p := RunStep(w, step, s);
            p.err == VerificationError ==> VerdictFailed(p.state.trace, IndexOf(step))
  {
    hide RunStep, Kept, VerdictFailed;
    var p := RunStep(w, step, s);
    if p.err == VerificationError {
      StepKeeps(w, step, s);
      var added := StepRecords(w, step, s);
      AtoiRange(IndexText(step));
      if IndexOf(step) < MAX_INT {
        NothingBehindFailed(s.cases, IndexOf(step));
      }
      EndsFailed(w, step, s);
      assert added == [] ==> p.state.cases == s.cases;
      assert added != [] ==> p.state.cases[|p.state.cases| - 1] == added[0];
      Explains(p.state, IndexOf(step));
    }
  }

  lemma EndsFailed(w: World, step: StepSpec, s: State)
    ensures var p := RunStep(w, step, s);
            p.err == VerificationError ==>
              && JudgedFailure(step, p.state.cases) && p.state.trace != []
              && var e := p.state.trace[|p.state.trace| - 1]; e.Posted? && e.event.StepFailed? && e.event.exitCode == 1
  {}

  lemma Explains(s: State, index: int)
    requires Kept(s) && CaseFailed(s.cases, index) && s.trace != []
    requires var e := s.trace[|s.trace| - 1]; e.Posted? && e.event.StepFailed? && e.event.exitCode == 1
    requires index < MAX_INT ==> s.cases[|s.cases| - 1].index == index && Failed(s.cases[|s.cases| - 1])
    ensures VerdictFailed(s.trace, index)
  {}

  lemma {:induction false} PlannedKeeps(w: World, group: string, steps: seq<StepSpec>, last: int, s: State)
    requires Kept(s) && Settled(s.cases)
    ensures Kept(RunPlanned(w, false, group, steps, last, s).state)
    decreases |steps|
  {
    if steps != [] {
      var p := RunStep(w, steps[0], s);
      StepKeeps(w, steps[0], s);
      StepSettles(w, steps[0], s);
      StepFailsForVerdict(w, steps[0], s);
      if p.err == VerificationError {
        PostKeeps(w, p.state, GroupStopped(group, IndexOf(steps[0])));
      } else if p.err == NoError && !AbortRequested(p.state.outputs) {
        PlannedKeeps(w, group, steps[1..], IndexOf(steps[0]), p.state);
      }
    }
  }

  lemma ExpansionKeeps(w: World, group: string, none: bool, planned: seq<StepSpec>, s: State)
    requires Kept(s) && Settled(s.cases)
    ensures Kept(RunExpansion(w, false, group, none, planned, s).state)
  {
    PostKeeps(w, s, GroupExpanded(group, planned));
    var p := Post(w, s, GroupExpanded(group, planned));
    PostKeeps(w, p.state, StepSkipped(group));
    PlannedKeeps(w, group, planned, 0, p.state);
  }

  lemma {:induction false} BlockKeeps(w: World, block: seq<StepSpec>, s: State)
    requires block != [] && InBlock(block[0]) && Kept(s) && Settled(s.cases)
    ensures Kept(RunBlock(w, false, block, s).state)
  {
    var group, maxItems := Trim(block[0].group), block[0].dynamic.value.maxItems;
    var cases := CasesForGroup(w, group, maxItems, s.outputs);
    LogKeeps(s, Rejected(NoMaxItems));
    LogKeeps(s, Rejected(NoCases));
    if cases.Some? {
      ExpansionKeeps(w, group, cases.value == [], ConcreteSteps(block, cases.value), s);
    }
  }

  lemma {:induction false} StepsKeep(w: World, steps: seq<StepSpec>, s: State)
    requires Kept(s) && Settled(s.cases)
    ensures Kept(RunSteps(w, false, steps, s).state)
    decreases |steps|
  {
    if steps != [] {
      if InBlock(steps[0]) {
        var block := Block(steps);
        BlockKeeps(w, block, s);
        BlockUnguarded(w, block, s);
        var p := RunBlock(w, false, block, s);
        if Continue(p) == AllRun {
          StepsKeep(w, steps[|block|..], p.state);
        }
      } else {
        LogKeeps(s, Rejected(UnsupportedType));
        StepKeeps(w, steps[0], s);
        StepSettles(w, steps[0], s);
        var p := RunStep(w, steps[0], s);
        if Continue(p) == AllRun {
          StepsKeep(w, steps[1..], p.state);
        }
      }
    }
  }

  /** The completion carries the outputs that the events before it have set, and the
      verdict over the cases recorded before it. */
  predicate ReportsTrace(s: State) {
    s.trace != []
    && var front, e := s.trace[..|s.trace| - 1], s.trace[|s.trace| - 1];
       && Kept(s) && e.Completed? && e.outputs == OutputsOf(front)
       && (CasesOf(front) != [] ==> e.reported == OfCases(AggregateAll(NOTHING, CasesOf(front))))
       && (CasesOf(front) == [] ==> !e.reported.OfCases?)
  }

  lemma CompleteReports(w: World, conclusion: Conclusion, s: State)
    requires Kept(s)
    ensures ReportsTrace(Complete(w, conclusion, s))
  {
    var t := Complete(w, conclusion, s);
    assert t.trace[..|t.trace| - 1] == s.trace;
    LogKeeps(s, t.trace[|t.trace| - 1]);
  }

  lemma ErrorReports(w: World, s: State)
    requires Kept(s)
    ensures ReportsTrace(CompleteError(w, s))
  {
    PostKeeps(w, s, RunnerFailed);
    CompleteReports(w, TimedOut, Post(w, s, RunnerFailed).state);
    CompleteReports(w, Failure, s);
  }

  lemma ConcludeReports(w: World, r: Progress)
    requires Kept(r.state)
    ensures ReportsTrace(Conclude(w, r))
  {
    CompleteReports(w, Success, r.state);
    CompleteReports(w, Aborted, r.state);
    CompleteReports(w, Failure, r.state);
    ErrorReports(w, r.state);
  }

  /** Every run reports what has happened in it. */
  lemma RunReportsTrace(w: World, job: seq<StepSpec>)
    ensures ReportsTrace(RunAll(w, true, job))
  {
    GuardIsDead(w, job);
    LogKeeps(START, Rejected(NoWorkspace));
    ErrorReports(w, Log(START, Rejected(NoWorkspace)));
    var s := Log(START, Rejected(NoCheckout));
    LogKeeps(START, Rejected(NoCheckout));
    PostKeeps(w, s, RunnerFailed);
    CompleteReports(w, Failure, Post(w, s, RunnerFailed).state);
    CompleteReports(w, TimedOut, Post(w, s, RunnerFailed).state);
    StepsKeep(w, job, START);
    ConcludeReports(w, RunSteps(w, false, job, START));
  }

  lemma {:induction false} StopIsExplained(trace: seq<Entry>, k: nat)
    requires StopsExplained(trace) && k < |trace| && IsStop(trace[k])
    ensures VerdictFailed(trace[..k], trace[k].event.index)
    decreases |trace|
  {
    var front := trace[..|trace| - 1];
    if k < |front| {
      StopIsExplained(front, k);
      assert front[..k] == trace[..k];
    }
  }

  /** A group is stopped only when a step of it has just failed for its verdict, and under
      the index of the failing case. */
  lemma StopsNameTheFailure(w: World, job: seq<StepSpec>)
    ensures var trace := RunAll(w, true, job).trace;
            forall k | 0 <= k < |trace| && IsStop(trace[k]) :: VerdictFailed(trace[..k], trace[k].event.index)
  {
    hide RunAll, Kept, VerdictFailed;
    var trace := RunAll(w, true, job).trace;
    RunReportsTrace(w, job);
    StopsAreExplained(RunAll(w, true, job));
    forall k | 0 <= k < |trace| && IsStop(trace[k])
      ensures VerdictFailed(trace[..k], trace[k].event.index)
    {
      StopIsExplained(trace, k);
    }
  }

  lemma StopsAreExplained(s: State)
    requires Kept(s)
    ensures StopsExplained(s.trace)
  {}
}
