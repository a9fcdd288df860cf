/** The order of a run: the steps that start are those of the plan, from its beginning. */
module RunnerPlan {
  import opened Text
  import opened CaseVerdict
  import opened RunnerModel
  import opened RunnerCases
  import opened RunnerLedger

  /** The slugs of the steps that a trace starts. */
  function Starts(trace: seq<Entry>): seq<string> {
    if trace == [] then []
    else
      var front, e := Starts(trace[..|trace| - 1]), trace[|trace| - 1];
      if e.Posted? && e.event.StepStarted? then front + [e.event.slug] else front
  }

  /** A block's expansion: the outputs set by then, and the group and the steps posted. */
  datatype Snapshot = Snapshot(outputs: map<string, string>, group: string, planned: seq<StepSpec>)

  function Snapshots(trace: seq<Entry>): seq<Snapshot> {
    if trace == [] then []
    else
      var before, e := trace[..|trace| - 1], trace[|trace| - 1];
      if e.Posted? && e.event.GroupExpanded? then Snapshots(before) + [Snapshot(OutputsOf(before), e.event.group, e.event.planned)] else Snapshots(before)
  }

  function SlugsOf(steps: seq<StepSpec>): seq<string> {
    if steps == [] then [] else [Slug(steps[0])] + SlugsOf(steps[1..])
  }

  /** The slugs of the job's steps, each block replaced by the steps posted for it, up to
      the first block that was not expanded. */
  function PlanOf(steps: seq<StepSpec>, snapshots: seq<Snapshot>): seq<string>
    decreases |steps|
  {
    if steps == [] then []
    else if !InBlock(steps[0]) then [Slug(steps[0])] + PlanOf(steps[1..], snapshots)
    else if snapshots == [] then []
    else SlugsOf(snapshots[0].planned) + PlanOf(steps[|Block(steps)|..], snapshots[1..])
  }

  /** The steps posted for a block are its instances for the cases published by then. */
  predicate Foretold(w: World, block: seq<StepSpec>, snapshot: Snapshot)
    requires block != [] && InBlock(block[0])
  {
    var cases := CasesForGroup(w, Trim(block[0].group), block[0].dynamic.value.maxItems, snapshot.outputs);
    cases.Some? && snapshot.group == Trim(block[0].group) && snapshot.planned == ConcreteSteps(block, cases.value)
  }

  /** The snapshots are those of the job's first blocks, in order. */
  predicate AllForetold(w: World, steps: seq<StepSpec>, snapshots: seq<Snapshot>)
    decreases |steps|
  {
    if snapshots == [] then true
    else if steps == [] then false
    else if !InBlock(steps[0]) then AllForetold(w, steps[1..], snapshots)
    else Foretold(w, Block(steps), snapshots[0]) && AllForetold(w, steps[|Block(steps)|..], snapshots[1..])
  }

  // ----- What a step starts

  predicate Same(s: State, t: State) {
    Starts(s.trace) == Starts(t.trace) && Snapshots(s.trace) == Snapshots(t.trace)
  }

  predicate Plain(event: Event) {
    !event.StepStarted? && !event.GroupExpanded?
  }

  lemma LogSame(s: State, e: Entry)
    requires e.Posted? ==> Plain(e.event)
    ensures Same(s, Log(s, e))
  {
    assert Log(s, e).trace[..|s.trace|] == s.trace;
  }

  lemma PostSame(w: World, s: State, event: Event)
    requires Plain(event)
    ensures Same(s, Post(w, s, event).state)
  {
    var n := s.seqNo + 1;
    LogSame(s.(seqNo := n), Posted(n, !w.postFails(n), event));
  }

  lemma {:induction false} PublishSame(w: World, slug: string, outputs: map<string, string>, keys: seq<string>, s: State)
    requires forall k | k in keys :: k in outputs
    ensures Same(s, Publish(w, slug, outputs, keys, s).state)
    decreases |keys|
  {
    if keys != [] && keys[0] !in s.outputs {
      var event := PhaseOutputSet(slug, keys[0], outputs[keys[0]]);
      PostSame(w, s, event);
      PublishSame(w, slug, outputs, keys[1..], SetOutputIn(Post(w, s, event).state, keys[0], outputs[keys[0]]));
    }
  }

  lemma CollectSame(step: StepSpec, file: CompletionFile, s: State)
    ensures Same(s, Collect(step, file, s).state)
  {
    if file.Written? && file.verification.Some? && IndexText(step) != "" {
      var tc := CaseCompletion(IndexOf(step), Trim(Get(step.env, CaseLabel)), file.verification.value, file.evidence);
      LogSame(s.(cases := s.cases + [tc]), Recorded(Judged(step), tc));
    }
  }

  lemma ExecuteSame(w: World, slug: string, step: StepSpec, s: State)
    ensures Same(s, Execute(w, slug, step, s).state)
  {
    if Executable(step.kind) {
      var x := w.executions(s.executed);
      var t := Begin(w, slug, s);
      LogSame(s.(executed := s.executed + 1, seqNo := s.seqNo + x.logs), Ran(slug));
      if x.outputs.Some? {
        SortedKeys(x.outputs.value.Keys);
        PublishSame(w, slug, x.outputs.value, Sorted(x.outputs.value.Keys), t);
      }
      CollectSame(step, x.completion, PublishAll(w, slug, x.outputs, t).state);
    }
  }

  lemma FinishSame(w: World, slug: string, step: StepSpec, b: Ended)
    ensures Same(b.state, Finish(w, slug, step, b).state)
  {
    PostSame(w, b.state, StepFailed(slug, b.exitCode));
    PostSame(w, b.state, StepFailed(slug, 1));
    PostSame(w, b.state, StepAborted(slug));
    PostSame(w, b.state, StepCompleted(slug, b.exitCode));
  }

  /** From s to t the run has started these steps and expanded these blocks. */
  predicate Grew(s: State, t: State, starts: seq<string>, snapshots: seq<Snapshot>) {
    Starts(t.trace) == Starts(s.trace) + starts && Snapshots(t.trace) == Snapshots(s.trace) + snapshots
  }

  lemma GrewTwice(s: State, t: State, u: State, a: seq<string>, b: seq<string>, x: seq<Snapshot>, y: seq<Snapshot>)
    requires Grew(s, t, a, x) && Grew(t, u, b, y)
    ensures Grew(s, u, a + b, x + y)
  {
    Associative(Starts(s.trace), a, b);
    Associative(Snapshots(s.trace), x, y);
  }

  lemma StepStarts(w: World, step: StepSpec, s: State)
    ensures var p := RunStep(w, step, s);
            if Slug(step) == "" then p.err == StepError && Grew(s, p.state, [], []) else Grew(s, p.state, [Slug(step)], [])
  {
    var slug := Slug(step);
    if slug == "" {
      LogSame(s, Rejected(BlankSlug));
    } else {
      var p := Post(w, s, StepStarted(slug));
      assert p.state.trace[..|p.state.trace| - 1] == s.trace;
      ExecuteSame(w, slug, step, p.state);
      FinishSame(w, slug, step, Execute(w, slug, step, p.state));
    }
  }

  lemma {:induction false} PlannedStarts(w: World, group: string, steps: seq<StepSpec>, last: int, s: State) returns (starts: seq<string>)
    ensures var p := RunPlanned(w, false, group, steps, last, s);
            && Grew(s, p.state, starts, []) && starts <= SlugsOf(steps)
            && (Continue(p) == AllRun ==> starts == SlugsOf(steps))
    decreases |steps|
  {
    starts := [];
    if steps != [] {
      var p := RunStep(w, steps[0], s);
      StepStarts(w, steps[0], s);
      starts := if Slug(steps[0]) == "" then [] else [Slug(steps[0])];
      if p.err == VerificationError {
        var event := GroupStopped(group, IndexOf(steps[0]));
        PostSame(w, p.state, event);
      } else if p.err == NoError && !AbortRequested(p.state.outputs) {
        var more := PlannedStarts(w, group, steps[1..], IndexOf(steps[0]), p.state);
        var q := RunPlanned(w, false, group, steps[1..], IndexOf(steps[0]), p.state);
        GrewTwice(s, p.state, q.state, starts, more, [], []);
        starts := starts + more;
      }
    }
  }

  lemma ExpansionStarts(w: World, group: string, none: bool, planned: seq<StepSpec>, s: State) returns (starts: seq<string>)
    requires s.outputs == OutputsOf(s.trace) && (none ==> planned == [])
    ensures var p := RunExpansion(w, false, group, none, planned, s);
            && Grew(s, p.state, starts, [Snapshot(s.outputs, group, planned)]) && starts <= SlugsOf(planned)
            && (Continue(p) == AllRun ==> starts == SlugsOf(planned))
  {
    var p := Post(w, s, GroupExpanded(group, planned));
    var snapshots := [Snapshot(s.outputs, group, planned)];
    assert p.state.trace[..|p.state.trace| - 1] == s.trace;
    assert Grew(s, p.state, [], snapshots);
    starts := [];
    if p.err == NoError {
      if none {
        PostSame(w, p.state, StepSkipped(group));
      } else {
        starts := PlannedStarts(w, group, planned, 0, p.state);
        GrewTwice(s, p.state, RunPlanned(w, false, group, planned, 0, p.state).state, [], starts, snapshots, []);
        assert [] + starts == starts && snapshots + [] == snapshots;
      }
    }
  }

  lemma BlockStarts(w: World, block: seq<StepSpec>, s: State) returns (starts: seq<string>, snapshots: seq<Snapshot>)
    requires block != [] && InBlock(block[0]) && s.outputs == OutputsOf(s.trace)
    ensures var p := RunBlock(w, false, block, s);
            && Grew(s, p.state, starts, snapshots)
            && (snapshots == [] ==> starts == [] && p.err != NoError)
            && (snapshots != [] ==> |snapshots| == 1 && Foretold(w, block, snapshots[0]) && starts <= SlugsOf(snapshots[0].planned))
            && (Continue(p) == AllRun ==> snapshots != [] && starts == SlugsOf(snapshots[0].planned))
  {
    var group, maxItems := Trim(block[0].group), block[0].dynamic.value.maxItems;
    var cases := CasesForGroup(w, group, maxItems, s.outputs);
    if maxItems <= 0 || cases.None? {
      starts, snapshots := [], [];
      LogSame(s, Rejected(NoMaxItems));
      LogSame(s, Rejected(NoCases));
    } else {
      var planned := ConcreteSteps(block, cases.value);
      snapshots := [Snapshot(s.outputs, group, planned)];
      starts := ExpansionStarts(w, group, cases.value == [], planned, s);
    }
  }

  /** The started steps are the first of the plan, or all of it. */
  predicate Follows(w: World, steps: seq<StepSpec>, starts: seq<string>, snapshots: seq<Snapshot>, all: bool) {
    && starts <= PlanOf(steps, snapshots) && AllForetold(w, steps, snapshots)
    && (all ==> starts == PlanOf(steps, snapshots))
  }

  lemma {:induction false} StepsStart(w: World, steps: seq<StepSpec>, s: State) returns (starts: seq<string>, snapshots: seq<Snapshot>)
    requires Kept(s) && Settled(s.cases)
    ensures var r := RunSteps(w, false, steps, s);
            Grew(s, r.state, starts, snapshots) && Follows(w, steps, starts, snapshots, r.end == AllRun)
    decreases |steps|
  {
    starts, snapshots := [], [];
    if steps != [] {
      if InBlock(steps[0]) {
        starts, snapshots := BlockThenSteps(w, steps, s);
      } else if !Supported(steps[0].kind) {
        LogSame(s, Rejected(UnsupportedType));
      } else {
        var p := RunStep(w, steps[0], s);
        StepStarts(w, steps[0], s);
        starts := if Slug(steps[0]) == "" then [] else [Slug(steps[0])];
        if Continue(p) == AllRun {
          StepKeeps(w, steps[0], s);
          StepSettles(w, steps[0], s);
          var more, others := StepsStart(w, steps[1..], p.state);
          GrewTwice(s, p.state, RunSteps(w, false, steps[1..], p.state).state, starts, more, [], others);
          assert [] + others == others;
          starts, snapshots := starts + more, others;
        }
      }
    }
  }

  lemma {:induction false} BlockThenSteps(w: World, steps: seq<StepSpec>, s: State) returns (starts: seq<string>, snapshots: seq<Snapshot>)
    requires Kept(s) && Settled(s.cases) && steps != [] && InBlock(steps[0])
    ensures var r := RunSteps(w, false, steps, s);
            Grew(s, r.state, starts, snapshots) && Follows(w, steps, starts, snapshots, r.end == AllRun)
    decreases |steps|, 0
  {
    var block := Block(steps);
    var rest := steps[|block|..];
    var p := RunBlock(w, false, block, s);
    starts, snapshots := BlockStarts(w, block, s);
    if Continue(p) == AllRun {
      BlockKeeps(w, block, s);
      BlockUnguarded(w, block, s);
      var more, others := StepsStart(w, rest, p.state);
      GrewTwice(s, p.state, RunSteps(w, false, rest, p.state).state, starts, more, snapshots, others);
      assert (snapshots + others)[0] == snapshots[0] && (snapshots + others)[1..] == others;
      starts, snapshots := starts + more, snapshots + others;
    } else if snapshots != [] {
      assert snapshots[1..] == [];
    }
  }

  lemma CompleteSame(w: World, conclusion: Conclusion, s: State)
    ensures Same(s, Complete(w, conclusion, s))
  {
    LogSame(s, Completed(!w.completionFails, conclusion, s.outputs, ReportedBy(s), EvidenceBy(s)));
  }

  lemma ErrorSame(w: World, s: State)
    ensures Same(s, CompleteError(w, s))
  {
    PostSame(w, s, RunnerFailed);
    CompleteSame(w, TimedOut, Post(w, s, RunnerFailed).state);
    CompleteSame(w, Failure, s);
  }

  lemma ConcludeSame(w: World, r: Progress)
    ensures Same(r.state, Conclude(w, r))
  {
    CompleteSame(w, Success, r.state);
    CompleteSame(w, Aborted, r.state);
    CompleteSame(w, Failure, r.state);
    ErrorSame(w, r.state);
  }

  lemma NeverStarted(w: World, cause: Cause)
    ensures Same(START, CompleteError(w, Log(START, Rejected(cause))))
    ensures Same(START, Complete(w, Failure, Post(w, Log(START, Rejected(cause)), RunnerFailed).state))
    ensures Same(START, CompleteShutdown(w, Log(START, Rejected(cause))))
  {
    var s := Log(START, Rejected(cause));
    LogSame(START, Rejected(cause));
    ErrorSame(w, s);
    PostSame(w, s, RunnerFailed);
    CompleteSame(w, Failure, Post(w, s, RunnerFailed).state);
    CompleteSame(w, TimedOut, Post(w, s, RunnerFailed).state);
  }

  lemma StepsRanFollowPlan(w: World, job: seq<StepSpec>)
    requires !w.workspaceFails && !w.checkoutFails
    ensures var r := RunSteps(w, false, job, START);
            && Same(r.state, RunAll(w, false, job))
            && Follows(w, job, Starts(r.state.trace), Snapshots(r.state.trace), r.end == AllRun)
  {
    var starts, snapshots := StepsStart(w, job, START);
    var r := RunSteps(w, false, job, START);
    ConcludeSame(w, r);
    assert [] + starts == starts && [] + snapshots == snapshots;
  }

  /** Steps start in the order of the plan, without gaps, and blocks are expanded as
      announced; a successful run has started the whole plan. */
  lemma StartsFollowPlan(w: World, job: seq<StepSpec>)
    ensures var s := RunAll(w, true, job);
            Follows(w, job, Starts(s.trace), Snapshots(s.trace), Succeeded(s))
  {
    GuardIsDead(w, job);
    SuccessIsAllRun(w, job);
    if w.workspaceFails {
      NeverStarted(w, NoWorkspace);
    } else if w.checkoutFails {
      NeverStarted(w, NoCheckout);
    } else {
      StepsRanFollowPlan(w, job);
    }
  }
}
