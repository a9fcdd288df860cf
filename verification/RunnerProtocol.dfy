/** The protocol of a run as the server sees it: an automaton over what happens, which
    every run of the runner follows to its end. */
module RunnerProtocol {
  import opened Text
  import opened CaseVerdict
  import OutputFile
  import opened RunnerModel
  import opened RunnerCases

  /** Where a run is: between steps; after a block without cases, which is to be skipped; in a
      step, which must fail once it is broken; after a failed step; after another error; after a shutdown or a failed checkout has been
      posted; after an abort; after a refusal; completed. */
  datatype Mode =
    | Idle
    | Skipping(group: string)
    | InStep(slug: string, ran: bool, recorded: bool, aborting: bool)
    | Broken(slug: string, recorded: bool)
    | Failing
    | Erring
    | NotCheckedOut
    | Down
    | Aborting
    | Refusing
    | Done

  predicate IsAbort(key: string, value: string) {
    key == OutputFile.ABORT_REASON && Trim(value) != ""
  }

  function Allow(condition: bool, m: Mode): Option<Mode> {
    if condition then Some(m) else None
  }

  /** The mode after an entry, if it may happen in the mode m. */
  function Next(shutdown: bool, m: Mode, e: Entry): Option<Mode> {
    match e
    case Posted(_, ok, event) => AfterPost(shutdown, m, ok, event)
    case Ran(slug) => Allow(m == InStep(slug, false, false, false), InStep(slug, true, false, false))
    case Recorded(judged, tc) =>
      (match m
       case InStep(slug, true, false, aborting) =>
         Some(if judged && Failed(tc) then Broken(slug, true) else InStep(slug, true, true, aborting))
       case Broken(slug, false) => Some(Broken(slug, true))
       case _ => None)
    case Rejected(cause) =>
      Allow(m == Idle, match cause case UnsupportedType => Refusing case NoCheckout => NotCheckedOut case _ => Erring)
    case Completed(_, conclusion, _, _, _) => Allow(Concludes(shutdown, m, conclusion), Done)
  }

  predicate Concludes(shutdown: bool, m: Mode, conclusion: Conclusion) {
    match m
    case Idle => conclusion == Success
    case Aborting => conclusion == Aborted
    case Refusing => conclusion == Failure
    case Failing => conclusion == Failure && !shutdown
    case Erring => conclusion == Failure && !shutdown
    case Down => conclusion == if shutdown then TimedOut else Failure
    case _ => false
  }

  /** A step event is about the step the run is in. */
  predicate InStepOf(m: Mode, slug: string) {
    m.InStep? && m.slug == slug && m.ran
  }

  function AfterPost(shutdown: bool, m: Mode, ok: bool, event: Event): Option<Mode> {
    match event
    case StepStarted(slug) =>
      Allow(m == Idle && slug != "", if ok then InStep(slug, false, false, false) else Erring)
    case PhaseOutputSet(slug, key, value) =>
      if !InStepOf(m, slug) || m.recorded then None
      else if !ok then Some(Broken(slug, false))
      else Some(InStep(slug, true, false, m.aborting || IsAbort(key, value)))
    case StepFailed(slug, _) => Allow((m.InStep? || m.Broken?) && m.slug == slug, Failing)
    case StepAborted(slug) => if InStepOf(m, slug) && m.aborting then Some(if ok then Aborting else Erring) else None
    case StepCompleted(slug, _) => if InStepOf(m, slug) && !m.aborting then Some(if ok then Idle else Erring) else None
    case GroupExpanded(group, planned) =>
      Allow(m == Idle, if !ok then Erring else if planned == [] then Skipping(group) else Idle)
    case StepSkipped(group) => Allow(m == Skipping(group), if ok then Idle else Erring)
    case GroupStopped(_, _) => Allow(m == Failing, Erring)
    case RunnerFailed => Allow(m == NotCheckedOut || (shutdown && (m == Failing || m == Erring)), Down)
  }

  /** The mode a trace leads to from m, if all of it may happen. */
  function Accept(shutdown: bool, m: Mode, trace: seq<Entry>): Option<Mode> {
    if trace == [] then Some(m)
    else
      var before := Accept(shutdown, m, trace[..|trace| - 1]);
      if before.None? then None else Next(shutdown, before.value, trace[|trace| - 1])
  }

  // ----- The runner follows the protocol

  /** The run has followed the protocol into mode m, which knows whether an abort has been
      requested. */
  predicate At(w: World, m: Mode, s: State) {
    && Accept(w.shutdown, Idle, s.trace) == Some(m)
    && (m.Idle? ==> !AbortRequested(s.outputs))
    && (m.InStep? ==> m.aborting == AbortRequested(s.outputs))
  }

  lemma Logs(w: World, m: Mode, s: State, e: Entry)
    requires Accept(w.shutdown, Idle, s.trace) == Some(m)
    ensures Accept(w.shutdown, Idle, Log(s, e).trace) == Next(w.shutdown, m, e)
  {
    var trace := s.trace + [e];
    assert trace[..|trace| - 1] == s.trace;
  }

  /** Inside a step whose command has run, before its case is recorded. */
  predicate Publishing(w: World, slug: string, s: State) {
    At(w, InStep(slug, true, false, AbortRequested(s.outputs)), s)
  }

  lemma {:induction false} PublishFollows(w: World, slug: string, outputs: map<string, string>, keys: seq<string>, s: State)
    requires forall k | k in keys :: k in outputs
    requires Publishing(w, slug, s)
    ensures var p := Publish(w, slug, outputs, keys, s);
            Publishing(w, slug, p.state) || (p.err != NoError && At(w, Broken(slug, false), p.state))
    decreases |keys|
  {
    if keys != [] && keys[0] !in s.outputs {
      var key, value := keys[0], outputs[keys[0]];
      var n := s.seqNo + 1;
      var p := Post(w, s, PhaseOutputSet(slug, key, value));
      Logs(w, InStep(slug, true, false, AbortRequested(s.outputs)), s.(seqNo := n), Posted(n, !w.postFails(n), PhaseOutputSet(slug, key, value)));
      if p.err == NoError {
        var t := SetOutputIn(p.state, key, value);
        assert AbortRequested(t.outputs) == (AbortRequested(s.outputs) || IsAbort(key, value));
        PublishFollows(w, slug, outputs, keys[1..], t);
      }
    }
  }

  /** The completion file of a step that has a failing verdict to act on breaks the step. */
  lemma CollectFollows(w: World, slug: string, step: StepSpec, file: CompletionFile, s: State, m: Mode) returns (after: Mode)
    requires At(w, m, s) && (m == InStep(slug, true, false, AbortRequested(s.outputs)) || m == Broken(slug, false))
    ensures var c := Collect(step, file, s);
            && At(w, after, c.state)
            && (after.Broken? || after.InStep?) && after.slug == slug
            && (after.InStep? ==> after.ran)
            && (after.Broken? ==> m.Broken? || JudgedFailure(step, c.state.cases))
  {
    after := m;
    if file.Written? && file.verification.Some? && IndexText(step) != "" {
      var tc := CaseCompletion(IndexOf(step), Trim(Get(step.env, CaseLabel)), file.verification.value, file.evidence);
      var e := Recorded(Judged(step), tc);
      Logs(w, m, s.(cases := s.cases + [tc]), e);
      after := Next(w.shutdown, m, e).value;
    }
  }

  lemma ExecuteFollows(w: World, slug: string, step: StepSpec, s: State) returns (m: Mode)
    requires At(w, InStep(slug, false, false, false), s)
    ensures var b := Execute(w, slug, step, s);
            && At(w, m, b.state)
            && (m.Broken? || m.InStep?) && m.slug == slug
            && (!b.failed && !b.outputFailed && !JudgedFailure(step, b.state.cases) ==> m.InStep? && m.ran)
  {
    if !Executable(step.kind) {
      m := InStep(slug, false, false, false);
    } else {
      var x := w.executions(s.executed);
      var t := Begin(w, slug, s);
      var p := PublishAll(w, slug, x.outputs, t);
      if x.outputs.Some? {
        SortedKeys(x.outputs.value.Keys);
        PublishFollows(w, slug, x.outputs.value, Sorted(x.outputs.value.Keys), t);
      }
      var before := if Publishing(w, slug, p.state) then InStep(slug, true, false, AbortRequested(p.state.outputs)) else Broken(slug, false);
      m := CollectFollows(w, slug, step, x.completion, p.state, before);
    }
  }

  /** Where a step or a block leaves the run. */
  predicate Left(w: World, p: Out) {
    if p.err == NoError then At(w, if AbortRequested(p.state.outputs) then Aborting else Idle, p.state)
    else At(w, Failing, p.state) || At(w, Erring, p.state)
  }

  lemma PostFollows(w: World, m: Mode, s: State, event: Event)
    requires Accept(w.shutdown, Idle, s.trace) == Some(m)
    ensures var p := Post(w, s, event);
            && Accept(w.shutdown, Idle, p.state.trace) == AfterPost(w.shutdown, m, p.err == NoError, event)
            && p.state.outputs == s.outputs && p.state.cases == s.cases
  {
    var n := s.seqNo + 1;
    Logs(w, m, s.(seqNo := n), Posted(n, !w.postFails(n), event));
  }

  lemma FinishFollows(w: World, slug: string, step: StepSpec, b: Ended, m: Mode)
    requires At(w, m, b.state) && (m.Broken? || m.InStep?) && m.slug == slug
    requires !b.failed && !b.outputFailed && !JudgedFailure(step, b.state.cases) ==> m.InStep? && m.ran
    ensures var p := Finish(w, slug, step, b);
            Left(w, p) && (p.err == VerificationError ==> At(w, Failing, p.state))
  {
    if b.failed {
      PostFollows(w, m, b.state, StepFailed(slug, b.exitCode));
    } else if b.outputFailed || JudgedFailure(step, b.state.cases) {
      PostFollows(w, m, b.state, StepFailed(slug, 1));
    } else if AbortRequested(b.state.outputs) {
      PostFollows(w, m, b.state, StepAborted(slug));
    } else {
      PostFollows(w, m, b.state, StepCompleted(slug, b.exitCode));
    }
  }

  lemma StepFollows(w: World, step: StepSpec, s: State)
    requires At(w, Idle, s)
    ensures var p := RunStep(w, step, s);
            Left(w, p) && (p.err == VerificationError ==> At(w, Failing, p.state))
  {
    var slug := Slug(step);
    if slug == "" {
      Logs(w, Idle, s, Rejected(BlankSlug));
    } else {
      PostFollows(w, Idle, s, StepStarted(slug));
      var p := Post(w, s, StepStarted(slug));
      if p.err == NoError {
        var m := ExecuteFollows(w, slug, step, p.state);
        FinishFollows(w, slug, step, Execute(w, slug, step, p.state), m);
      }
    }
  }

  lemma {:induction false} PlannedFollows(w: World, group: string, steps: seq<StepSpec>, last: int, s: State)
    requires At(w, Idle, s)
    ensures Left(w, RunPlanned(w, false, group, steps, last, s))
    decreases |steps|
  {
    hide RunStep;
    if steps != [] {
      StepFollows(w, steps[0], s);
      var p := RunStep(w, steps[0], s);
      if p.err == VerificationError {
        PostFollows(w, Failing, p.state, GroupStopped(group, IndexOf(steps[0])));
      } else if p.err == NoError && !AbortRequested(p.state.outputs) {
        PlannedFollows(w, group, steps[1..], IndexOf(steps[0]), p.state);
      }
    }
  }

  lemma BlockFollows(w: World, block: seq<StepSpec>, s: State)
    requires block != [] && InBlock(block[0]) && At(w, Idle, s)
    ensures Left(w, RunBlock(w, false, block, s))
  {
    var group, maxItems := Trim(block[0].group), block[0].dynamic.value.maxItems;
    var cases := CasesForGroup(w, group, maxItems, s.outputs);
    if maxItems <= 0 {
      Logs(w, Idle, s, Rejected(NoMaxItems));
    } else if cases.None? {
      Logs(w, Idle, s, Rejected(NoCases));
    } else {
      PlanIsEmpty(block, cases.value);
      ExpansionFollows(w, group, cases.value == [], ConcreteSteps(block, cases.value), s);
    }
  }

  lemma PlanIsEmpty(block: seq<StepSpec>, cases: seq<DynamicCase>)
    requires block != [] && InBlock(block[0])
    ensures ConcreteSteps(block, cases) == [] <==> cases == []
  {}

  lemma ExpansionFollows(w: World, group: string, none: bool, planned: seq<StepSpec>, s: State)
    requires At(w, Idle, s) && (none <==> planned == [])
    ensures Left(w, RunExpansion(w, false, group, none, planned, s))
  {
    PostFollows(w, Idle, s, GroupExpanded(group, planned));
    var p := Post(w, s, GroupExpanded(group, planned));
    if p.err == NoError {
      if none {
        PostFollows(w, Skipping(group), p.state, StepSkipped(group));
      } else {
        PlannedFollows(w, group, planned, 0, p.state);
      }
    }
  }

  /** Where the steps leave the run. */
  predicate Arrived(w: World, r: Progress) {
    match r.end
    case AllRun => At(w, Idle, r.state)
    case AbortedRun => At(w, Aborting, r.state)
    case Refused => At(w, Refusing, r.state)
    case Errored => At(w, Failing, r.state) || At(w, Erring, r.state)
  }

  lemma {:induction false} StepsFollow(w: World, steps: seq<StepSpec>, s: State)
    requires At(w, Idle, s)
    ensures Arrived(w, RunSteps(w, false, steps, s))
    decreases |steps|
  {
    hide RunStep, RunBlock;
    if steps != [] {
      if InBlock(steps[0]) {
        var block := Block(steps);
        BlockFollows(w, block, s);
        var p := RunBlock(w, false, block, s);
        if Continue(p) == AllRun {
          StepsFollow(w, steps[|block|..], p.state);
        }
      } else if !Supported(steps[0].kind) {
        Logs(w, Idle, s, Rejected(UnsupportedType));
      } else {
        StepFollows(w, steps[0], s);
        var p := RunStep(w, steps[0], s);
        if Continue(p) == AllRun {
          StepsFollow(w, steps[1..], p.state);
        }
      }
    }
  }

  lemma CompleteFollows(w: World, m: Mode, conclusion: Conclusion, s: State)
    requires Accept(w.shutdown, Idle, s.trace) == Some(m) && Concludes(w.shutdown, m, conclusion)
    ensures Accept(w.shutdown, Idle, Complete(w, conclusion, s).trace) == Some(Done)
  {
    Logs(w, m, s, Completed(!w.completionFails, conclusion, s.outputs, ReportedBy(s), EvidenceBy(s)));
  }

  lemma ErrorFollows(w: World, m: Mode, s: State)
    requires Accept(w.shutdown, Idle, s.trace) == Some(m) && (m == Failing || m == Erring)
    ensures Accept(w.shutdown, Idle, CompleteError(w, s).trace) == Some(Done)
  {
    if w.shutdown {
      PostFollows(w, m, s, RunnerFailed);
      CompleteFollows(w, Down, TimedOut, Post(w, s, RunnerFailed).state);
    } else {
      CompleteFollows(w, m, Failure, s);
    }
  }

  lemma ConcludeFollows(w: World, r: Progress)
    requires Arrived(w, r)
    ensures Accept(w.shutdown, Idle, Conclude(w, r).trace) == Some(Done)
  {
    match r.end {
      case AllRun => CompleteFollows(w, Idle, Success, r.state);
      case AbortedRun => CompleteFollows(w, Aborting, Aborted, r.state);
      case Refused => CompleteFollows(w, Refusing, Failure, r.state);
      case Errored => ErrorFollows(w, if At(w, Failing, r.state) then Failing else Erring, r.state);
    }
  }

  /** Every run follows the protocol to its end. */
  lemma {:induction false} RunFollowsProtocol(w: World, job: seq<StepSpec>)
    ensures Accept(w.shutdown, Idle, RunAll(w, true, job).trace) == Some(Done)
  {
    GuardIsDead(w, job);
    if w.workspaceFails {
      Logs(w, Idle, START, Rejected(NoWorkspace));
      ErrorFollows(w, Erring, Log(START, Rejected(NoWorkspace)));
    } else if w.checkoutFails {
      var s := Log(START, Rejected(NoCheckout));
      Logs(w, Idle, START, Rejected(NoCheckout));
      PostFollows(w, NotCheckedOut, s, RunnerFailed);
      CompleteFollows(w, Down, if w.shutdown then TimedOut else Failure, Post(w, s, RunnerFailed).state);
    } else {
      StepsFollow(w, job, START);
      ConcludeFollows(w, RunSteps(w, false, job, START));
    }
  }
}
