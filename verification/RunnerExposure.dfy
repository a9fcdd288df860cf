/** The exact conditions: when a success means that no case failed, and when no case but
    the last can fail. For all other jobs there are worlds that show it. */
module RunnerExposure {
  import opened Text
  import opened CaseVerdict
  import opened RunnerModel
  import opened RunnerCases
  import opened RunnerSuccess
  import opened RunnerFailures
  import opened RunnerWorlds

  // ----- Where the exposed steps are

  function BlockNames(steps: seq<StepSpec>): seq<string>
    decreases |steps|
  {
    if steps == [] then []
    else if InBlock(steps[0]) then [BlockName(Block(steps))] + BlockNames(steps[|Block(steps)|..])
    else BlockNames(steps[1..])
  }

  predicate Named(steps: seq<StepSpec>, names: seq<string>) {
    forall n | n in BlockNames(steps) :: n in names
  }

  lemma NamedRest(steps: seq<StepSpec>, names: seq<string>)
    requires steps != [] && Named(steps, names)
    ensures InBlock(steps[0]) ==> BlockName(Block(steps)) in names && Named(steps[|Block(steps)|..], names)
    ensures !InBlock(steps[0]) ==> Named(steps[1..], names)
  {
    hide BlockName;
    if InBlock(steps[0]) {
      assert BlockNames(steps)[0] == BlockName(Block(steps));
    }
  }

  datatype Target = Target(late: nat, b: string)

  /** The step that is to record: a step outside blocks, or the first step of a block of
      the name b after the command number late. k commands have been run before steps. */
  function TargetOf(steps: seq<StepSpec>, idle: set<string>, k: nat): Target
    requires CanRecord(steps, idle) && k > 0
    decreases |steps|
  {
    if InBlock(steps[0]) then
      var block := Block(steps);
      if Executable(block[0].kind) && BlockName(block) !in idle then Target(k - 1, BlockName(block))
      else TargetOf(steps[|block|..], idle + {BlockName(block)}, k)
    else if IndexText(steps[0]) != "" then Target(k, "")
    else TargetOf(steps[1..], {}, k + 1)
  }

  lemma {:induction false} TargetIsFresh(steps: seq<StepSpec>, idle: set<string>, k: nat)
    requires CanRecord(steps, idle) && k > 0
    ensures var t := TargetOf(steps, idle, k);
            t.late >= k - 1 && (t.late == k - 1 ==> t.b !in idle)
    decreases |steps|
  {
    hide BlockName, Executable;
    if InBlock(steps[0]) {
      var block := Block(steps);
      if !(Executable(block[0].kind) && BlockName(block) !in idle) {
        TargetIsFresh(steps[|block|..], idle + {BlockName(block)}, k);
      }
    } else if IndexText(steps[0]) == "" {
      TargetIsFresh(steps[1..], {}, k + 1);
    }
  }

  /** All commands that fail have been run. */
  predicate PastFailures(p: Plot, k: nat) {
    forall i | i in p.fails :: i < k
  }

  /** The step that can record does. */
  lemma {:induction false} TargetRecords(p: Plot, steps: seq<StepSpec>, idle: set<string>, s: State)
    requires CanRecord(steps, idle) && OnPlot(p, s) && s.executed > 0 && PastFailures(p, s.executed)
    requires TargetOf(steps, idle, s.executed) == Target(p.late, p.b) && Named(steps, p.names)
    ensures |RunSteps(Plotted(p), false, steps, s).state.cases| > |s.cases|
    decreases |steps|
  {
    hide RunStep, RunBlock, OutputsAt, BlockName, Executable, BlockNames;
    var w, step := Plotted(p), steps[0];
    NamedRest(steps, p.names);
    if InBlock(step) {
      var block := Block(steps);
      var rest, more := steps[|block|..], idle + {BlockName(block)};
      if Executable(block[0].kind) && BlockName(block) !in idle {
        PlottedBlock(p, block, s);
        StepsGrow(w, rest, RunBlock(w, false, block, s).state);
      } else {
        TargetIsFresh(rest, more, s.executed);
        PlottedSkip(p, block, s);
        TargetRecords(p, rest, more, RunBlock(w, false, block, s).state);
      }
    } else {
      SupportedExecutes(step.kind);
      if IndexText(step) != "" {
        PlottedRecords(p, step, s);
        StepsGrow(w, steps[1..], RunStep(w, step, s).state);
      } else {
        assert PlottedCase(p, step, s.executed) == [];
        PlottedStep(p, step, s);
        TargetRecords(p, steps[1..], {}, RunStep(w, step, s).state);
      }
    }
  }

  /** The command that fails unnoticed, and the target after it. */
  function FailureOf(steps: seq<StepSpec>, k: nat): nat
    requires Exposed(steps)
    decreases |steps|
  {
    if InBlock(steps[0]) then FailureOf(steps[|Block(steps)|..], k)
    else if !Readable(steps[0]) && CanRecord(steps[1..], {}) then k
    else FailureOf(steps[1..], k + 1)
  }

  function TargetAfter(steps: seq<StepSpec>, k: nat): Target
    requires Exposed(steps)
    decreases |steps|
  {
    if InBlock(steps[0]) then TargetAfter(steps[|Block(steps)|..], k)
    else if !Readable(steps[0]) && CanRecord(steps[1..], {}) then TargetOf(steps[1..], {}, k + 1)
    else TargetAfter(steps[1..], k + 1)
  }

  lemma {:induction false} FailureComesFirst(steps: seq<StepSpec>, k: nat)
    requires Exposed(steps)
    ensures k <= FailureOf(steps, k) <= TargetAfter(steps, k).late
    decreases |steps|
  {
    hide CanRecord, Readable;
    if InBlock(steps[0]) {
      FailureComesFirst(steps[|Block(steps)|..], k);
    } else if !Readable(steps[0]) && CanRecord(steps[1..], {}) {
      TargetIsFresh(steps[1..], {}, k + 1);
    } else {
      FailureComesFirst(steps[1..], k + 1);
    }
  }

  predicate Fits(p: Plot, steps: seq<StepSpec>, k: nat)
    requires Exposed(steps)
  {
    p.fails == {FailureOf(steps, k)} && TargetAfter(steps, k) == Target(p.late, p.b) && Named(steps, p.names)
  }

  /** A case that fails is followed by another. */
  lemma {:induction false} FailureIsFollowed(p: Plot, steps: seq<StepSpec>, s: State)
    requires Exposed(steps) && Fits(p, steps, s.executed) && OnPlot(p, s) && (s.executed > 0 || !InBlock(steps[0]))
    ensures !OnlyLast(RunSteps(Plotted(p), false, steps, s).state.cases)
    decreases |steps|
  {
    hide RunStep, RunBlock, OutputsAt, BlockName, Executable, BlockNames, CanRecord, Readable, OnlyLast;
    var w, step := Plotted(p), steps[0];
    NamedRest(steps, p.names);
    FailureComesFirst(steps, s.executed);
    if InBlock(step) {
      var block := Block(steps);
      PlottedSkip(p, block, s);
      FailureIsFollowed(p, steps[|block|..], RunBlock(w, false, block, s).state);
    } else {
      SupportedExecutes(step.kind);
      var rest := steps[1..];
      if !Readable(step) && CanRecord(rest, {}) {
        NotReadable(step);
        PlottedStep(p, step, s);
        var t := RunStep(w, step, s).state;
        TargetRecords(p, rest, {}, t);
        StepsGrow(w, rest, t);
        FailingInside(p, step, s.executed, s.cases, RunSteps(w, false, rest, t).state.cases);
      } else {
        FailureComesFirst(rest, s.executed + 1);
        PlottedStep(p, step, s);
        FailureIsFollowed(p, rest, RunStep(w, step, s).state);
      }
    }
  }

  lemma NotReadable(step: StepSpec)
    requires !Readable(step)
    ensures !Judged(step) && IndexText(step) != ""
  {}

  lemma FailingInside(p: Plot, step: StepSpec, k: nat, before: seq<CaseCompletion>, all: seq<CaseCompletion>)
    requires k in p.fails && IndexText(step) != ""
    requires var cases := before + PlottedCase(p, step, k); cases <= all && |all| > |cases|
    ensures !OnlyLast(all)
  {
    var tc := PlottedCase(p, step, k)[0];
    assert (before + [tc])[|before|] == tc;
    assert all[|before|] == tc;
  }

  // ----- The exact condition

  /** In every world at most one recorded case fails and it is the last one, if and only if
      the job starts with a block, whose cases nothing has published, or no step that may
      fail unnoticed can be followed by a step that records. */
  lemma OnlyLastFailsIff(job: seq<StepSpec>)
    ensures OnlyLastFails(job) <==> !Exposed(job) || InBlock(job[0])
  {
    hide OnlyLast, RunAll, RunSteps, CanRecord;
    if !Exposed(job) || InBlock(job[0]) {
      forall w: World
        ensures OnlyLast(RunAll(w, true, job).cases)
      {
        GuardIsDead(w, job);
        UnexposedCases(w, job);
      }
    } else {
      var p := Plot({FailureOf(job, 0)}, TargetAfter(job, 0).late, TargetAfter(job, 0).b, BlockNames(job));
      StartsOnPlot(p);
      FailureIsFollowed(p, job, START);
      GuardIsDead(Plotted(p), job);
      SuccessIsAllRun(Plotted(p), job);
    }
  }

  lemma StartsOnPlot(p: Plot)
    ensures OnPlot(p, START)
  {
    assert OutputsAt(p, 0) == map[];
  }

  lemma OneStep(w: World, step: StepSpec, s: State)
    requires !InBlock(step) && Supported(step.kind)
    ensures RunSteps(w, false, [step], s).state == RunStep(w, step, s).state
  {
    hide RunStep;
    var steps := [step];
    assert steps[1..] == [];
  }

  lemma UnexposedCases(w: World, job: seq<StepSpec>)
    requires !Exposed(job) || InBlock(job[0])
    ensures OnlyLast(RunAll(w, false, job).cases)
  {
    hide Exposed, RunStep;
    SuccessIsAllRun(w, job);
    FailingIsExposed(w, job, START);
    if job != [] && InBlock(job[0]) {
      BlockNeedsOutputs(w, Block(job), START);
      BlockPasses(w, Block(job), START);
    }
  }

  /** A job all of whose case indices are readable is never exposed. */
  lemma {:induction false} ReadableIsUnexposed(steps: seq<StepSpec>)
    requires StaticReadable(steps)
    ensures !Exposed(steps)
    decreases |steps|
  {
    hide CanRecord, Readable;
    if steps != [] {
      if InBlock(steps[0]) {
        ReadableIsUnexposed(steps[|Block(steps)|..]);
      } else {
        ReadableIsUnexposed(steps[1..]);
      }
    }
  }

  /** Without unreadable case indices, at most one case fails, the last. */
  lemma {:induction false} ReadableFailsLast(job: seq<StepSpec>)
    requires StaticReadable(job)
    ensures OnlyLastFails(job)
  {
    ReadableIsUnexposed(job);
    OnlyLastFailsIff(job);
  }

  lemma ZeroIndex(step: StepSpec)
    requires step == StepSpec("verify", "run", "", "", None, map[CaseIndex := "0"])
    ensures !InBlock(step) && Supported(step.kind) && Executable(step.kind) && Slug(step) != ""
    ensures !Judged(step) && IndexText(step) != ""
  {
    TrimOfTrimmed("verify");
    TrimOfTrimmed("run");
    ZeroIsRead();
    assert Get(step.env, CaseIndex) == "0";
  }

  lemma PlottedFails(p: Plot, step: StepSpec, k: nat)
    requires k in p.fails && IndexText(step) != ""
    ensures |PlottedCase(p, step, k)| == 1 && Failed(PlottedCase(p, step, k)[0])
  {}

  /** Two steps with case index 0 can both record failing cases in one run. */
  lemma {:induction false} TwoFailures(step: StepSpec) returns (w: World)
    requires step == StepSpec("verify", "run", "", "", None, map[CaseIndex := "0"])
    ensures var cases := RunAll(w, true, [step, step]).cases;
            |cases| == 2 && Failed(cases[0]) && Failed(cases[1])
  {
    hide RunStep, RunAll, Failed, OutputsAt, PlottedCase, Judged, Executable, Supported, InBlock, Slug, IndexText;
    var p := Plot({0, 1}, 2, "", []);
    w := Plotted(p);
    ZeroIndex(step);
    StartsOnPlot(p);
    PlottedStep(p, step, START);
    var t := RunStep(w, step, START).state;
    PlottedStep(p, step, t);
    PlottedFails(p, step, 0);
    PlottedFails(p, step, 1);
    OneStep(w, step, t);
    assert [step, step][1..] == [step];
    assert RunSteps(w, false, [step, step], START) == RunSteps(w, false, [step], t);
    GuardIsDead(w, [step, step]);
    SuccessIsAllRun(w, [step, step]);
  }

  // ----- Success

  /** The k-th step that is not in a block. */
  function Static(steps: seq<StepSpec>, k: int): Option<StepSpec>
    decreases |steps|
  {
    if steps == [] then None
    else if InBlock(steps[0]) then Static(steps[|Block(steps)|..], k)
    else if k == 0 then Some(steps[0])
    else Static(steps[1..], k - 1)
  }

  /** The n-th command is that of a step whose case may fail unnoticed, if it is still to
      come. */
  predicate Unnoticed(step: Option<StepSpec>) {
    step.None? || !Readable(step.value)
  }

  lemma {:induction false} NoStaticBefore(steps: seq<StepSpec>, k: int)
    requires k < 0
    ensures Static(steps, k) == None
    decreases |steps|
  {
    if steps != [] {
      if InBlock(steps[0]) {
        NoStaticBefore(steps[|Block(steps)|..], k);
      } else {
        NoStaticBefore(steps[1..], k - 1);
      }
    }
  }

  /** Without late outputs a runnable job is run to its end, and a failing case of a step
      that may fail unnoticed stays among the cases. */
  lemma {:induction false} PlottedRun(p: Plot, n: nat, steps: seq<StepSpec>, s: State)
    requires p.fails == {n} && p.late >= s.executed + |steps| && Named(steps, p.names)
    requires OnPlot(p, s) && Runnable(steps) && (s.executed > 0 || steps == [] || !InBlock(steps[0]))
    requires Unnoticed(Static(steps, n - s.executed))
    ensures var r := RunSteps(Plotted(p), false, steps, s);
            && r.end == AllRun
            && (!NoFailing(s.cases) || Static(steps, n - s.executed).Some? ==> !NoFailing(r.state.cases))
    decreases |steps|
  {
    hide RunStep, RunBlock, OutputsAt, BlockName, BlockNames, Executable, Readable, NoFailing;
    if steps != [] {
      NamedRest(steps, p.names);
      var step := steps[0];
      if InBlock(step) {
        var block := Block(steps);
        PlottedSkip(p, block, s);
        PlottedRun(p, n, steps[|block|..], RunBlock(Plotted(p), false, block, s).state);
      } else {
        SupportedExecutes(step.kind);
        if s.executed == n {
          NotReadable(step);
          NoStaticBefore(steps[1..], -1);
          FailingAdded(p, step, n, s.cases);
        }
        PlottedStep(p, step, s);
        CasesGrow(s.cases, PlottedCase(p, step, s.executed));
        PlottedRun(p, n, steps[1..], RunStep(Plotted(p), step, s).state);
      }
    }
  }

  lemma FailingAdded(p: Plot, step: StepSpec, k: nat, before: seq<CaseCompletion>)
    requires k in p.fails && IndexText(step) != ""
    ensures !NoFailing(before + PlottedCase(p, step, k))
  {
    PlottedFails(p, step, k);
    assert (before + PlottedCase(p, step, k))[|before|] == PlottedCase(p, step, k)[0];
  }

  lemma CasesGrow(cases: seq<CaseCompletion>, more: seq<CaseCompletion>)
    ensures !NoFailing(cases) ==> !NoFailing(cases + more)
  {
    if !NoFailing(cases) {
      var i :| 0 <= i < |cases| && Failed(cases[i]);
      assert (cases + more)[i] == cases[i];
    }
  }

  lemma {:induction false} BlockIsDynamic(steps: seq<StepSpec>, group: string, i: nat)
    requires group != "" && i < BlockEnd(steps, group)
    ensures InBlock(steps[i])
    decreases |steps|
  {
    if i > 0 {
      BlockIsDynamic(steps[1..], group, i - 1);
    }
  }

  /** Every step that is not in a block is the k-th such step for some k. */
  lemma {:induction false} StaticIsCounted(steps: seq<StepSpec>, i: nat) returns (k: nat)
    requires i < |steps| && !InBlock(steps[i])
    ensures Static(steps, k) == Some(steps[i])
    decreases |steps|
  {
    if InBlock(steps[0]) {
      var block := Block(steps);
      if i < |block| {
        BlockIsDynamic(steps, Trim(steps[0].group), i);
        assert false;
      }
      k := StaticIsCounted(steps[|block|..], i - |block|);
    } else if i == 0 {
      k := 0;
    } else {
      k := StaticIsCounted(steps[1..], i - 1);
      k := k + 1;
    }
  }

  lemma FailureGoesUnnoticed(job: seq<StepSpec>, i: nat) returns (w: World)
    requires CanSucceed(job) && i < |job| && !InBlock(job[i]) && !Readable(job[i])
    ensures Succeeded(RunAll(w, false, job)) && !NoFailing(RunAll(w, false, job).cases)
  {
    hide RunSteps, NoFailing, Readable, OutputsAt, BlockNames;
    var n := StaticIsCounted(job, i);
    var p := Plot({n}, |job|, "", BlockNames(job));
    w := Plotted(p);
    StartsOnPlot(p);
    PlottedRun(p, n, job, START);
    SuccessIsAllRun(w, job);
  }

  /** Success means that no recorded case failed, exactly when the job cannot succeed at
      all or each of its steps outside blocks has a readable case index or none. */
  lemma HonestIffReadable(job: seq<StepSpec>)
    ensures SuccessIsHonest(job) <==> !CanSucceed(job) || StaticReadable(job)
  {
    forall w: World
      ensures RunAll(w, true, job) == RunAll(w, false, job)
    {
      GuardIsDead(w, job);
    }
    if !CanSucceed(job) || StaticReadable(job) {
      forall w: World | Succeeded(RunAll(w, false, job))
        ensures NoFailing(RunAll(w, false, job).cases)
      {
        OnlyRunnableSucceeds(w, job);
        SuccessIsAllRun(w, job);
        StepsPass(w, job, START);
      }
    } else {
      var i :| 0 <= i < |job| && !InBlock(job[i]) && !Readable(job[i]);
      var w := FailureGoesUnnoticed(job, i);
    }
  }

  /** A step whose case index is 0 can record a failing case in a run that succeeds. */
  lemma ZeroIndexHidesFailure(step: StepSpec) returns (w: World)
    requires step == StepSpec("verify", "run", "", "", None, map[CaseIndex := "0"])
    ensures Succeeded(RunAll(w, true, [step])) && !NoFailing(RunAll(w, true, [step]).cases)
  {
    hide RunAll, NoFailing, Succeeded, Judged, IndexText;
    ZeroIndex(step);
    assert [step][1..] == [] && Runnable([step][1..]);
    w := FailureGoesUnnoticed([step], 0);
    GuardIsDead(w, [step]);
  }
}
