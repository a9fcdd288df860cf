/** What a success takes, and what it says about the recorded cases. */
module RunnerSuccess {
  import opened Text
  import opened CaseVerdict
  import opened RunnerModel
  import opened RunnerCases

  /** Everything run checks about the steps before and between their commands; a block is
      checked by its first step. */
  predicate Runnable(steps: seq<StepSpec>)
    decreases |steps|
  {
    steps == []
    || (if InBlock(steps[0]) then steps[0].dynamic.value.maxItems > 0 && Runnable(steps[|Block(steps)|..])
        else Supported(steps[0].kind) && Slug(steps[0]) != "" && Runnable(steps[1..]))
  }

  /** Some run of the job succeeds: it passes the checks, and does not start with a block,
      whose cases nothing has published. */
  predicate CanSucceed(job: seq<StepSpec>) {
    Runnable(job) && (job == [] || !InBlock(job[0]))
  }

  /** A success of the job means that no recorded case failed. */
  ghost predicate SuccessIsHonest(job: seq<StepSpec>) {
    forall w: World :: Succeeded(RunAll(w, true, job)) ==> NoFailing(RunAll(w, true, job).cases)
  }

  // ----- Jobs that cannot succeed

  lemma {:induction false} AllRunIsRunnable(w: World, steps: seq<StepSpec>, s: State)
    ensures RunSteps(w, false, steps, s).end == AllRun ==> Runnable(steps)
    decreases |steps|
  {
    if steps != [] {
      if InBlock(steps[0]) {
        var block := Block(steps);
        AllRunIsRunnable(w, steps[|block|..], RunBlock(w, false, block, s).state);
      } else {
        AllRunIsRunnable(w, steps[1..], RunStep(w, steps[0], s).state);
      }
    }
  }

  lemma {:induction false} NothingSet(keys: seq<string>)
    ensures FirstSet(map[], keys) == None
    decreases |keys|
  {
    if keys != [] {
      NothingSet(keys[1..]);
    }
  }

  lemma {:induction false} BlockNeedsOutputs(w: World, block: seq<StepSpec>, s: State)
    requires block != [] && InBlock(block[0]) && s.outputs == map[]
    ensures RunBlock(w, false, block, s).err == StepError
  {
    NothingSet(OutputKeys(Trim(block[0].group), "_json"));
    NothingSet(OutputKeys(Trim(block[0].group), "_count"));
  }

  lemma OnlyRunnableSucceeds(w: World, job: seq<StepSpec>)
    ensures Succeeded(RunAll(w, false, job)) ==> CanSucceed(job)
  {
    SuccessIsAllRun(w, job);
    AllRunIsRunnable(w, job, START);
    if job != [] && InBlock(job[0]) {
      BlockNeedsOutputs(w, Block(job), START);
    }
  }

  /** The verdict posted with an honest success: a pass, unless a case has an unknown
      status, which is posted as an error. */
  lemma VerdictOfSuccess(w: World, job: seq<StepSpec>)
    requires Succeeded(RunAll(w, true, job)) && NoFailing(RunAll(w, true, job).cases)
    ensures var s := RunAll(w, true, job);
            s.cases != [] ==>
              && s.trace[|s.trace| - 1].reported == OfCases(AggregateAll(NOTHING, s.cases))
              && StatusOfAll(s.cases) == if Exists(s.cases, Unknown) then Error else Pass
  {
    GuardIsDead(w, job);
    SuccessIsAllRun(w, job);
    var cases := RunAll(w, true, job).cases;
    StatusIsVerdict(cases);
    UnmixedVerdict(cases);
  }
}
