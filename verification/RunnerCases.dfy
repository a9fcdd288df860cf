/** The cases recorded in a run: which verdicts stop it, why the runner never finds a
    failed case behind it, and when a success means that no case has failed. */
module RunnerCases {
  import opened Text
  import opened Numbers
  import opened CaseVerdict
  import opened RunnerModel

  // ----- What a step records

  lemma {:induction false} PublishKeepsCases(w: World, slug: string, outputs: map<string, string>, keys: seq<string>, s: State)
    requires forall k | k in keys :: k in outputs
    ensures Publish(w, slug, outputs, keys, s).state.cases == s.cases
    decreases |keys|
  {
    if keys != [] && keys[0] !in s.outputs {
      var p := Post(w, s, PhaseOutputSet(slug, keys[0], outputs[keys[0]]));
      if p.err == NoError {
        PublishKeepsCases(w, slug, outputs, keys[1..], SetOutputIn(p.state, keys[0], outputs[keys[0]]));
      }
    }
  }

  lemma ExecuteRecords(w: World, slug: string, step: StepSpec, s: State) returns (added: seq<CaseCompletion>)
    ensures Execute(w, slug, step, s).state.cases == s.cases + added && |added| <= 1
    ensures forall tc | tc in added :: tc.index == IndexOf(step) && IndexText(step) != ""
  {
    added := [];
    if Executable(step.kind) {
      var x := w.executions(s.executed);
      var t := Begin(w, slug, s);
      if x.outputs.Some? {
        SortedKeys(x.outputs.value.Keys);
        PublishKeepsCases(w, slug, x.outputs.value, Sorted(x.outputs.value.Keys), t);
      }
      var p := PublishAll(w, slug, x.outputs, t);
      assert p.state.cases == s.cases;
      if x.completion.Written? && x.completion.verification.Some? && IndexText(step) != "" {
        added := [CaseCompletion(IndexOf(step), Trim(Get(step.env, CaseLabel)), x.completion.verification.value, x.completion.evidence)];
      }
    }
  }

  lemma FinishKeepsCases(w: World, slug: string, step: StepSpec, b: Ended)
    ensures Finish(w, slug, step, b).state.cases == b.state.cases
    ensures Finish(w, slug, step, b).err == NoError ==> !JudgedFailure(step, b.state.cases)
  {}

  /** A step records at most one case, under its own index; one that fails and that the
      runner acts on makes the step fail. */
  lemma StepRecords(w: World, step: StepSpec, s: State) returns (added: seq<CaseCompletion>)
    ensures RunStep(w, step, s).state.cases == s.cases + added && |added| <= 1
    ensures forall tc | tc in added :: tc.index == IndexOf(step) && IndexText(step) != ""
    ensures RunStep(w, step, s).err == NoError && Judged(step) ==> forall tc | tc in added :: !Failed(tc)
  {
    added := [];
    if Slug(step) != "" && Post(w, s, StepStarted(Slug(step))).err == NoError {
      var p := Post(w, s, StepStarted(Slug(step)));
      added := ExecuteRecords(w, Slug(step), step, p.state);
      FinishKeepsCases(w, Slug(step), step, Execute(w, Slug(step), step, p.state));
    }
  }

  // ----- The guard is never taken

  /** Cases may fail unnoticed only under an index that no planned step after them has. */
  predicate Settled(cases: seq<CaseCompletion>) {
    forall i | 0 <= i < |cases| :: Failed(cases[i]) ==> cases[i].index <= 0 || cases[i].index == MAX_INT
  }

  lemma StepSettles(w: World, step: StepSpec, s: State)
    requires Settled(s.cases)
    ensures RunStep(w, step, s).err == NoError ==> Settled(RunStep(w, step, s).state.cases)
  {
    var added := StepRecords(w, step, s);
    AtoiRange(IndexText(step));
    assert forall i | |s.cases| <= i < |s.cases + added| :: (s.cases + added)[i] in added;
  }

  lemma {:induction false} LatestIsRecorded(cases: seq<CaseCompletion>, index: int)
    ensures Latest(cases, index).Some? ==> Latest(cases, index).value in cases && Latest(cases, index).value.index == index
    decreases |cases|
  {
    if cases != [] && cases[|cases| - 1].index != index {
      LatestIsRecorded(cases[..|cases| - 1], index);
    }
  }

  lemma NothingBehindFailed(cases: seq<CaseCompletion>, last: int)
    requires Settled(cases) && last < MAX_INT
    ensures !CaseFailed(cases, last)
  {
    LatestIsRecorded(cases, last);
  }

  /** The indices of planned steps never fall. */
  predicate Ascending(steps: seq<StepSpec>, last: int) {
    steps == [] || (last <= IndexOf(steps[0]) && Ascending(steps[1..], IndexOf(steps[0])))
  }

  predicate AllJudged(steps: seq<StepSpec>) {
    forall i | 0 <= i < |steps| :: Judged(steps[i])
  }

  lemma {:induction false} PlannedUnguarded(w: World, group: string, steps: seq<StepSpec>, last: int, s: State)
    requires Settled(s.cases) && Ascending(steps, last)
    ensures RunPlanned(w, true, group, steps, last, s) == RunPlanned(w, false, group, steps, last, s)
    ensures var p := RunPlanned(w, false, group, steps, last, s);
            p.err == NoError ==> Settled(p.state.cases)
    decreases |steps|
  {
    if steps != [] {
      AtoiRange(IndexText(steps[0]));
      if last < MAX_INT {
        NothingBehindFailed(s.cases, last);
      }
      StepSettles(w, steps[0], s);
      var p := RunStep(w, steps[0], s);
      if p.err == NoError && !AbortRequested(p.state.outputs) {
        PlannedUnguarded(w, group, steps[1..], IndexOf(steps[0]), p.state);
      }
    }
  }

  // ----- The planned steps

  predicate NumberedFrom(cases: seq<DynamicCase>, first: nat) {
    forall i | 0 <= i < |cases| :: cases[i].index == first + i
  }

  /** A planned step carries the index of its case. */
  lemma InstanceIndex(x: Expansion, tc: DynamicCase, template: StepSpec)
    requires 0 < tc.index <= MAX_INT
    ensures IndexOf(Instance(x, tc, template)) == tc.index && Judged(Instance(x, tc, template))
  {
    AtoiOfDecimal(tc.index);
    assert Get(Instance(x, tc, template).env, CaseIndex) == Decimal(tc.index);
  }

  lemma {:induction false} InstancesAscend(x: Expansion, tc: DynamicCase, block: seq<StepSpec>, rest: seq<StepSpec>, last: int)
    requires 0 < tc.index <= MAX_INT && last <= tc.index && Ascending(rest, tc.index)
    ensures Ascending(Instances(x, tc, block) + rest, last)
    decreases |block|
  {
    if block == [] {
      assert Instances(x, tc, block) + rest == rest;
    } else {
      var others := Instances(x, tc, block[1..]) + rest;
      InstanceIndex(x, tc, block[0]);
      InstancesAscend(x, tc, block[1..], rest, tc.index);
      assert Instances(x, tc, block) + rest == [Instance(x, tc, block[0])] + others;
    }
  }

  lemma {:induction false} InstancesJudged(x: Expansion, tc: DynamicCase, block: seq<StepSpec>)
    requires 0 < tc.index <= MAX_INT
    ensures AllJudged(Instances(x, tc, block))
    decreases |block|
  {
    if block != [] {
      InstanceIndex(x, tc, block[0]);
      InstancesJudged(x, tc, block[1..]);
    }
  }

  lemma {:induction false} ExpandedAscends(x: Expansion, cases: seq<DynamicCase>, block: seq<StepSpec>, first: nat, last: int)
    requires NumberedFrom(cases, first) && 0 < first && first + |cases| <= MAX_INT + 1 && last <= first
    ensures Ascending(Expanded(x, cases, block), last)
    decreases |cases|
  {
    if cases != [] {
      ExpandedAscends(x, cases[1..], block, first + 1, first);
      InstancesAscend(x, cases[0], block, Expanded(x, cases[1..], block), last);
    }
  }

  lemma {:induction false} ExpandedJudged(x: Expansion, cases: seq<DynamicCase>, block: seq<StepSpec>, first: nat)
    requires NumberedFrom(cases, first) && 0 < first && first + |cases| <= MAX_INT + 1
    ensures AllJudged(Expanded(x, cases, block))
    decreases |cases|
  {
    if cases != [] {
      ExpandedJudged(x, cases[1..], block, first + 1);
      InstancesJudged(x, cases[0], block);
    }
  }

  lemma PlanAscends(w: World, block: seq<StepSpec>, outputs: map<string, string>)
    requires block != [] && InBlock(block[0])
    ensures var cases := CasesForGroup(w, Trim(block[0].group), block[0].dynamic.value.maxItems, outputs);
            cases.Some? ==> Ascending(ConcreteSteps(block, cases.value), 0) && AllJudged(ConcreteSteps(block, cases.value))
  {
    var dynamic, group := block[0].dynamic.value, Trim(block[0].group);
    var cases := CasesForGroup(w, group, dynamic.maxItems, outputs);
    if cases.Some? {
      var x := Expansion(group, dynamic.maxItems, FirstNonEmpty(Trim(dynamic.itemLabel), "case"), |cases.value|);
      ExpandedAscends(x, cases.value, block, 1, 0);
      ExpandedJudged(x, cases.value, block, 1);
    }
  }

  // ----- The guard is never taken, over a whole run

  lemma BlockUnguarded(w: World, block: seq<StepSpec>, s: State)
    requires block != [] && InBlock(block[0]) && Settled(s.cases)
    ensures RunBlock(w, true, block, s) == RunBlock(w, false, block, s)
    ensures RunBlock(w, false, block, s).err == NoError ==> Settled(RunBlock(w, false, block, s).state.cases)
  {
    var group := Trim(block[0].group);
    var cases := CasesForGroup(w, group, block[0].dynamic.value.maxItems, s.outputs);
    PlanAscends(w, block, s.outputs);
    if cases.Some? {
      var planned := ConcreteSteps(block, cases.value);
      PlannedUnguarded(w, group, planned, 0, Post(w, s, GroupExpanded(group, planned)).state);
    }
  }

  lemma {:induction false} StepsUnguarded(w: World, steps: seq<StepSpec>, s: State)
    requires Settled(s.cases)
    ensures RunSteps(w, true, steps, s) == RunSteps(w, false, steps, s)
    decreases |steps|
  {
    if steps != [] {
      if InBlock(steps[0]) {
        var block := Block(steps);
        BlockUnguarded(w, block, s);
        var p := RunBlock(w, false, block, s);
        if Continue(p) == AllRun {
          StepsUnguarded(w, steps[|block|..], p.state);
        }
      } else if Supported(steps[0].kind) {
        StepSettles(w, steps[0], s);
        var p := RunStep(w, steps[0], s);
        if Continue(p) == AllRun {
          StepsUnguarded(w, steps[1..], p.state);
        }
      }
    }
  }

  /** The check for a failed case before a step of the next case never succeeds: a run is
      the same without it. */
  lemma GuardIsDead(w: World, job: seq<StepSpec>)
    ensures RunAll(w, true, job) == RunAll(w, false, job)
  {
    StepsUnguarded(w, job, START);
  }

  // ----- Failing cases and success

  predicate Succeeded(s: State) {
    s.trace != [] && s.trace[|s.trace| - 1].Completed? && s.trace[|s.trace| - 1].conclusion == Success
  }

  lemma SuccessIsAllRun(w: World, job: seq<StepSpec>)
    ensures var r := RunSteps(w, false, job, START);
            && (Succeeded(RunAll(w, false, job)) <==> !w.workspaceFails && !w.checkoutFails && r.end == AllRun)
            && (!w.workspaceFails && !w.checkoutFails ==> RunAll(w, false, job).cases == r.state.cases)
  {}

  /** No case other than the last has failed. */
  predicate OnlyLast(cases: seq<CaseCompletion>) {
    forall i | 0 <= i < |cases| - 1 :: !Failed(cases[i])
  }

  predicate NoFailing(cases: seq<CaseCompletion>) {
    forall i | 0 <= i < |cases| :: !Failed(cases[i])
  }

  /** The step's case index is absent, or one that the runner acts on. */
  predicate Readable(step: StepSpec) {
    IndexText(step) == "" || Judged(step)
  }

  /** A step adds at most a last failing case, and none if it ends well with a readable
      index. */
  lemma StepPasses(w: World, step: StepSpec, s: State)
    requires NoFailing(s.cases)
    ensures var p := RunStep(w, step, s);
            OnlyLast(p.state.cases) && (p.err == NoError && Readable(step) ==> NoFailing(p.state.cases))
  {
    hide RunStep;
    var added := StepRecords(w, step, s);
    assert forall i | |s.cases| <= i < |s.cases + added| :: (s.cases + added)[i] in added;
  }

  lemma {:induction false} PlannedPass(w: World, group: string, steps: seq<StepSpec>, last: int, s: State)
    requires AllJudged(steps) && NoFailing(s.cases)
    ensures var p := RunPlanned(w, false, group, steps, last, s);
            OnlyLast(p.state.cases) && (p.err == NoError ==> NoFailing(p.state.cases))
    decreases |steps|
  {
    hide RunStep;
    if steps != [] {
      StepPasses(w, steps[0], s);
      var p := RunStep(w, steps[0], s);
      if p.err == NoError && !AbortRequested(p.state.outputs) {
        PlannedPass(w, group, steps[1..], IndexOf(steps[0]), p.state);
      }
    }
  }

  lemma BlockPasses(w: World, block: seq<StepSpec>, s: State)
    requires block != [] && InBlock(block[0]) && NoFailing(s.cases)
    ensures var p := RunBlock(w, false, block, s);
            OnlyLast(p.state.cases) && (p.err == NoError ==> NoFailing(p.state.cases))
  {
    hide RunPlanned, ConcreteSteps, CasesForGroup;
    var group := Trim(block[0].group);
    var cases := CasesForGroup(w, group, block[0].dynamic.value.maxItems, s.outputs);
    PlanAscends(w, block, s.outputs);
    if cases.Some? {
      var planned := ConcreteSteps(block, cases.value);
      PlannedPass(w, group, planned, 0, Post(w, s, GroupExpanded(group, planned)).state);
    }
  }

  predicate StaticReadable(steps: seq<StepSpec>) {
    forall i | 0 <= i < |steps| :: InBlock(steps[i]) || Readable(steps[i])
  }

  lemma {:induction false} StepsPass(w: World, steps: seq<StepSpec>, s: State)
    requires StaticReadable(steps) && NoFailing(s.cases)
    ensures var r := RunSteps(w, false, steps, s);
            r.end == AllRun || r.end == AbortedRun ==> NoFailing(r.state.cases)
    decreases |steps|
  {
    if steps != [] {
      if InBlock(steps[0]) {
        var block := Block(steps);
        BlockPasses(w, block, s);
        var p := RunBlock(w, false, block, s);
        if Continue(p) == AllRun {
          StepsPass(w, steps[|block|..], p.state);
        }
      } else if Supported(steps[0].kind) {
        StepPasses(w, steps[0], s);
        var p := RunStep(w, steps[0], s);
        if Continue(p) == AllRun {
          StepsPass(w, steps[1..], p.state);
        }
      }
    }
  }
}
