/** Failing cases that are not the last recorded: the jobs in which they are possible. */
module RunnerFailures {
  import opened Text
  import opened Numbers
  import opened CaseVerdict
  import opened RunnerModel
  import opened RunnerCases

  /** In every world, at most one recorded case of the job fails, and it is the last. */
  ghost predicate OnlyLastFails(job: seq<StepSpec>) {
    forall w: World :: OnlyLast(RunAll(w, true, job).cases)
  }

  function BlockName(block: seq<StepSpec>): string
    requires block != []
  {
    NormalizeOutputKey(Trim(block[0].group))
  }

  predicate Positive(block: seq<StepSpec>)
    requires block != [] && InBlock(block[0])
  {
    block[0].dynamic.value.maxItems > 0
  }

  /** A step can still record a case, in some world. Blocks that are passed because their
      first step cannot be executed have had no cases, and until another step outside
      blocks publishes something, neither have blocks of the same name; these names are
      idle. */
  predicate CanRecord(steps: seq<StepSpec>, idle: set<string>)
    decreases |steps|
  {
    if steps == [] then false
    else if InBlock(steps[0]) then
      var block := Block(steps);
      Positive(block) &&
      ((Executable(block[0].kind) && BlockName(block) !in idle) || CanRecord(steps[|block|..], idle + {BlockName(block)}))
    else
      Supported(steps[0].kind) && Slug(steps[0]) != "" && (IndexText(steps[0]) != "" || CanRecord(steps[1..], {}))
  }

  /** A step outside blocks whose case may fail unnoticed can be reached, and after it a
      step that can record a case. */
  predicate Exposed(steps: seq<StepSpec>)
    decreases |steps|
  {
    if steps == [] then false
    else if InBlock(steps[0]) then Positive(Block(steps)) && Exposed(steps[|Block(steps)|..])
    else
      && Supported(steps[0].kind) && Slug(steps[0]) != ""
      && ((!Readable(steps[0]) && CanRecord(steps[1..], {})) || Exposed(steps[1..]))
  }

  // ----- What runs record

  lemma StepGrows(w: World, step: StepSpec, s: State)
    ensures s.cases <= RunStep(w, step, s).state.cases
  {
    hide RunStep;
    var added := StepRecords(w, step, s);
  }

  lemma {:induction false} PlannedGrows(w: World, group: string, steps: seq<StepSpec>, last: int, s: State)
    ensures s.cases <= RunPlanned(w, false, group, steps, last, s).state.cases
    decreases |steps|
  {
    hide RunStep;
    if steps != [] {
      StepGrows(w, steps[0], s);
      var p := RunStep(w, steps[0], s);
      if p.err == NoError && !AbortRequested(p.state.outputs) {
        PlannedGrows(w, group, steps[1..], IndexOf(steps[0]), p.state);
      }
    }
  }

  lemma BlockGrows(w: World, block: seq<StepSpec>, s: State)
    requires block != [] && InBlock(block[0])
    ensures s.cases <= RunBlock(w, false, block, s).state.cases
  {
    hide RunPlanned, ConcreteSteps, CasesForGroup;
    var group := Trim(block[0].group);
    var cases := CasesForGroup(w, group, block[0].dynamic.value.maxItems, s.outputs);
    if cases.Some? {
      var planned := ConcreteSteps(block, cases.value);
      PlannedGrows(w, group, planned, 0, Post(w, s, GroupExpanded(group, planned)).state);
    }
  }

  lemma {:induction false} StepsGrow(w: World, steps: seq<StepSpec>, s: State)
    ensures s.cases <= RunSteps(w, false, steps, s).state.cases
    decreases |steps|
  {
    hide RunStep, RunBlock;
    if steps != [] {
      if InBlock(steps[0]) {
        var block := Block(steps);
        BlockGrows(w, block, s);
        StepsGrow(w, steps[|block|..], RunBlock(w, false, block, s).state);
      } else {
        StepGrows(w, steps[0], s);
        StepsGrow(w, steps[1..], RunStep(w, steps[0], s).state);
      }
    }
  }

  /** Only a step with a slug, a type and a case index can record, and only one with a slug
      and a type can end well. */
  lemma StepNeeds(w: World, step: StepSpec, s: State)
    ensures var p := RunStep(w, step, s);
            && (p.err == NoError ==> Slug(step) != "" && Executable(step.kind))
            && (|p.state.cases| > |s.cases| ==> Slug(step) != "" && Executable(step.kind) && IndexText(step) != "")
  {
    hide PublishAll, Collect;
    var added := StepRecords(w, step, s);
    if added != [] { assert added[0] in added; }
    var slug := Slug(step);
    if slug != "" && !Executable(step.kind) {
      var p := Post(w, s, StepStarted(slug));
      FinishKeepsCases(w, slug, step, Execute(w, slug, step, p.state));
    }
  }

  // ----- Blocks without cases

  /** What is published means that a group of the name has no cases. */
  predicate ZeroFor(w: World, name: string, outputs: map<string, string>) {
    var json := FirstSet(outputs, OutputKeysOf(name, "_json"));
    if json.Some? then w.decode(json.value) == Some([])
    else
      var text := FirstSet(outputs, OutputKeysOf(name, "_count"));
      text.Some? && Atoi(text.value) == Parsed(0, true)
  }

  lemma ZeroIff(w: World, group: string, maxItems: int, outputs: map<string, string>)
    requires maxItems > 0
    ensures CasesForGroup(w, group, maxItems, outputs) == Some([]) <==> ZeroFor(w, NormalizeOutputKey(group), outputs)
  {
    hide FirstSet, OutputKeysOf, Atoi;
  }

  lemma FirstPlanned(block: seq<StepSpec>, cases: seq<DynamicCase>)
    requires block != [] && InBlock(block[0]) && cases != []
    ensures ConcreteSteps(block, cases) != []
    ensures Executable(ConcreteSteps(block, cases)[0].kind) <==> Executable(block[0].kind)
    ensures cases[0].index == 1 ==> IndexText(ConcreteSteps(block, cases)[0]) != ""
    ensures Slug(ConcreteSteps(block, cases)[0]) != ""
  {
    hide Expanded, Instance;
    var dynamic := block[0].dynamic.value;
    var x := Expansion(Trim(block[0].group), dynamic.maxItems, FirstNonEmpty(Trim(dynamic.itemLabel), "case"), |cases|);
    FirstInstance(x, cases, block);
    InstanceRuns(x, cases[0], block[0]);
  }

  lemma FirstInstance(x: Expansion, cases: seq<DynamicCase>, block: seq<StepSpec>)
    requires block != [] && cases != []
    ensures Expanded(x, cases, block) != [] && Expanded(x, cases, block)[0] == Instance(x, cases[0], block[0])
  {}

  lemma InstanceRuns(x: Expansion, tc: DynamicCase, template: StepSpec)
    ensures Executable(Instance(x, tc, template).kind) <==> Executable(template.kind)
    ensures tc.index == 1 ==> IndexText(Instance(x, tc, template)) != ""
    ensures Slug(Instance(x, tc, template)) != ""
  {
    TrimOfTrimmed("run");
    if tc.index == 1 {
      InstanceIndex(x, tc, template);
    }
    var slug := template.slug + "-case-" + Decimal2(tc.index);
    assert slug[|template.slug|] == '-';
    TrimBlank(slug);
  }

  ghost predicate AllIdle(w: World, idle: set<string>, outputs: map<string, string>) {
    forall name | name in idle :: ZeroFor(w, name, outputs)
  }

  /** A block that records, or is passed with cases, starts with a step that can be executed
      and does not have an idle name; one that is passed otherwise has no cases. */
  lemma BlockNeeds(w: World, block: seq<StepSpec>, s: State, idle: set<string>)
    requires block != [] && InBlock(block[0]) && AllIdle(w, idle, s.outputs)
    ensures var p := RunBlock(w, false, block, s);
            var records := Executable(block[0].kind) && BlockName(block) !in idle;
            && (|p.state.cases| > |s.cases| ==> Positive(block) && records)
            && (p.err == NoError ==>
                  Positive(block) && (records || (p.state.outputs == s.outputs && ZeroFor(w, BlockName(block), s.outputs))))
  {
    hide RunPlanned, ConcreteSteps, CasesForGroup, ZeroFor, Executable, NormalizeOutputKey;
    var group, maxItems := Trim(block[0].group), block[0].dynamic.value.maxItems;
    var cases := CasesForGroup(w, group, maxItems, s.outputs);
    if maxItems > 0 && cases.Some? {
      ZeroIff(w, group, maxItems, s.outputs);
      var planned := ConcreteSteps(block, cases.value);
      if cases.value != [] {
        FirstPlanned(block, cases.value);
        var t := Post(w, s, GroupExpanded(group, planned)).state;
        if !Executable(block[0].kind) {
          NothingPlannedRuns(w, group, planned, t);
        }
      }
    }
  }

  lemma NothingPlannedRuns(w: World, group: string, planned: seq<StepSpec>, s: State)
    requires planned != [] && !Executable(planned[0].kind)
    ensures var p := RunPlanned(w, false, group, planned, 0, s);
            p.err != NoError && p.state.cases == s.cases
  {
    hide RunStep, Executable;
    StepNeeds(w, planned[0], s);
    StepGrows(w, planned[0], s);
  }

  // ----- Only exposed jobs have failing cases before the last

  lemma {:induction false} RecordingIsPossible(w: World, steps: seq<StepSpec>, s: State, idle: set<string>)
    requires AllIdle(w, idle, s.outputs)
    ensures |RunSteps(w, false, steps, s).state.cases| > |s.cases| ==> CanRecord(steps, idle)
    decreases |steps|
  {
    hide RunStep, RunBlock, ZeroFor;
    if steps != [] {
      if InBlock(steps[0]) {
        var block := Block(steps);
        var p := RunBlock(w, false, block, s);
        BlockNeeds(w, block, s, idle);
        BlockGrows(w, block, s);
        if Continue(p) == AllRun && AllIdle(w, idle + {BlockName(block)}, p.state.outputs) {
          RecordingIsPossible(w, steps[|block|..], p.state, idle + {BlockName(block)});
        }
      } else if Supported(steps[0].kind) {
        var p := RunStep(w, steps[0], s);
        StepNeeds(w, steps[0], s);
        StepGrows(w, steps[0], s);
        if Continue(p) == AllRun {
          RecordingIsPossible(w, steps[1..], p.state, {});
        }
      }
    }
  }

  lemma {:induction false} FailingIsExposed(w: World, steps: seq<StepSpec>, s: State)
    requires NoFailing(s.cases)
    ensures !OnlyLast(RunSteps(w, false, steps, s).state.cases) ==> Exposed(steps)
    decreases |steps|
  {
    hide RunStep, RunBlock, CanRecord;
    if steps != [] {
      if InBlock(steps[0]) {
        var block := Block(steps);
        var p := RunBlock(w, false, block, s);
        BlockPasses(w, block, s);
        BlockNeeds(w, block, s, {});
        if Continue(p) == AllRun {
          FailingIsExposed(w, steps[|block|..], p.state);
        }
      } else if Supported(steps[0].kind) {
        var p := RunStep(w, steps[0], s);
        StepPasses(w, steps[0], s);
        StepNeeds(w, steps[0], s);
        if Continue(p) == AllRun {
          AfterStep(w, steps, s);
        }
      }
    }
  }

  lemma {:induction false} AfterStep(w: World, steps: seq<StepSpec>, s: State)
    requires NoFailing(s.cases) && steps != [] && !InBlock(steps[0]) && Supported(steps[0].kind)
    requires Continue(RunStep(w, steps[0], s)) == AllRun && Slug(steps[0]) != ""
    ensures !OnlyLast(RunSteps(w, false, steps, s).state.cases) ==> Exposed(steps)
    decreases |steps|, 0
  {
    hide RunStep, RunBlock, CanRecord, Readable, Failed;
    var p, rest := RunStep(w, steps[0], s), steps[1..];
    StepPasses(w, steps[0], s);
    if NoFailing(p.state.cases) {
      FailingIsExposed(w, rest, p.state);
    } else {
      StepsGrow(w, rest, p.state);
      RecordingIsPossible(w, rest, p.state, {});
    }
  }
}
