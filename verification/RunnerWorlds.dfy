/** Worlds in which nothing goes wrong but the cases of some commands, and in which blocks
    have cases as wanted. */
module RunnerWorlds {
  import opened Text
  import opened Numbers
  import opened CaseVerdict
  import opened RunnerModel
  import opened RunnerCases
  import opened RunnerFailures
  import OutputFile

  // ----- Verdicts, types and numbers

  const PASS := Verification("pass", [], map[], [])
  const FAIL := Verification("fail", [], map[], [])
  const COUNT := "test_cases_count"

  lemma SupportedExecutes(kind: string)
    requires Supported(kind)
    ensures Executable(kind)
  {
    TrimOfTrimmed("run");
    TrimOfTrimmed("agent");
  }

  lemma {:induction false} NoneOfThem(outputs: map<string, string>, keys: seq<string>)
    requires forall key | key in keys :: key !in outputs
    ensures FirstSet(outputs, keys) == None
    decreases |keys|
  {
    if keys != [] {
      NoneOfThem(outputs, keys[1..]);
    }
  }

  lemma ZeroIsRead()
    ensures Trim("0") == "0" && Atoi("0") == Parsed(0, true)
  {
    assert Decimal(0) == "0";
    AtoiOfDecimal(0);
  }

  // ----- An output that one name reads and another does not

  const CASES := "test_cases"

  function EvadingStem(n: string, b: string): string {
    if |n| >= |b| then "glimmung_dynamic_" + n + "_cases"
    else if n != CASES then n
    else if b != "test_cases_cases" then "test_cases_cases"
    else "glimmung_dynamic_test_cases"
  }

  function Evading(n: string, b: string): string {
    EvadingStem(n, b) + "_json"
  }

  /** The names without their suffix. */
  function Stems(name: string): seq<string> {
    (if name != CASES then [CASES] else [])
    + [name, name + "_cases", "glimmung_dynamic_" + name, "glimmung_dynamic_" + name + "_cases"]
  }

  lemma StemsAreKeys(name: string, suffix: string)
    ensures |OutputKeysOf(name, suffix)| == |Stems(name)|
    ensures forall i | 0 <= i < |Stems(name)| :: OutputKeysOf(name, suffix)[i] == Stems(name)[i] + suffix
  {}

  lemma SameStem(a: string, b: string, suffix: string)
    requires a + suffix == b + suffix
    ensures a == b
  {
    assert |a| == |b|;
    assert a == (a + suffix)[..|a|] && b == (b + suffix)[..|b|];
  }

  lemma SameRest(prefix: string, a: string, b: string)
    requires prefix + a == prefix + b
    ensures a == b
  {
    assert a == (prefix + a)[|prefix|..] && b == (prefix + b)[|prefix|..];
  }

  lemma LongStems(n: string, b: string)
    requires n != b && |n| >= |b|
    ensures EvadingStem(n, b) in Stems(n) && EvadingStem(n, b) !in Stems(b)
  {
    var g, c := "glimmung_dynamic_", "_cases";
    var stem := g + n + c;
    assert Stems(n)[|Stems(n)| - 1] == stem;
    assert |CASES| == 10 && |g| == 17 && |c| == 6;
    if g + b + c == stem {
      SameStem(g + b, g + n, c);
      SameRest(g, b, n);
    }
  }

  lemma ShortStems(n: string, b: string)
    requires |n| < |b|
    ensures EvadingStem(n, b) in Stems(n) && EvadingStem(n, b) !in Stems(b)
  {
    var g, c := "glimmung_dynamic_", "_cases";
    assert |CASES| == 10 && |g| == 17 && |c| == 6;
    var stem := EvadingStem(n, b);
    if n != CASES {
      assert Stems(n)[1] == n;
    } else if b != "test_cases_cases" {
      assert CASES + c == stem && Stems(n)[1] == stem;
      assert (g + b)[0] == 'g' && (g + b + c)[0] == 'g' && stem[0] == 't';
      if b + c == stem { SameStem(b, CASES, c); }
    } else {
      assert g + CASES == stem && Stems(n)[2] == stem;
      assert b[0] == 't' && (b + c)[0] == 't' && stem[0] == 'g';
      assert |b| == 16 && |stem| == 27;
    }
  }

  lemma Evades(n: string, b: string)
    requires n != b
    ensures Evading(n, b) in OutputKeysOf(n, "_json") && Evading(n, b) !in OutputKeysOf(b, "_json")
  {
    hide OutputKeysOf, Stems, EvadingStem;
    StemsAreKeys(n, "_json");
    StemsAreKeys(b, "_json");
    if |n| >= |b| { LongStems(n, b); } else { ShortStems(n, b); }
    var i :| 0 <= i < |Stems(n)| && Stems(n)[i] == EvadingStem(n, b);
    assert OutputKeysOf(n, "_json")[i] == Evading(n, b);
    if j :| 0 <= j < |OutputKeysOf(b, "_json")| && OutputKeysOf(b, "_json")[j] == Evading(n, b) {
      SameStem(Stems(b)[j], EvadingStem(n, b), "_json");
    }
  }

  // ----- The worlds

  function LastCount(b: string): string {
    "glimmung_dynamic_" + b + "_cases" + "_count"
  }

  /** No cases for any of the names other than b. */
  function NoCasesBut(names: seq<string>, b: string): map<string, string> {
    if names == [] then map[]
    else
      var rest := NoCasesBut(names[1..], b);
      if names[0] == b then rest else rest[Evading(names[0], b) := "[]"]
  }

  /** What the first command publishes: no block has cases. */
  function Early(names: seq<string>, b: string): map<string, string> {
    NoCasesBut(names, b)[LastCount(b) := "0"]
  }

  /** What a later command publishes: blocks of the name b have one case. */
  const LATE := map[COUNT := "1"]

  datatype Plot = Plot(fails: set<nat>, late: nat, b: string, names: seq<string>)

  function Published(p: Plot, k: nat): map<string, string> {
    (if k == 0 then Early(p.names, p.b) else map[]) + (if k == p.late then LATE else map[])
  }

  function PlottedExecution(p: Plot, k: nat): Execution {
    Execution(0, false, 0, Some(Published(p, k)), Written(Some(if k in p.fails then FAIL else PASS), []))
  }

  /** Nothing goes wrong but the cases of some commands. */
  function Plotted(p: Plot): World {
    World(false, false, false, false, (k: nat) => PlottedExecution(p, k), _ => false, _ => Some([]))
  }

  /** The outputs after k commands. */
  function OutputsAt(p: Plot, k: nat): map<string, string> {
    (if k > 0 then Early(p.names, p.b) else map[]) + (if k > p.late then LATE else map[])
  }

  predicate Ends(key: string, suffix: string) {
    |key| >= |suffix| && key[|key| - |suffix|..] == suffix
  }

  lemma LastChar(key: string, suffix: string)
    requires suffix != "" && Ends(key, suffix)
    ensures key != "" && key[|key| - 1] == suffix[|suffix| - 1]
  {
    assert key[|key| - |suffix|..][|suffix| - 1] == key[|key| - 1];
  }

  lemma EndsWith(stem: string, suffix: string)
    ensures Ends(stem + suffix, suffix)
  {}

  lemma {:induction false} NoCasesButKeys(names: seq<string>, b: string)
    ensures forall k | k in NoCasesBut(names, b) :: Ends(k, "_json") && NoCasesBut(names, b)[k] == "[]" && k !in OutputKeysOf(b, "_json")
    ensures forall n | n in names && n != b :: Evading(n, b) in NoCasesBut(names, b)
  {
    hide Evading, Ends, OutputKeysOf;
    if names != [] {
      NoCasesButKeys(names[1..], b);
      if names[0] != b {
        Evades(names[0], b);
        EvadingEnds(names[0], b);
      }
    }
  }

  lemma EvadingEnds(n: string, b: string)
    ensures Ends(Evading(n, b), "_json")
  {
    EndsWith(EvadingStem(n, b), "_json");
  }

  lemma DifferentEnds(key: string)
    requires Ends(key, "_json")
    ensures !Ends(key, "_count") && key != OutputFile.ABORT_REASON
  {
    LastChar(key, "_json");
    assert OutputFile.ABORT_REASON[7..] == "eason";
    if Ends(key, "_count") {
      LastChar(key, "_count");
    }
  }

  lemma CountKeys(b: string)
    ensures Ends(LastCount(b), "_count") && Ends(COUNT, "_count") && LastCount(b) != COUNT
    ensures LastCount(b) != OutputFile.ABORT_REASON && COUNT != OutputFile.ABORT_REASON
  {
    EndsWith("glimmung_dynamic_" + b + "_cases", "_count");
    EndsWith(CASES, "_count");
    assert CASES + "_count" == COUNT;
    assert |LastCount(b)| >= 29 && |COUNT| == 16 && |OutputFile.ABORT_REASON| == 12;
  }

  /** What is set when: the early and the late outputs do not meet. */
  lemma OutputsGrow(p: Plot, k: nat)
    ensures forall key | key in Published(p, k) :: key !in OutputsAt(p, k)
    ensures OutputsAt(p, k + 1) == OutputsAt(p, k) + Published(p, k)
    ensures OutputFile.ABORT_REASON !in OutputsAt(p, k)
  {
    hide Ends, LastCount, NoCasesBut;
    var early := Early(p.names, p.b);
    CountKeys(p.b);
    NoCasesButKeys(p.names, p.b);
    forall key | key in NoCasesBut(p.names, p.b)
      ensures !Ends(key, "_count") && key != OutputFile.ABORT_REASON
    {
      DifferentEnds(key);
    }
    assert COUNT !in early;
    assert LATE.Keys == {COUNT};
  }

  // ----- A step

  lemma PlottedPosts(p: Plot, s: State, event: Event)
    ensures var o := Post(Plotted(p), s, event);
            o.err == NoError && o.state.outputs == s.outputs && o.state.cases == s.cases && o.state.executed == s.executed
  {}

  predicate DistinctKeys(keys: seq<string>) {
    forall i, j | 0 <= i < j < |keys| :: keys[i] != keys[j]
  }

  lemma {:induction false} SortedIsDistinct(keys: set<string>)
    ensures DistinctKeys(Sorted(keys))
    decreases |keys|
  {
    if keys != {} {
      LeastIsUnique(keys);
      var first := Sorted(keys)[0];
      var rest := keys - {first};
      SortedKeys(rest);
      SortedIsDistinct(rest);
      assert Sorted(keys) == [first] + Sorted(rest);
      assert forall k | k in Sorted(rest) :: k != first;
    }
  }

  /** Nothing stands in the way of publishing new outputs. */
  lemma {:induction false} PlottedPublish(p: Plot, slug: string, outputs: map<string, string>, keys: seq<string>, s: State)
    requires DistinctKeys(keys) && forall k | k in keys :: k in outputs && k !in s.outputs
    ensures var o := Publish(Plotted(p), slug, outputs, keys, s);
            && o.err == NoError && o.state.executed == s.executed && o.state.cases == s.cases
            && (forall k :: k in o.state.outputs <==> k in s.outputs || k in keys)
            && (forall k | k in s.outputs :: o.state.outputs[k] == s.outputs[k])
            && (forall k | k in keys :: o.state.outputs[k] == outputs[k])
    decreases |keys|
  {
    if keys != [] {
      var event := PhaseOutputSet(slug, keys[0], outputs[keys[0]]);
      PlottedPosts(p, s, event);
      var t := SetOutputIn(Post(Plotted(p), s, event).state, keys[0], outputs[keys[0]]);
      PlottedPublish(p, slug, outputs, keys[1..], t);
      assert forall k | k in keys :: k == keys[0] || k in keys[1..];
    }
  }

  /** Between the steps of a run in such a world. */
  predicate OnPlot(p: Plot, s: State) {
    s.outputs == OutputsAt(p, s.executed)
  }

  lemma PlottedPublishes(p: Plot, slug: string, s: State)
    requires OnPlot(p, s)
    ensures var o := PublishAll(Plotted(p), slug, PlottedExecution(p, s.executed).outputs, Begin(Plotted(p), slug, s));
            o.err == NoError && o.state.executed == s.executed + 1 && o.state.cases == s.cases && OnPlot(p, o.state)
  {
    hide Publish, Published, OutputsAt;
    var outputs, t := Published(p, s.executed), Begin(Plotted(p), slug, s);
    OutputsGrow(p, s.executed);
    SortedKeys(outputs.Keys);
    SortedIsDistinct(outputs.Keys);
    PlottedPublish(p, slug, outputs, Sorted(outputs.Keys), t);
    var next := Publish(Plotted(p), slug, outputs, Sorted(outputs.Keys), t).state.outputs;
    assert next == s.outputs + outputs;
  }

  function PlottedCase(p: Plot, step: StepSpec, k: nat): seq<CaseCompletion> {
    if IndexText(step) == "" then []
    else [CaseCompletion(IndexOf(step), Trim(Get(step.env, CaseLabel)), if k in p.fails then FAIL else PASS, [])]
  }

  lemma PlottedExecutes(p: Plot, slug: string, step: StepSpec, s: State)
    requires OnPlot(p, s) && Executable(step.kind)
    ensures var b := Execute(Plotted(p), slug, step, s);
            && !b.failed && !b.outputFailed && b.state.executed == s.executed + 1
            && OnPlot(p, b.state) && b.state.cases == s.cases + PlottedCase(p, step, s.executed)
  {
    hide PublishAll, Begin, Executable;
    PlottedPublishes(p, slug, s);
  }

  lemma PlottedJudged(p: Plot, step: StepSpec, k: nat, cases: seq<CaseCompletion>)
    requires k !in p.fails || !Judged(step)
    ensures !JudgedFailure(step, cases + PlottedCase(p, step, k))
  {
    if Judged(step) {
      assert IndexText(step) != "";
      var tc := PlottedCase(p, step, k)[0];
      assert Latest(cases + [tc], tc.index) == Some(tc);
    }
  }

  lemma PlottedStep(p: Plot, step: StepSpec, s: State)
    requires OnPlot(p, s) && Executable(step.kind) && Slug(step) != "" && (s.executed !in p.fails || !Judged(step))
    ensures var o := RunStep(Plotted(p), step, s);
            && Continue(o) == AllRun && OnPlot(p, o.state) && o.state.executed == s.executed + 1
            && o.state.cases == s.cases + PlottedCase(p, step, s.executed)
  {
    hide Execute, OutputsAt, JudgedFailure, Executable;
    var slug := Slug(step);
    PlottedPosts(p, s, StepStarted(slug));
    var t := Post(Plotted(p), s, StepStarted(slug)).state;
    PlottedExecutes(p, slug, step, t);
    var b := Execute(Plotted(p), slug, step, t);
    PlottedJudged(p, step, s.executed, s.cases);
    OutputsGrow(p, b.state.executed);
    PlottedPosts(p, b.state, StepCompleted(slug, b.exitCode));
  }

  /** A step with a case index records, whatever becomes of it. */
  lemma PlottedRecords(p: Plot, step: StepSpec, s: State)
    requires OnPlot(p, s) && Executable(step.kind) && Slug(step) != "" && IndexText(step) != ""
    ensures |RunStep(Plotted(p), step, s).state.cases| > |s.cases|
  {
    hide Execute, OutputsAt, Executable, Finish;
    var slug := Slug(step);
    PlottedPosts(p, s, StepStarted(slug));
    var t := Post(Plotted(p), s, StepStarted(slug)).state;
    PlottedExecutes(p, slug, step, t);
    FinishKeepsCases(Plotted(p), slug, step, Execute(Plotted(p), slug, step, t));
  }

  // ----- Blocks

  lemma {:induction false} AllTheSame(outputs: map<string, string>, keys: seq<string>, text: string)
    requires text != "" && Trim(text) == text
    requires (exists k :: k in keys && k in outputs) && forall k | k in keys && k in outputs :: outputs[k] == text
    ensures FirstSet(outputs, keys) == Some(text)
    decreases |keys|
  {
    if keys[0] !in outputs {
      var k :| k in keys && k in outputs;
      assert k in keys[1..];
      AllTheSame(outputs, keys[1..], text);
    }
  }

  /** The keys that a name reads for a kind of output end as that kind does. */
  lemma KeysEnd(name: string, suffix: string)
    ensures forall k | k in OutputKeysOf(name, suffix) :: Ends(k, suffix)
  {
    hide OutputKeysOf, Stems, Ends;
    StemsAreKeys(name, suffix);
    forall k | k in OutputKeysOf(name, suffix)
      ensures Ends(k, suffix)
    {
      var i :| 0 <= i < |OutputKeysOf(name, suffix)| && OutputKeysOf(name, suffix)[i] == k;
      EndsWith(Stems(name)[i], suffix);
    }
  }

  lemma TextsAreRead()
    ensures Trim("[]") == "[]" && Trim("0") == "0" && Trim("1") == "1"
    ensures Atoi("0") == Parsed(0, true) && Atoi("1") == Parsed(1, true)
  {
    TrimOfTrimmed("[]");
    ZeroIsRead();
    assert Decimal(1) == "1";
    AtoiOfDecimal(1);
  }

  /** JSON outputs are those of the names other than b; b reads none of them. */
  lemma JsonOutputs(p: Plot, k: nat)
    ensures forall key | key in OutputsAt(p, k) && Ends(key, "_json") :: OutputsAt(p, k)[key] == "[]" && key !in OutputKeysOf(p.b, "_json")
    ensures k > 0 ==> forall n | n in p.names && n != p.b :: Evading(n, p.b) in OutputsAt(p, k)
    ensures 0 < k <= p.late ==> LastCount(p.b) in OutputsAt(p, k)
    ensures k <= p.late ==> forall key | key in OutputsAt(p, k) && Ends(key, "_count") :: OutputsAt(p, k)[key] == "0"
  {
    hide Ends, LastCount, NoCasesBut, Evading, OutputKeysOf;
    CountKeys(p.b);
    NoCasesButKeys(p.names, p.b);
    forall key | Ends(key, "_json")
      ensures !Ends(key, "_count")
    {
      DifferentEnds(key);
    }
    forall n | n in p.names && n != p.b
      ensures Ends(Evading(n, p.b), "_json")
    {
      EvadingEnds(n, p.b);
    }
  }

  lemma OtherNamesAreZero(p: Plot, k: nat, name: string)
    requires k > 0 && name in p.names && name != p.b
    ensures ZeroFor(Plotted(p), name, OutputsAt(p, k))
  {
    hide Ends, LastCount, OutputsAt, OutputKeysOf, FirstSet, Evading, Trim, Atoi;
    TextsAreRead();
    JsonOutputs(p, k);
    KeysEnd(name, "_json");
    Evades(name, p.b);
    assert Evading(name, p.b) in OutputKeysOf(name, "_json") && Evading(name, p.b) in OutputsAt(p, k);
    AllTheSame(OutputsAt(p, k), OutputKeysOf(name, "_json"), "[]");
  }

  lemma NoJson(p: Plot, k: nat)
    ensures FirstSet(OutputsAt(p, k), OutputKeysOf(p.b, "_json")) == None
  {
    hide Ends, OutputsAt, OutputKeysOf, FirstSet;
    JsonOutputs(p, k);
    KeysEnd(p.b, "_json");
    NoneOfThem(OutputsAt(p, k), OutputKeysOf(p.b, "_json"));
  }

  lemma NameIsZeroEarly(p: Plot, k: nat)
    requires 0 < k <= p.late
    ensures ZeroFor(Plotted(p), p.b, OutputsAt(p, k))
  {
    hide Ends, LastCount, OutputsAt, OutputKeysOf, FirstSet, Trim, Atoi;
    TextsAreRead();
    NoJson(p, k);
    JsonOutputs(p, k);
    KeysEnd(p.b, "_count");
    LastCountIsKey(p.b);
    assert LastCount(p.b) in OutputKeysOf(p.b, "_count") && LastCount(p.b) in OutputsAt(p, k);
    AllTheSame(OutputsAt(p, k), OutputKeysOf(p.b, "_count"), "0");
  }

  lemma LastCountIsKey(b: string)
    ensures LastCount(b) in OutputKeysOf(b, "_count")
  {
    var keys := OutputKeysOf(b, "_count");
    assert keys[|keys| - 1] == LastCount(b);
  }

  lemma NameHasOneLate(p: Plot, k: nat, group: string, maxItems: int)
    requires k > p.late && NormalizeOutputKey(group) == p.b && maxItems > 0
    ensures CasesForGroup(Plotted(p), group, maxItems, OutputsAt(p, k)) == Some(Counted(1))
  {
    hide OutputKeysOf, FirstSet, Trim, Atoi, NormalizeOutputKey, Counted;
    TextsAreRead();
    NoJson(p, k);
    LateIsFirst(p, k);
  }

  lemma LateIsFirst(p: Plot, k: nat)
    requires k > p.late
    ensures FirstSet(OutputsAt(p, k), OutputKeysOf(p.b, "_count")) == Some("1")
  {
    var keys := OutputKeysOf(p.b, "_count");
    assert CASES + "_count" == COUNT && keys[0] == COUNT;
    TextsAreRead();
    assert COUNT in OutputsAt(p, k) && OutputsAt(p, k)[COUNT] == "1";
  }

  /** A block is passed without cases: one of another name, or before the late outputs. */
  lemma PlottedSkip(p: Plot, block: seq<StepSpec>, s: State)
    requires block != [] && InBlock(block[0]) && Positive(block) && OnPlot(p, s) && s.executed > 0
    requires BlockName(block) in p.names && (BlockName(block) != p.b || s.executed <= p.late)
    ensures var o := RunBlock(Plotted(p), false, block, s);
            Continue(o) == AllRun && OnPlot(p, o.state) && o.state.executed == s.executed && o.state.cases == s.cases
  {
    hide ZeroFor, OutputsAt, CasesForGroup, RunPlanned, NormalizeOutputKey;
    var group := Trim(block[0].group);
    if BlockName(block) != p.b {
      OtherNamesAreZero(p, s.executed, BlockName(block));
    } else {
      NameIsZeroEarly(p, s.executed);
    }
    ZeroIff(Plotted(p), group, block[0].dynamic.value.maxItems, s.outputs);
    OutputsGrow(p, s.executed);
    var planned := ConcreteSteps(block, []);
    PlottedPosts(p, s, GroupExpanded(group, planned));
    PlottedPosts(p, Post(Plotted(p), s, GroupExpanded(group, planned)).state, StepSkipped(group));
  }

  /** After the late outputs a block of the name b records, if its first step can be
      executed. */
  lemma PlottedBlock(p: Plot, block: seq<StepSpec>, s: State)
    requires block != [] && InBlock(block[0]) && Positive(block) && OnPlot(p, s) && s.executed > p.late
    requires BlockName(block) == p.b && Executable(block[0].kind)
    ensures |RunBlock(Plotted(p), false, block, s).state.cases| > |s.cases|
  {
    hide OutputsAt, CasesForGroup, RunPlanned, ConcreteSteps, NormalizeOutputKey, Executable;
    var group := Trim(block[0].group);
    NameHasOneLate(p, s.executed, group, block[0].dynamic.value.maxItems);
    var cases := Counted(1);
    FirstPlanned(block, cases);
    var planned := ConcreteSteps(block, cases);
    PlottedPosts(p, s, GroupExpanded(group, planned));
    var t := Post(Plotted(p), s, GroupExpanded(group, planned)).state;
    PlannedRecords(p, group, planned, t);
  }

  lemma PlannedRecords(p: Plot, group: string, planned: seq<StepSpec>, s: State)
    requires OnPlot(p, s) && planned != []
    requires Executable(planned[0].kind) && Slug(planned[0]) != "" && IndexText(planned[0]) != ""
    ensures |RunPlanned(Plotted(p), false, group, planned, 0, s).state.cases| > |s.cases|
  {
    hide RunStep, OutputsAt, Executable;
    PlottedRecords(p, planned[0], s);
    var o := RunStep(Plotted(p), planned[0], s);
    PlannedGrows(Plotted(p), group, planned[1..], IndexOf(planned[0]), o.state);
  }
}
