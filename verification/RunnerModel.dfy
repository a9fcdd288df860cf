/** The runner as a state machine: what a run does, step by step, for every way in which
    commands, posts and the host may turn out. */
module RunnerModel {
  import opened Text
  import opened Numbers
  import opened CaseVerdict
  import OutputFile
  import TokenSearch

  // ----- The job

  /** The variables of a step's environment that the runner itself reads or sets. */
  datatype EnvKey =
    | CaseIndex | CaseCount | CaseLabel | CaseJson | DynamicGroup
    | TemplateStep | TemplateGroup | TemplateMax | TemplateItemId
    | Other(name: string)

  datatype DynamicSpec = DynamicSpec(maxItems: Int64, itemLabel: string)

  datatype StepSpec = StepSpec(slug: string, kind: string, group: string, groupTitle: string,
                               dynamic: Option<DynamicSpec>, env: map<EnvKey, string>)

  /** An absent variable reads as an empty one. */
  function Get(env: map<EnvKey, string>, key: EnvKey): string {
    if key in env then env[key] else ""
  }

  function Slug(step: StepSpec): string { Trim(step.slug) }

  /** The case index a step carries, as text and as strconv.Atoi reads it. */
  function IndexText(step: StepSpec): string { Trim(Get(step.env, CaseIndex)) }

  function IndexOf(step: StepSpec): int { Atoi(IndexText(step)).value }

  /** The step's index is one that runStep acts on. */
  predicate Judged(step: StepSpec) {
    Atoi(IndexText(step)).ok && IndexOf(step) > 0
  }

  /** The types run accepts, and those runStep executes. */
  predicate Supported(kind: string) { Trim(kind) == "" || kind == "run" || kind == "agent" }

  predicate Executable(kind: string) { Trim(kind) == "" || Trim(kind) == "run" || Trim(kind) == "agent" }

  /** The step belongs to a block that is expanded at run time. */
  predicate InBlock(step: StepSpec) {
    step.dynamic.Some? && Trim(step.group) != ""
  }

  /** The length of the block that steps start with. */
  function BlockEnd(steps: seq<StepSpec>, group: string): (n: nat)
    ensures n <= |steps|
  {
    if steps == [] || steps[0].dynamic.None? || Trim(steps[0].group) != group then 0
    else BlockEnd(steps[1..], group) + 1
  }

  // ----- The world

  datatype CompletionFile = Absent | Unreadable | Written(verification: Option<Verification>, evidence: seq<Artifact>)

  /** One execution of a step's command: its exit code and whether it failed, how many
      sequence numbers its log readers take, what its output file parses to, if it does,
      and its completion file. */
  datatype Execution = Execution(exitCode: int, failed: bool, logs: nat, outputs: Option<map<string, string>>, completion: CompletionFile)

  /** An item of a list of cases: its JSON and the caption found in it, if any. */
  datatype CaseItem = CaseItem(raw: string, caption: string)

  /** How everything outside the runner turns out: the n-th execution, the post of the
      event with a given number, whether the context is cancelled when an error makes the
      runner ask, and what a JSON text decodes to as a list of cases. */
  datatype World = World(
    workspaceFails: bool, checkoutFails: bool, shutdown: bool, completionFails: bool,
    executions: nat -> Execution,
    postFails: nat -> bool,
    decode: string -> Option<seq<CaseItem>>)

  // ----- What is observed

  datatype Event =
    | StepStarted(slug: string)
    | PhaseOutputSet(slug: string, key: string, value: string)
    | StepFailed(slug: string, exitCode: int)
    | StepAborted(slug: string)
    | StepCompleted(slug: string, exitCode: int)
    | GroupExpanded(group: string, planned: seq<StepSpec>)
    | StepSkipped(group: string)
    | GroupStopped(group: string, index: int)
    | RunnerFailed

  datatype Cause = NoWorkspace | NoCheckout | UnsupportedType | BlankSlug | NoMaxItems | NoCases

  datatype Conclusion = Success | Failure | Aborted | TimedOut

  /** The verification a completion carries: an aggregate, if cases were recorded. */
  datatype Reported = Nothing | OfStep(verification: Verification) | OfCases(aggregate: Aggregate)

  /** What happens in a run, in order: events posted, commands run, cases recorded,
      refusals that have no event of their own, and completions. */
  datatype Entry =
    | Posted(number: nat, ok: bool, event: Event)
    | Ran(slug: string)
    | Recorded(judged: bool, tc: CaseCompletion)
    | Rejected(cause: Cause)
    | Completed(ok: bool, conclusion: Conclusion, outputs: map<string, string>, reported: Reported, evidence: seq<Artifact>)

  datatype Metadata = Metadata(verification: Option<Verification>, evidence: seq<Artifact>)

  /** The runner's fields, how many commands have run, and what has happened. */
  datatype State = State(seqNo: nat, executed: nat, outputs: map<string, string>, cases: seq<CaseCompletion>,
                         completion: Metadata, trace: seq<Entry>)

  const START := State(0, 0, map[], [], Metadata(None, []), [])

  datatype Err = NoError | StepError | VerificationError

  datatype Out = Out(state: State, err: Err)

  // ----- One step

  function Log(s: State, e: Entry): State {
    s.(trace := s.trace + [e])
  }

  function Post(w: World, s: State, event: Event): Out {
    var n := s.seqNo + 1;
    Out(Log(s.(seqNo := n), Posted(n, !w.postFails(n), event)), if w.postFails(n) then StepError else NoError)
  }

  predicate Least(key: string, keys: set<string>) {
    key in keys && forall x | x in keys :: AtMost(key, x)
  }

  /** sort.Strings. */
  function Sorted(keys: set<string>): seq<string> {
    if keys == {} then [] else
      LeastIsUnique(keys);
      var key :| Least(key, keys);
      [key] + Sorted(keys - {key})
  }

  lemma LeastIsUnique(keys: set<string>)
    ensures keys != {} ==> exists key :: Least(key, keys)
    ensures forall a, b | Least(a, keys) && Least(b, keys) :: a == b
  {
    if keys != {} {
      LeastExists(keys);
      var key :| key in keys && forall x | x in keys :: AtMost(key, x);
      assert Least(key, keys);
    }
    forall a, b | Least(a, keys) && Least(b, keys)
      ensures a == b
    {
      AtMostAntisymmetric(a, b);
    }
  }

  /** Posting the outputs of a step in the order of keys, up to the first that is set
      already or cannot be posted. */
  function Publish(w: World, slug: string, outputs: map<string, string>, keys: seq<string>, s: State): Out
    requires forall k | k in keys :: k in outputs
    decreases |keys|
  {
    if keys == [] then Out(s, NoError)
    else if keys[0] in s.outputs then Out(s, StepError)
    else
      var p := Post(w, s, PhaseOutputSet(slug, keys[0], outputs[keys[0]]));
      if p.err != NoError then p
      else Publish(w, slug, outputs, keys[1..], SetOutputIn(p.state, keys[0], outputs[keys[0]]))
  }

  function SetOutputIn(s: State, key: string, value: string): State {
    s.(outputs := s.outputs[key := value])
  }

  /** The completion file of a step: a verdict of a step with a case index is recorded for
      the case. */
  function Collect(step: StepSpec, file: CompletionFile, s: State): Out {
    match file
    case Absent => Out(s, NoError)
    case Unreadable => Out(s, StepError)
    case Written(verification, evidence) =>
      if verification.Some? && IndexText(step) != "" then
        var tc := CaseCompletion(IndexOf(step), Trim(Get(step.env, CaseLabel)), verification.value, evidence);
        Out(Record(s, Judged(step), tc), NoError)
      else
        var kept := Metadata(if verification.Some? then verification else s.completion.verification,
                             if evidence != [] then evidence else s.completion.evidence);
        Out(s.(completion := kept), NoError)
  }

  function Record(s: State, judged: bool, tc: CaseCompletion): State {
    Log(s.(cases := s.cases + [tc]), Recorded(judged, tc))
  }

  predicate JudgedFailure(step: StepSpec, cases: seq<CaseCompletion>) {
    Judged(step) && CaseFailed(cases, IndexOf(step))
  }

  /** A reason for aborting the run has been published. */
  predicate AbortRequested(outputs: map<string, string>) {
    OutputFile.ABORT_REASON in outputs && Trim(outputs[OutputFile.ABORT_REASON]) != ""
  }

  /** The step's command has been dealt with, and its output and completion files. */
  datatype Ended = Ended(state: State, exitCode: int, failed: bool, outputFailed: bool)

  function Begin(w: World, slug: string, s: State): State {
    Log(s.(executed := s.executed + 1, seqNo := s.seqNo + w.executions(s.executed).logs), Ran(slug))
  }

  function PublishAll(w: World, slug: string, outputs: Option<map<string, string>>, s: State): Out {
    if outputs.None? then Out(s, StepError)
    else
      SortedKeys(outputs.value.Keys);
      Publish(w, slug, outputs.value, Sorted(outputs.value.Keys), s)
  }

  lemma {:induction false} SortedKeys(keys: set<string>)
    ensures forall k :: k in Sorted(keys) <==> k in keys
    decreases |keys|
  {
    if keys != {} {
      var rest := keys - {Sorted(keys)[0]};
      assert Sorted(keys)[0] in keys && Sorted(keys) == [Sorted(keys)[0]] + Sorted(rest) by {
        LeastIsUnique(keys);
      }
      SortedKeys(rest);
    }
  }

  function Execute(w: World, slug: string, step: StepSpec, s: State): Ended {
    if !Executable(step.kind) then Ended(s, 1, true, false)
    else
      var x := w.executions(s.executed);
      var p := PublishAll(w, slug, x.outputs, Begin(w, slug, s));
      var c := Collect(step, x.completion, p.state);
      Ended(c.state, x.exitCode, x.failed, p.err != NoError || c.err != NoError)
  }

  function Finish(w: World, slug: string, step: StepSpec, b: Ended): Out {
    if b.failed then Out(Post(w, b.state, StepFailed(slug, b.exitCode)).state, StepError)
    else if b.outputFailed then Out(Post(w, b.state, StepFailed(slug, 1)).state, StepError)
    else if JudgedFailure(step, b.state.cases) then Out(Post(w, b.state, StepFailed(slug, 1)).state, VerificationError)
    else if AbortRequested(b.state.outputs) then Post(w, b.state, StepAborted(slug))
    else Post(w, b.state, StepCompleted(slug, b.exitCode))
  }

  function RunStep(w: World, step: StepSpec, s: State): Out {
    if Slug(step) == "" then Out(Log(s, Rejected(BlankSlug)), StepError)
    else
      var p := Post(w, s, StepStarted(Slug(step)));
      if p.err != NoError then p else Finish(w, Slug(step), step, Execute(w, Slug(step), step, p.state))
  }

  // ----- Dynamic blocks

  datatype DynamicCase = DynamicCase(index: nat, raw: string, caption: string)

  /** Runs of other characters than letters and digits become one underscore. */
  function Squash(s: string, lastUnderscore: bool): string {
    if s == "" then ""
    else if 'a' <= s[0] <= 'z' || IsDigit(s[0]) then [s[0]] + Squash(s[1..], false)
    else (if lastUnderscore then "" else "_") + Squash(s[1..], true)
  }

  function TrimUnderscores(s: string): string
    decreases |s|
  {
    if s != "" && s[0] == '_' then TrimUnderscores(s[1..])
    else if s != "" && s[|s| - 1] == '_' then TrimUnderscores(s[..|s| - 1])
    else s
  }

  function NormalizeOutputKey(value: string): string {
    TrimUnderscores(Squash(TokenSearch.ToLower(Trim(value)), false))
  }

  /** The outputs that may hold the cases of a group, as JSON or as their number, in the
      order in which they are looked up; name is the normalized name of the group. */
  function OutputKeysOf(name: string, suffix: string): seq<string> {
    (if name != "test_cases" then ["test_cases" + suffix] else [])
    + [name + suffix, name + "_cases" + suffix, "glimmung_dynamic_" + name + suffix, "glimmung_dynamic_" + name + "_cases" + suffix]
  }

  function OutputKeys(group: string, suffix: string): seq<string> {
    OutputKeysOf(NormalizeOutputKey(group), suffix)
  }

  /** The first of the outputs that is set and not blank, trimmed. */
  function FirstSet(outputs: map<string, string>, keys: seq<string>): Option<string> {
    if keys == [] then None
    else if keys[0] in outputs && Trim(outputs[keys[0]]) != "" then Some(Trim(outputs[keys[0]]))
    else FirstSet(outputs, keys[1..])
  }

  function Caption(caption: string, index: nat): string {
    if Trim(caption) != "" then Trim(caption) else "case " + Decimal2(index)
  }

  function Numbered(items: seq<CaseItem>): seq<DynamicCase> {
    seq(|items|, i requires 0 <= i < |items| => DynamicCase(i + 1, items[i].raw, Caption(items[i].caption, i + 1)))
  }

  function Counted(count: nat): seq<DynamicCase> {
    seq(count, i requires 0 <= i < count => DynamicCase(i + 1, "{}", "case " + Decimal2(i + 1)))
  }

  function CasesForGroup(w: World, group: string, maxItems: int, outputs: map<string, string>): Option<seq<DynamicCase>> {
    var json := FirstSet(outputs, OutputKeys(group, "_json"));
    if json.Some? then
      var items := w.decode(json.value);
      if items.None? || |items.value| > maxItems then None else Some(Numbered(items.value))
    else
      var text := FirstSet(outputs, OutputKeys(group, "_count"));
      if text.None? then None
      else
        var count := Atoi(text.value);
        if !count.ok || count.value < 0 || count.value > maxItems then None else Some(Counted(count.value))
  }

  /** What the steps of a block are instantiated with. */
  datatype Expansion = Expansion(group: string, maxItems: int, itemLabel: string, count: nat)

  function CaseEnv(x: Expansion, tc: DynamicCase, title: string, template: StepSpec): map<EnvKey, string> {
    map[DynamicGroup := x.group, CaseIndex := Decimal(tc.index), CaseCount := Decimal(x.count), CaseLabel := title,
        CaseJson := tc.raw, TemplateStep := template.slug, TemplateGroup := x.group,
        TemplateMax := Itoa(x.maxItems), TemplateItemId := Decimal(tc.index)]
  }

  function Instance(x: Expansion, tc: DynamicCase, template: StepSpec): StepSpec {
    var title := FirstNonEmpty(tc.caption, x.itemLabel + " " + Decimal2(tc.index));
    StepSpec(template.slug + "-case-" + Decimal2(tc.index),
             if Trim(template.kind) == "" then "run" else template.kind,
             x.group + "/case-" + Decimal2(tc.index), title, None,
             template.env + CaseEnv(x, tc, title, template))
  }

  function Instances(x: Expansion, tc: DynamicCase, block: seq<StepSpec>): seq<StepSpec> {
    if block == [] then [] else [Instance(x, tc, block[0])] + Instances(x, tc, block[1..])
  }

  function Expanded(x: Expansion, cases: seq<DynamicCase>, block: seq<StepSpec>): seq<StepSpec> {
    if cases == [] then [] else Instances(x, cases[0], block) + Expanded(x, cases[1..], block)
  }

  function ConcreteSteps(block: seq<StepSpec>, cases: seq<DynamicCase>): seq<StepSpec>
    requires block != [] && InBlock(block[0])
  {
    var dynamic := block[0].dynamic.value;
    Expanded(Expansion(Trim(block[0].group), dynamic.maxItems, FirstNonEmpty(Trim(dynamic.itemLabel), "case"), |cases|), cases, block)
  }

  /** The planned steps of a block, in order. With guard, the runner looks before each
      step of another case whether the last case failed. */
  function RunPlanned(w: World, guard: bool, group: string, steps: seq<StepSpec>, last: int, s: State): Out
    decreases |steps|
  {
    if steps == [] then Out(s, NoError)
    else
      var step := steps[0];
      if guard && IndexOf(step) != last && last > 0 && CaseFailed(s.cases, last) then Post(w, s, GroupStopped(group, last))
      else
        var p := RunStep(w, step, s);
        if p.err == VerificationError then Stopped(p, Post(w, p.state, GroupStopped(group, IndexOf(step))))
        else if p.err != NoError || AbortRequested(p.state.outputs) then p
        else RunPlanned(w, guard, group, steps[1..], IndexOf(step), p.state)
  }

  function Stopped(p: Out, q: Out): Out {
    Out(q.state, if q.err != NoError then q.err else p.err)
  }

  function RunBlock(w: World, guard: bool, block: seq<StepSpec>, s: State): Out
    requires block != [] && InBlock(block[0])
  {
    var group, maxItems := Trim(block[0].group), block[0].dynamic.value.maxItems;
    var cases := CasesForGroup(w, group, maxItems, s.outputs);
    if maxItems <= 0 then Out(Log(s, Rejected(NoMaxItems)), StepError)
    else if cases.None? then Out(Log(s, Rejected(NoCases)), StepError)
    else
      RunExpansion(w, guard, group, cases.value == [], ConcreteSteps(block, cases.value), s)
  }

  function RunExpansion(w: World, guard: bool, group: string, none: bool, planned: seq<StepSpec>, s: State): Out {
    var p := Post(w, s, GroupExpanded(group, planned));
    if p.err != NoError then p
    else if none then Post(w, p.state, StepSkipped(group))
    else RunPlanned(w, guard, group, planned, 0, p.state)
  }

  // ----- The run

  datatype End = AllRun | AbortedRun | Errored | Refused

  datatype Progress = Progress(state: State, end: End)

  function Continue(p: Out): End {
    if p.err != NoError then Errored else if AbortRequested(p.state.outputs) then AbortedRun else AllRun
  }

  /** A block's part of steps, and what follows it. */
  function Block(steps: seq<StepSpec>): (block: seq<StepSpec>)
    requires steps != [] && InBlock(steps[0])
    ensures block != [] && |block| <= |steps| && block == steps[..|block|]
  {
    steps[..BlockEnd(steps, Trim(steps[0].group))]
  }

  function RunSteps(w: World, guard: bool, steps: seq<StepSpec>, s: State): Progress
    decreases |steps|
  {
    if steps == [] then Progress(s, AllRun)
    else if InBlock(steps[0]) then
      var block := Block(steps);
      var p := RunBlock(w, guard, block, s);
      if Continue(p) != AllRun then Progress(p.state, Continue(p)) else RunSteps(w, guard, steps[|block|..], p.state)
    else if !Supported(steps[0].kind) then Progress(Log(s, Rejected(UnsupportedType)), Refused)
    else
      var p := RunStep(w, steps[0], s);
      if Continue(p) != AllRun then Progress(p.state, Continue(p)) else RunSteps(w, guard, steps[1..], p.state)
  }

  function ReportedBy(s: State): Reported {
    if s.cases != [] then OfCases(AggregateAll(NOTHING, s.cases))
    else if s.completion.verification.Some? then OfStep(s.completion.verification.value)
    else Nothing
  }

  function EvidenceBy(s: State): seq<Artifact> {
    if s.cases != [] then EvidenceOf(Appended([], s.completion.evidence), s.cases) else s.completion.evidence
  }

  function Complete(w: World, conclusion: Conclusion, s: State): State {
    Log(s, Completed(!w.completionFails, conclusion, s.outputs, ReportedBy(s), EvidenceBy(s)))
  }

  function CompleteShutdown(w: World, s: State): State {
    Complete(w, TimedOut, Post(w, s, RunnerFailed).state)
  }

  function CompleteError(w: World, s: State): State {
    if w.shutdown then CompleteShutdown(w, s) else Complete(w, Failure, s)
  }

  function Conclude(w: World, r: Progress): State {
    match r.end
    case AllRun => Complete(w, Success, r.state)
    case AbortedRun => Complete(w, Aborted, r.state)
    case Refused => Complete(w, Failure, r.state)
    case Errored => CompleteError(w, r.state)
  }

  function RunAll(w: World, guard: bool, job: seq<StepSpec>): State {
    if w.workspaceFails then CompleteError(w, Log(START, Rejected(NoWorkspace)))
    else if w.checkoutFails then
      var s := Log(START, Rejected(NoCheckout));
      if w.shutdown then CompleteShutdown(w, s) else Complete(w, Failure, Post(w, s, RunnerFailed).state)
    else Conclude(w, RunSteps(w, guard, job, START))
  }
}
