/** The account of a run: each of its entries follows from the entries before it and from
    what the commands have done. */
module RunnerAccount {
  import opened Text
  import opened Numbers
  import opened CaseVerdict
  import opened CaseReport
  import opened RunnerModel
  import opened RunnerCases
  import opened RunnerLedger
  import opened Selections
  import OutputFile

  // ----- What a trace tells

  function Runs(trace: seq<Entry>): nat {
    if trace == [] then 0 else Runs(trace[..|trace| - 1]) + if trace[|trace| - 1].Ran? then 1 else 0
  }

  function Posts(trace: seq<Entry>): nat {
    if trace == [] then 0 else Posts(trace[..|trace| - 1]) + if trace[|trace| - 1].Posted? then 1 else 0
  }

  /** The numbers that the log readers of the first n commands have taken. */
  function LogsTaken(w: World, n: nat): nat {
    if n == 0 then 0 else LogsTaken(w, n - 1) + w.executions(n - 1).logs
  }

  /** The command of the step that has started last has run. */
  predicate Running(trace: seq<Entry>) {
    trace != []
    && var e := trace[|trace| - 1];
       e.Ran? || (!(e.Posted? && e.event.StepStarted?) && Running(trace[..|trace| - 1]))
  }

  /** The outputs delivered since the last command. */
  function SetSince(trace: seq<Entry>): set<string> {
    if trace == [] then {}
    else match trace[|trace| - 1]
      case Ran(_) => {}
      case Posted(_, true, PhaseOutputSet(_, key, _)) => SetSince(trace[..|trace| - 1]) + {key}
      case _ => SetSince(trace[..|trace| - 1])
  }

  /** An output of the last command could not be delivered. */
  predicate LostSince(trace: seq<Entry>) {
    trace != []
    && match trace[|trace| - 1]
       case Ran(_) => false
       case Posted(_, false, PhaseOutputSet(_, _, _)) => true
       case _ => LostSince(trace[..|trace| - 1])
  }

  /** The last command has recorded a failing case under an index that the runner acts on. */
  predicate FailedSince(trace: seq<Entry>) {
    trace != []
    && match trace[|trace| - 1]
       case Ran(_) => false
       case Recorded(judged, tc) => (judged && Failed(tc)) || FailedSince(trace[..|trace| - 1])
       case _ => FailedSince(trace[..|trace| - 1])
  }

  /** The outputs there were before the last command. */
  function OutputsBefore(trace: seq<Entry>): map<string, string> {
    if trace == [] then map[]
    else if trace[|trace| - 1].Ran? then OutputsOf(trace[..|trace| - 1])
    else OutputsBefore(trace[..|trace| - 1])
  }

  /** The completion files of the commands, without those that have become cases. */
  function Files(w: World, trace: seq<Entry>): seq<CompletionFile> {
    if trace == [] then []
    else
      var front, e := trace[..|trace| - 1], trace[|trace| - 1];
      var files := Files(w, front);
      if e.Ran? then files + [w.executions(Runs(front)).completion]
      else if e.Recorded? && files != [] then files[..|files| - 1] + [Absent]
      else files
  }

  /** The group expanded last. */
  function LastGroup(trace: seq<Entry>): Option<string> {
    if trace == [] then None
    else match trace[|trace| - 1]
      case Posted(_, _, GroupExpanded(group, _)) => Some(group)
      case _ => LastGroup(trace[..|trace| - 1])
  }

  // ----- What explains an entry

  /** The last command's outputs have been read and delivered, and its completion file, if
      there is one, could be read. */
  predicate Clean(w: World, before: seq<Entry>)
    requires Runs(before) > 0
  {
    var x := w.executions(Runs(before) - 1);
    x.outputs.Some? && SetSince(before) == x.outputs.value.Keys && !x.completion.Unreadable?
  }

  /** All its outputs have been delivered, up to one that was set already or got lost. */
  predicate TakenIn(w: World, before: seq<Entry>)
    requires Runs(before) > 0
  {
    var x := w.executions(Runs(before) - 1);
    x.outputs.Some? ==>
      || SetSince(before) == x.outputs.value.Keys || LostSince(before)
      || exists key :: key in x.outputs.value && key !in SetSince(before) && key in OutputsBefore(before)
  }

  /** The end of a step: with the exit code of its command, if that has failed; otherwise as a
      failure with exit code 1, if something else is wrong, as an abort, if one has been
      requested, and as completed. */
  predicate EndExplained(w: World, before: seq<Entry>, event: Event) {
    if !Running(before) then event.StepFailed? && event.exitCode == 1
    else
      && Runs(before) > 0 && TakenIn(w, before)
      && var x := w.executions(Runs(before) - 1);
         match event
         case StepFailed(_, code) =>
           if x.failed then code == x.exitCode
           else code == 1 && (!Clean(w, before) || FailedSince(before) || CaseFailed(CasesOf(before), MAX_INT))
         case StepAborted(_) =>
           !x.failed && Clean(w, before) && !FailedSince(before) && AbortRequested(OutputsOf(before))
         case StepCompleted(_, code) =>
           !x.failed && Clean(w, before) && !FailedSince(before) && !AbortRequested(OutputsOf(before)) && code == x.exitCode
         case _ => true
  }

  /** An output is one of the last command's, with its value, not set before, and the next in
      order. */
  predicate OutputExplained(w: World, before: seq<Entry>, key: string, value: string) {
    && Running(before) && Runs(before) > 0
    && var outputs := w.executions(Runs(before) - 1).outputs;
       && outputs.Some? && key in outputs.value && outputs.value[key] == value
       && key !in OutputsOf(before) && !LostSince(before)
       && SetSince(before) == set k | k in outputs.value && AtMost(k, key) && k != key
  }

  predicate EventExplained(w: World, before: seq<Entry>, event: Event) {
    match event
    case StepStarted(slug) => slug != "" && Trimmed(slug)
    case PhaseOutputSet(_, key, value) => OutputExplained(w, before, key, value)
    case StepFailed(_, _) => EndExplained(w, before, event)
    case StepAborted(_) => EndExplained(w, before, event)
    case StepCompleted(_, _) => EndExplained(w, before, event)
    case GroupExpanded(_, _) => true
    case StepSkipped(group) => before != [] && Expands(before[|before| - 1], group)
    case GroupStopped(group, index) => LastGroup(before) == Some(group) && VerdictFailed(before, index)
    case RunnerFailed => true
  }

  /** A group has been expanded to nothing. */
  predicate Expands(e: Entry, group: string) {
    e.Posted? && e.ok && e.event == GroupExpanded(group, [])
  }

  ghost predicate Explained(w: World, before: seq<Entry>, e: Entry) {
    match e
    case Posted(number, ok, event) =>
      && number == Posts(before) + LogsTaken(w, Runs(before)) + 1 && ok == !w.postFails(number)
      && EventExplained(w, before, event)
    case Ran(_) => !Running(before)
    case Recorded(_, tc) => Running(before) && Runs(before) > 0 && FromFile(w.executions(Runs(before) - 1).completion, tc)
    case Rejected(cause) =>
      && (cause == NoWorkspace ==> before == [] && w.workspaceFails)
      && (cause == NoCheckout ==> before == [] && !w.workspaceFails && w.checkoutFails)
    case Completed(ok, _, outputs, reported, evidence) =>
      && ok == !w.completionFails && outputs == OutputsOf(before)
      && ReportExplained(Files(w, before), CasesOf(before), reported) && EvidenceExplained(Files(w, before), CasesOf(before), evidence)
  }

  predicate FromFile(file: CompletionFile, tc: CaseCompletion) {
    file == Written(Some(tc.verification), tc.evidence) && Trimmed(tc.caseLabel)
  }

  predicate HasVerification(file: CompletionFile) { file.Written? && file.verification.Some? }

  predicate HasEvidence(file: CompletionFile) { file.Written? && file.evidence != [] }

  /** The verification of the last file that has one. */
  ghost predicate LastVerification(files: seq<CompletionFile>, v: Option<Verification>) {
    if v.None? then forall i | 0 <= i < |files| :: !HasVerification(files[i])
    else exists i :: && 0 <= i < |files| && HasVerification(files[i]) && files[i].verification == v
                     && forall j | i < j < |files| :: !HasVerification(files[j])
  }

  /** The evidence of the last file that has some. */
  ghost predicate LastEvidence(files: seq<CompletionFile>, evidence: seq<Artifact>) {
    if evidence == [] then forall i | 0 <= i < |files| :: !HasEvidence(files[i])
    else exists i :: && 0 <= i < |files| && HasEvidence(files[i]) && files[i].evidence == evidence
                     && forall j | i < j < |files| :: !HasEvidence(files[j])
  }

  /** Without cases the verification written last is reported, otherwise the aggregate over
      the cases. */
  ghost predicate ReportExplained(files: seq<CompletionFile>, cases: seq<CaseCompletion>, reported: Reported) {
    if cases == [] then
      exists v :: LastVerification(files, v) && reported == match v { case None => Nothing case Some(x) => OfStep(x) }
    else reported.OfCases? && Aggregates(cases, reported.aggregate)
  }

  ghost predicate Aggregates(cases: seq<CaseCompletion>, a: Aggregate) {
    && a.status == Verdict(cases) && FirstBlamed(cases, a.failure)
    && (exists said :: |said| == |cases| && AllSay(cases, said) && a.reasons == Flatten(said))
    && KeepsFirst(VerdictsFirst(cases), a.evidence)
  }

  ghost predicate AllSay(cases: seq<CaseCompletion>, said: seq<seq<Reason>>)
    requires |said| == |cases|
  {
    forall i | 0 <= i < |cases| :: Says(cases[i], said[i])
  }

  /** The evidence written last, followed by that of the cases. */
  ghost predicate EvidenceExplained(files: seq<CompletionFile>, cases: seq<CaseCompletion>, evidence: seq<Artifact>) {
    exists first :: LastEvidence(files, first) && if cases == [] then evidence == first else KeepsFirst(first + CasesFirst(cases), evidence)
  }

  /** Every entry is explained. */
  ghost predicate AllExplained(w: World, trace: seq<Entry>) {
    forall n | 0 <= n < |trace| :: Explained(w, trace[..n], trace[n])
  }

  // ----- One more entry

  lemma Snoc(w: World, trace: seq<Entry>, e: Entry)
    ensures var t := trace + [e];
            && Runs(t) == Runs(trace) + (if e.Ran? then 1 else 0)
            && Posts(t) == Posts(trace) + (if e.Posted? then 1 else 0)
            && Running(t) == (e.Ran? || (!(e.Posted? && e.event.StepStarted?) && Running(trace)))
            && OutputsBefore(t) == (if e.Ran? then OutputsOf(trace) else OutputsBefore(trace))
            && (e.Ran? ==> Files(w, t) == Files(w, trace) + [w.executions(Runs(trace)).completion])
            && (!e.Ran? && !e.Recorded? ==> Files(w, t) == Files(w, trace))
    ensures var t := trace + [e];
            && SetSince(t) == (if e.Ran? then {} else if IsOutput(e) && e.ok then SetSince(trace) + {e.event.key} else SetSince(trace))
            && LostSince(t) == (!e.Ran? && ((IsOutput(e) && !e.ok) || LostSince(trace)))
            && FailedSince(t) == (!e.Ran? && ((e.Recorded? && e.judged && Failed(e.tc)) || FailedSince(trace)))
            && LastGroup(t) == (if e.Posted? && e.event.GroupExpanded? then Some(e.event.group) else LastGroup(trace))
  {
    assert (trace + [e])[..|trace|] == trace;
  }

  predicate IsOutput(e: Entry) { e.Posted? && e.event.PhaseOutputSet? }

  lemma SnocExplained(w: World, trace: seq<Entry>, e: Entry)
    requires AllExplained(w, trace) && Explained(w, trace, e)
    ensures AllExplained(w, trace + [e])
  {
    hide Explained;
    var t := trace + [e];
    forall n | 0 <= n < |t|
      ensures Explained(w, t[..n], t[n])
    {
      if n < |trace| {
        assert t[..n] == trace[..n];
      } else {
        assert t[..n] == trace;
      }
    }
  }

  /** The runner's fields agree with the trace so far. */
  ghost predicate Books(w: World, s: State) {
    && Kept(s) && AllExplained(w, s.trace)
    && s.executed == Runs(s.trace) && s.seqNo == Posts(s.trace) + LogsTaken(w, s.executed)
  }

  /** The completion metadata are those of the completion files so far. */
  ghost predicate Told(w: World, s: State) {
    LastVerification(Files(w, s.trace), s.completion.verification) && LastEvidence(Files(w, s.trace), s.completion.evidence)
  }

  /** What an event other than an output leaves as it is. */
  ghost predicate SameBut(w: World, s: State, t: State) {
    && t.executed == s.executed && t.outputs == s.outputs && t.cases == s.cases && t.completion == s.completion
    && Files(w, t.trace) == Files(w, s.trace)
  }

  lemma PostBooks(w: World, s: State, event: Event)
    requires Books(w, s) && EventExplained(w, s.trace, event) && !event.PhaseOutputSet?
    ensures var t := Post(w, s, event).state;
            Books(w, t) && SameBut(w, s, t) && (Told(w, s) ==> Told(w, t)) && t.trace == s.trace + [t.trace[|s.trace|]]
            && LastGroup(t.trace) == if event.GroupExpanded? then Some(event.group) else LastGroup(s.trace)
  {
    hide Kept, AllExplained, EventExplained, Runs, Posts, LogsTaken, Files, LastGroup, LastVerification, LastEvidence;
    var n := s.seqNo + 1;
    var e := Posted(n, !w.postFails(n), event);
    PostKeeps(w, s, event) by { Stops(w, s, event); }
    Snoc(w, s.trace, e);
    SnocExplained(w, s.trace, e);
  }

  lemma Stops(w: World, s: State, event: Event)
    requires EventExplained(w, s.trace, event)
    ensures event.GroupStopped? ==> VerdictFailed(s.trace, event.index)
  {}

  lemma LogBooks(w: World, s: State, e: Entry)
    requires Books(w, s) && Explained(w, s.trace, e) && (e.Rejected? || e.Completed?)
    ensures Books(w, Log(s, e)) && SameBut(w, s, Log(s, e)) && (Told(w, s) ==> Told(w, Log(s, e)))
  {
    hide Kept, AllExplained, Explained, Runs, Posts, LogsTaken, Files, LastGroup, LastVerification, LastEvidence;
    LogKeeps(s, e);
    Snoc(w, s.trace, e);
    SnocExplained(w, s.trace, e);
  }

  // ----- A command and its outputs

  /** The least key comes first. */
  lemma SortedCons(keys: set<string>) returns (key: string)
    requires keys != {}
    ensures key in keys && Sorted(keys) == [key] + Sorted(keys - {key})
    ensures forall x | x in keys && x != key :: AtMost(key, x) && !AtMost(x, key)
  {
    LeastIsUnique(keys);
    key :| Least(key, keys);
    forall x | x in keys && x != key
      ensures !AtMost(x, key)
    {
      if AtMost(x, key) { AtMostAntisymmetric(x, key); }
    }
  }

  /** The command has run from the state s; of its outputs those in left are not published yet,
      and they come after the others. */
  ghost predicate Publishing(w: World, s: State, outputs: map<string, string>, left: set<string>, t: State) {
    && Books(w, t) && t.executed == s.executed + 1 && w.executions(s.executed).outputs == Some(outputs)
    && Running(t.trace) && !LostSince(t.trace) && !FailedSince(t.trace)
    && left <= outputs.Keys && SetSince(t.trace) == outputs.Keys - left
    && (forall a, b | a in outputs && a !in left && b in left :: AtMost(a, b) && !AtMost(b, a))
    && OutputsBefore(t.trace) == s.outputs && (forall k | k in s.outputs :: k in t.outputs)
    && (forall k | k in t.outputs :: k in s.outputs || (k in outputs && k !in left))
  }

  /** Nothing but outputs has happened since the command ran. */
  ghost predicate OnlyOutputs(w: World, s: State, t: State) {
    && t.cases == s.cases && t.completion == s.completion
    && Files(w, t.trace) == Files(w, s.trace) + [w.executions(s.executed).completion] && LastGroup(t.trace) == LastGroup(s.trace)
  }

  /** Publishing has come to its end, or has got stuck. */
  ghost predicate Published(w: World, s: State, t: State, stuck: bool) {
    && Books(w, t) && t.executed == s.executed + 1 && Running(t.trace) && !FailedSince(t.trace)
    && OnlyOutputs(w, s, t) && Runs(t.trace) > 0 && TakenIn(w, t.trace)
    && var x := w.executions(s.executed);
       stuck <==> !(x.outputs.Some? && SetSince(t.trace) == x.outputs.value.Keys)
  }

  lemma BeginBooks(w: World, slug: string, s: State)
    requires Books(w, s) && !Running(s.trace)
    ensures var t := Begin(w, slug, s);
            && Books(w, t) && t.executed == s.executed + 1 && OnlyOutputs(w, s, t) && t.outputs == s.outputs
            && Running(t.trace) && !LostSince(t.trace) && !FailedSince(t.trace) && SetSince(t.trace) == {} && OutputsBefore(t.trace) == s.outputs
  {
    hide Kept, AllExplained, Posts, Files, LastGroup, Running, SetSince, LostSince, FailedSince, OutputsBefore, Runs;
    BeginKeeps(w, slug, s);
    Snoc(w, s.trace, Ran(slug));
    SnocExplained(w, s.trace, Ran(slug));
    OutputsKept(s);
  }

  lemma OutputsKept(s: State)
    requires Kept(s)
    ensures s.outputs == OutputsOf(s.trace) && s.cases == CasesOf(s.trace)
  {}

  /** One output. */
  lemma OutputBooks(w: World, slug: string, s: State, outputs: map<string, string>, left: set<string>, key: string, t: State)
    requires Publishing(w, s, outputs, left, t) && OnlyOutputs(w, s, t)
    requires key in left && key !in t.outputs && forall x | x in left && x != key :: AtMost(key, x) && !AtMost(x, key)
    ensures var p := Post(w, t, PhaseOutputSet(slug, key, outputs[key]));
            && (p.err == NoError ==> Publishing(w, s, outputs, left - {key}, SetOutputIn(p.state, key, outputs[key]))
                                     && OnlyOutputs(w, s, SetOutputIn(p.state, key, outputs[key])))
            && (p.err != NoError ==> Published(w, s, p.state, true))
  {
    if w.postFails(t.seqNo + 1) {
      OutputLost(w, slug, s, outputs, left, key, t);
    } else {
      OutputDelivered(w, slug, s, outputs, left, key, t);
    }
  }

  /** One output that gets lost. */
  lemma OutputLost(w: World, slug: string, s: State, outputs: map<string, string>, left: set<string>, key: string, t: State)
    requires Publishing(w, s, outputs, left, t) && OnlyOutputs(w, s, t) && w.postFails(t.seqNo + 1)
    requires key in left && key !in t.outputs && forall x | x in left && x != key :: AtMost(key, x) && !AtMost(x, key)
    ensures Published(w, s, Post(w, t, PhaseOutputSet(slug, key, outputs[key])).state, true)
  {
    hide AllExplained, Posts, Files, LastGroup, Running, SetSince, LostSince, FailedSince, OutputsBefore, Runs, AtMost, Kept, OutputExplained, LogsTaken;
    var n := t.seqNo + 1;
    var e := Posted(n, false, PhaseOutputSet(slug, key, outputs[key]));
    KeyExplained(w, s, outputs, left, key, t);
    Snoc(w, t.trace, e);
    SnocExplained(w, t.trace, e);
    OutputKept(w, slug, t, key, outputs[key]);
  }

  /** One output that is delivered. */
  lemma OutputDelivered(w: World, slug: string, s: State, outputs: map<string, string>, left: set<string>, key: string, t: State)
    requires Publishing(w, s, outputs, left, t) && OnlyOutputs(w, s, t) && !w.postFails(t.seqNo + 1)
    requires key in left && key !in t.outputs && forall x | x in left && x != key :: AtMost(key, x) && !AtMost(x, key)
    ensures var next := SetOutputIn(Post(w, t, PhaseOutputSet(slug, key, outputs[key])).state, key, outputs[key]);
            Publishing(w, s, outputs, left - {key}, next) && OnlyOutputs(w, s, next)
  {
    hide AllExplained, Posts, Files, LastGroup, Running, SetSince, LostSince, FailedSince, OutputsBefore, Runs, AtMost, Kept, OutputExplained, LogsTaken;
    var n := t.seqNo + 1;
    var e := Posted(n, true, PhaseOutputSet(slug, key, outputs[key]));
    KeyExplained(w, s, outputs, left, key, t);
    Snoc(w, t.trace, e);
    SnocExplained(w, t.trace, e);
    OutputKept(w, slug, t, key, outputs[key]);
  }

  lemma KeyExplained(w: World, s: State, outputs: map<string, string>, left: set<string>, key: string, t: State)
    requires Publishing(w, s, outputs, left, t) && key in left && key !in t.outputs
    requires forall x | x in left && x != key :: AtMost(key, x) && !AtMost(x, key)
    ensures OutputExplained(w, t.trace, key, outputs[key])
  {
    OutputsKept(t);
  }

  lemma OutputKept(w: World, slug: string, t: State, key: string, value: string)
    requires Kept(t) && key !in t.outputs
    ensures var p := Post(w, t, PhaseOutputSet(slug, key, value));
            if p.err == NoError then Kept(SetOutputIn(p.state, key, value)) else Kept(p.state)
  {
    var p := Post(w, t, PhaseOutputSet(slug, key, value));
    assert p.state.trace[..|p.state.trace| - 1] == t.trace;
  }

  /** Everything is published, or the next output is set already. */
  lemma PublishEnds(w: World, s: State, outputs: map<string, string>, left: set<string>, key: string, t: State)
    requires Publishing(w, s, outputs, left, t) && OnlyOutputs(w, s, t)
    requires left == {} || (key in left && key in t.outputs)
    ensures Published(w, s, t, left != {})
  {
    hide Books, Kept, Files, Running, SetSince, LostSince, FailedSince, OutputsBefore, Runs, LastGroup, AtMost;
    RunsOfBooks(w, t);
    if left != {} {
      assert key in s.outputs && key !in SetSince(t.trace);
    }
  }

  lemma PublishOne(w: World, slug: string, outputs: map<string, string>, left: set<string>, key: string, t: State)
    requires key in left && Sorted(left) == [key] + Sorted(left - {key}) && forall k | k in Sorted(left) :: k in outputs
    ensures forall k | k in Sorted(left - {key}) :: k in outputs
    ensures key in outputs
    ensures var p := Post(w, t, PhaseOutputSet(slug, key, outputs[key]));
            Publish(w, slug, outputs, Sorted(left), t) ==
              if key in t.outputs then Out(t, StepError)
              else if p.err != NoError then p
              else Publish(w, slug, outputs, Sorted(left - {key}), SetOutputIn(p.state, key, outputs[key]))
  {
    hide Sorted;
    var keys, rest := Sorted(left), Sorted(left - {key});
    assert keys[0] == key && keys[1..] == rest;
    assert forall k | k in rest :: k in keys;
  }

  lemma {:induction false} PublishBooks(w: World, slug: string, s: State, outputs: map<string, string>, left: set<string>, t: State)
    requires Publishing(w, s, outputs, left, t) && OnlyOutputs(w, s, t) && forall k | k in Sorted(left) :: k in outputs
    ensures var p := Publish(w, slug, outputs, Sorted(left), t);
            Published(w, s, p.state, p.err != NoError)
    decreases |left|
  {
    hide Publishing, Published, OnlyOutputs, Post, AtMost, Sorted, Publish;
    if left == {} {
      PublishEnds(w, s, outputs, left, "", t);
      NothingToPublish(w, slug, outputs, t);
    } else {
      var key := SortedCons(left);
      PublishOne(w, slug, outputs, left, key, t);
      if key in t.outputs {
        PublishEnds(w, s, outputs, left, key, t);
      } else {
        OutputBooks(w, slug, s, outputs, left, key, t);
        var p := Post(w, t, PhaseOutputSet(slug, key, outputs[key]));
        if p.err == NoError {
          PublishBooks(w, slug, s, outputs, left - {key}, SetOutputIn(p.state, key, outputs[key]));
        }
      }
    }
  }

  lemma NothingToPublish(w: World, slug: string, outputs: map<string, string>, t: State)
    ensures Sorted({}) == [] && Publish(w, slug, outputs, Sorted({}), t) == Out(t, NoError)
  {}

  lemma RunsOfBooks(w: World, t: State)
    requires Books(w, t)
    ensures Runs(t.trace) == t.executed
  {}

  lemma PublishAllBooks(w: World, slug: string, s: State)
    requires Books(w, s) && !Running(s.trace)
    ensures var x := w.executions(s.executed);
            var p := PublishAll(w, slug, x.outputs, Begin(w, slug, s));
            Published(w, s, p.state, p.err != NoError)
  {
    hide Books, Begin, Publish, Running, SetSince, LostSince, FailedSince, OutputsBefore, Runs, OnlyOutputs;
    var x, t := w.executions(s.executed), Begin(w, slug, s);
    BeginBooks(w, slug, s);
    RunsOfBooks(w, t);
    if x.outputs.Some? {
      var outputs := x.outputs.value;
      SortedKeys(outputs.Keys);
      assert Publishing(w, s, outputs, outputs.Keys, t);
      PublishBooks(w, slug, s, outputs, outputs.Keys, t);
    }
  }

  // ----- The completion file

  lemma LastSnoc(files: seq<CompletionFile>, file: CompletionFile, m: Metadata)
    requires LastVerification(files, m.verification) && LastEvidence(files, m.evidence)
    ensures LastVerification(files + [file], if HasVerification(file) then file.verification else m.verification)
    ensures LastEvidence(files + [file], if HasEvidence(file) then file.evidence else m.evidence)
  {
    var all := files + [file];
    assert forall i | 0 <= i < |files| :: all[i] == files[i];
    assert all[|files|] == file;
  }

  /** What has become of the command when its step is about to end. */
  ghost predicate Ready(w: World, s: State, step: StepSpec, b: Ended) {
    && Books(w, b.state) && Told(w, b.state) && LastGroup(b.state.trace) == LastGroup(s.trace)
    && if !Executable(step.kind) then !Running(b.state.trace) && b.failed && b.exitCode == 1
       else
         && Running(b.state.trace) && Runs(b.state.trace) == s.executed + 1 && TakenIn(w, b.state.trace)
         && var x := w.executions(s.executed);
            && b.failed == x.failed && b.exitCode == x.exitCode && (b.outputFailed <==> !Clean(w, b.state.trace))
            && (FailedSince(b.state.trace) ==> JudgedFailure(step, b.state.cases))
            && (JudgedFailure(step, b.state.cases) && !CaseFailed(b.state.cases, MAX_INT) ==> FailedSince(b.state.trace))
  }

  lemma CollectBooks(w: World, step: StepSpec, s: State, p: Out)
    requires Published(w, s, p.state, p.err != NoError) && Told(w, s) && Settled(s.cases)
    ensures var x := w.executions(s.executed);
            var c := Collect(step, x.completion, p.state);
            && Books(w, c.state) && Told(w, c.state) && LastGroup(c.state.trace) == LastGroup(s.trace)
            && Running(c.state.trace) && Runs(c.state.trace) == s.executed + 1 && TakenIn(w, c.state.trace)
            && (p.err != NoError || c.err != NoError <==> !Clean(w, c.state.trace))
            && (FailedSince(c.state.trace) ==> JudgedFailure(step, c.state.cases))
            && (JudgedFailure(step, c.state.cases) && !CaseFailed(c.state.cases, MAX_INT) ==> FailedSince(c.state.trace))
  {
    hide Kept, AllExplained, LastVerification, LastEvidence, Files, Running, SetSince, LostSince, FailedSince, OutputsBefore, Runs, LastGroup, CaseFailed, Settled, Posts, LogsTaken;
    var x := w.executions(s.executed);
    var file := x.completion;
    LastSnoc(Files(w, s.trace), file, s.completion);
    RunsOfBooks(w, p.state);
    Unfailing(step, s.cases);
    if file.Written? && file.verification.Some? && IndexText(step) != "" {
      var tc := CaseCompletion(IndexOf(step), Trim(Get(step.env, CaseLabel)), file.verification.value, file.evidence);
      var e := Recorded(Judged(step), tc);
      LastSnoc(Files(w, s.trace), Absent, s.completion);
      OutputFile.TrimIsTrimmed(Get(step.env, CaseLabel));
      RecordBooks(w, p.state, e);
      NewVerdict(step, s.cases, tc);
      FilesAfterRecord(w, p.state.trace, e, Files(w, s.trace), file);
    } else {
      SameBooks(w, p.state, Collect(step, file, p.state).state);
    }
  }

  lemma SameBooks(w: World, s: State, t: State)
    requires Books(w, s) && t == s.(completion := t.completion)
    ensures Books(w, t)
  {}

  lemma FilesAfterRecord(w: World, trace: seq<Entry>, e: Entry, files: seq<CompletionFile>, file: CompletionFile)
    requires e.Recorded? && Files(w, trace) == files + [file]
    ensures Files(w, trace + [e]) == files + [Absent]
  {
    assert (trace + [e])[..|trace|] == trace;
    assert (files + [file])[..|files|] == files;
  }

  lemma RecordBooks(w: World, s: State, e: Entry)
    requires Books(w, s) && e.Recorded? && Explained(w, s.trace, e)
    ensures Books(w, Record(s, e.judged, e.tc))
    ensures var t := Record(s, e.judged, e.tc).trace;
            && Runs(t) == Runs(s.trace) && Running(t) == Running(s.trace) && LastGroup(t) == LastGroup(s.trace)
            && SetSince(t) == SetSince(s.trace) && LostSince(t) == LostSince(s.trace) && OutputsBefore(t) == OutputsBefore(s.trace)
            && FailedSince(t) == ((e.judged && Failed(e.tc)) || FailedSince(s.trace))
  {
    hide AllExplained, Explained, Runs, Posts, LogsTaken, Files, LastGroup, Running, SetSince, LostSince, FailedSince, OutputsBefore;
    Snoc(w, s.trace, e);
    SnocExplained(w, s.trace, e);
    RecordKeeps(s, e.judged, e.tc);
  }

  /** Before the step has recorded anything, its verdict can only be an old one under the
      greatest integer. */
  lemma Unfailing(step: StepSpec, cases: seq<CaseCompletion>)
    requires Settled(cases)
    ensures JudgedFailure(step, cases) ==> CaseFailed(cases, MAX_INT)
  {
    AtoiRange(IndexText(step));
    if IndexOf(step) < MAX_INT {
      NothingBehindFailed(cases, IndexOf(step));
    }
  }

  lemma NewVerdict(step: StepSpec, cases: seq<CaseCompletion>, tc: CaseCompletion)
    requires tc.index == IndexOf(step)
    ensures JudgedFailure(step, cases + [tc]) <==> Judged(step) && Failed(tc)
  {
    var all := cases + [tc];
    assert all[|all| - 1] == tc;
  }
}
