/** The runner itself, as it updates its fields: every method does what the model says. */
module Runner {
  import opened Text
  import opened Numbers
  import opened CaseVerdict
  import opened RunnerModel
  import opened RunnerExpansion

  class Runner {
    const w: World
    var seqNo: nat
    var executed: nat
    var outputs: map<string, string>
    var caseCompletions: seq<CaseCompletion>
    var completion: Metadata
    var trace: seq<Entry>

    function Now(): State
      reads this
    {
      State(seqNo, executed, outputs, caseCompletions, completion, trace)
    }

    constructor (world: World)
      ensures w == world && Now() == START
    {
      w := world;
      seqNo, executed, outputs, caseCompletions := 0, 0, map[], [];
      completion, trace := Metadata(None, []), [];
    }

    method NextSeq() returns (n: nat)
      modifies this`seqNo
      ensures n == seqNo == old(seqNo) + 1
    {
      seqNo := seqNo + 1;
      n := seqNo;
    }

    method PostEvent(event: Event) returns (err: Err)
      modifies this
      ensures Out(Now(), err) == Post(w, old(Now()), event)
    {
      var n := NextSeq();
      trace := trace + [Posted(n, !w.postFails(n), event)];
      err := if w.postFails(n) then StepError else NoError;
    }

    method PublishOutputs(slug: string, published: map<string, string>) returns (err: Err)
      modifies this
      ensures Out(Now(), err) == PublishAll(w, slug, Some(published), old(Now()))
    {
      var keys := Sorted(published.Keys);
      SortedKeys(published.Keys);
      var k := 0;
      while k < |keys|
        invariant k <= |keys|
        invariant Publish(w, slug, published, keys[k..], Now()) == PublishAll(w, slug, Some(published), old(Now()))
      {
        var key := keys[k];
        assert keys[k..][1..] == keys[k + 1..];
        if key in outputs {
          return StepError;
        }
        err := PostEvent(PhaseOutputSet(slug, key, published[key]));
        if err != NoError {
          return;
        }
        outputs := outputs[key := published[key]];
        k := k + 1;
      }
      return NoError;
    }

    method CollectCompletionMetadata(file: CompletionFile, step: StepSpec) returns (err: Err)
      modifies this
      ensures Out(Now(), err) == Collect(step, file, old(Now()))
    {
      if file.Absent? {
        return NoError;
      }
      if file.Unreadable? {
        return StepError;
      }
      if file.verification.Some? && IndexText(step) != "" {
        var tc := CaseCompletion(IndexOf(step), Trim(Get(step.env, CaseLabel)), file.verification.value, file.evidence);
        caseCompletions := caseCompletions + [tc];
        trace := trace + [Recorded(Judged(step), tc)];
        return NoError;
      }
      if file.verification.Some? {
        completion := completion.(verification := file.verification);
      }
      if file.evidence != [] {
        completion := completion.(evidence := file.evidence);
      }
      return NoError;
    }

    method DynamicCaseFailureForStep(step: StepSpec) returns (failed: bool)
      ensures failed == JudgedFailure(step, caseCompletions)
    {
      var index := Atoi(IndexText(step));
      if !index.ok || index.value <= 0 {
        return false;
      }
      failed := DynamicCaseFailure(caseCompletions, index.value);
    }

    method RequestedAbort() returns (requested: bool)
      ensures requested == AbortRequested(outputs)
    {
      requested := AbortRequested(outputs);
    }

    /** The command of the step, and what it leaves behind. */
    method ExecuteStep(slug: string, step: StepSpec) returns (exitCode: int, failed: bool, outputErr: Err)
      modifies this
      ensures Ended(Now(), exitCode, failed, outputErr != NoError) == Execute(w, slug, step, old(Now()))
    {
      if !Executable(step.kind) {
        return 1, true, NoError;
      }
      var x := w.executions(executed);
      executed, seqNo, trace := executed + 1, seqNo + x.logs, trace + [Ran(slug)];
      outputErr := StepError;
      if x.outputs.Some? {
        outputErr := PublishOutputs(slug, x.outputs.value);
      }
      var completionErr := CollectCompletionMetadata(x.completion, step);
      if outputErr == NoError && completionErr != NoError {
        outputErr := completionErr;
      }
      exitCode, failed := x.exitCode, x.failed;
    }

    method DoStep(step: StepSpec) returns (err: Err)
      modifies this
      ensures Out(Now(), err) == RunStep(w, step, old(Now()))
    {
      var slug := Slug(step);
      if slug == "" {
        trace := trace + [Rejected(BlankSlug)];
        return StepError;
      }
      err := PostEvent(StepStarted(slug));
      if err != NoError {
        return;
      }
      var exitCode, failed, outputErr := ExecuteStep(slug, step);
      err := FinishStep(slug, step, exitCode, failed, outputErr);
    }

    method FinishStep(slug: string, step: StepSpec, exitCode: int, failed: bool, outputErr: Err) returns (err: Err)
      modifies this
      ensures Out(Now(), err) == Finish(w, slug, step, Ended(old(Now()), exitCode, failed, outputErr != NoError))
    {
      if failed {
        var ignored := PostEvent(StepFailed(slug, exitCode));
        return StepError;
      }
      if outputErr != NoError {
        var ignored := PostEvent(StepFailed(slug, 1));
        return StepError;
      }
      var caseFailed := DynamicCaseFailureForStep(step);
      if caseFailed {
        var ignored := PostEvent(StepFailed(slug, 1));
        return VerificationError;
      }
      var abort := RequestedAbort();
      if abort {
        err := PostEvent(StepAborted(slug));
      } else {
        err := PostEvent(StepCompleted(slug, exitCode));
      }
    }

    method FirstOutput(keys: seq<string>) returns (value: string)
      ensures value == match FirstSet(outputs, keys) case None => "" case Some(text) => text
      ensures FirstSet(outputs, keys).Some? ==> value != ""
    {
      var k := 0;
      while k < |keys|
        invariant k <= |keys| && FirstSet(outputs, keys) == FirstSet(outputs, keys[k..])
      {
        assert keys[k..][1..] == keys[k + 1..];
        var raw := if keys[k] in outputs then Trim(outputs[keys[k]]) else "";
        if raw != "" {
          return raw;
        }
        k := k + 1;
      }
      return "";
    }

    method DynamicCasesForGroup(group: string, maxItems: int) returns (cases: Option<seq<DynamicCase>>)
      ensures cases == CasesForGroup(w, group, maxItems, outputs)
    {
      var json := FirstOutput(OutputKeys(group, "_json"));
      if json != "" {
        var items := w.decode(json);
        if items.None? || |items.value| > maxItems {
          return None;
        }
        var numbered := NumberItems(items.value);
        return Some(numbered);
      }
      var text := FirstOutput(OutputKeys(group, "_count"));
      if text == "" {
        return None;
      }
      var count := Atoi(text);
      if !count.ok || count.value < 0 || count.value > maxItems {
        return None;
      }
      var counted := CountCases(count.value);
      return Some(counted);
    }

    method RunDynamicStepBlock(block: seq<StepSpec>) returns (err: Err)
      requires block != [] && InBlock(block[0])
      modifies this
      ensures Out(Now(), err) == RunBlock(w, true, block, old(Now()))
    {
      var group, maxItems := Trim(block[0].group), block[0].dynamic.value.maxItems;
      if maxItems <= 0 {
        trace := trace + [Rejected(NoMaxItems)];
        return StepError;
      }
      var cases := DynamicCasesForGroup(group, maxItems);
      if cases.None? {
        trace := trace + [Rejected(NoCases)];
        return StepError;
      }
      var planned := ConcreteDynamicSteps(block, cases.value);
      err := PostEvent(GroupExpanded(group, planned));
      if err != NoError {
        return;
      }
      if cases.value == [] {
        err := PostEvent(StepSkipped(group));
        return;
      }
      err := RunPlannedSteps(group, planned);
    }

    method RunPlannedSteps(group: string, planned: seq<StepSpec>) returns (err: Err)
      modifies this
      ensures Out(Now(), err) == RunPlanned(w, true, group, planned, 0, old(Now()))
    {
      var lastCaseIndex, k := 0, 0;
      while k < |planned|
        invariant k <= |planned|
        invariant RunPlanned(w, true, group, planned[k..], lastCaseIndex, Now()) == RunPlanned(w, true, group, planned, 0, old(Now()))
      {
        var step, rest := planned[k], planned[k + 1..];
        assert planned[k..] == [step] + rest;
        PlannedCons(w, group, step, rest, lastCaseIndex, Now());
        var caseIndex := IndexOf(step);
        var lastFailed := DynamicCaseFailure(caseCompletions, lastCaseIndex);
        if caseIndex != lastCaseIndex && lastCaseIndex > 0 && lastFailed {
          err := PostEvent(GroupStopped(group, lastCaseIndex));
          return;
        }
        lastCaseIndex := caseIndex;
        err := DoStep(step);
        if err != NoError {
          if err == VerificationError {
            var postErr := PostEvent(GroupStopped(group, caseIndex));
            if postErr != NoError {
              return postErr;
            }
          }
          return;
        }
        var abort := RequestedAbort();
        if abort {
          return NoError;
        }
        k := k + 1;
      }
      return NoError;
    }

    method PostCompletion(conclusion: Conclusion) returns (ok: bool)
      modifies this
      ensures Now() == Complete(w, conclusion, old(Now())) && ok == !w.completionFails
    {
      var reported := if completion.verification.Some? then OfStep(completion.verification.value) else Nothing;
      var evidence := completion.evidence;
      if |caseCompletions| > 0 {
        var aggregate := AggregateVerification(caseCompletions);
        reported := OfCases(aggregate);
        evidence := AggregateEvidence(caseCompletions, evidence);
      }
      ok := !w.completionFails;
      trace := trace + [Completed(ok, conclusion, outputs, reported, evidence)];
    }

    method PostShutdown()
      modifies this
      ensures Now() == CompleteShutdown(w, old(Now()))
    {
      var ignored := PostEvent(RunnerFailed);
      var undelivered := PostCompletion(TimedOut);
    }

    /** The completion of a run that an error has ended. */
    method PostError()
      modifies this
      ensures Now() == CompleteError(w, old(Now()))
    {
      if w.shutdown {
        PostShutdown();
      } else {
        var ignored := PostCompletion(Failure);
      }
    }

    /** A whole run; failed tells whether it returns an error. */
    method Run(job: seq<StepSpec>) returns (failed: bool)
      requires Now() == START
      modifies this
      ensures Now() == RunAll(w, true, job)
      ensures failed <==> w.completionFails || trace[|trace| - 1].conclusion == Failure || trace[|trace| - 1].conclusion == TimedOut
    {
      hide RunStep, RunBlock;
      if w.workspaceFails {
        trace := trace + [Rejected(NoWorkspace)];
        PostError();
        return true;
      }
      if w.checkoutFails {
        trace := trace + [Rejected(NoCheckout)];
        if w.shutdown {
          PostShutdown();
          return true;
        }
        var ignored := PostEvent(RunnerFailed);
        var undelivered := PostCompletion(Failure);
        return true;
      }
      var i := 0;
      while i < |job|
        invariant i <= |job|
        invariant RunSteps(w, true, job[i..], Now()) == RunSteps(w, true, job, START)
      {
        var step := job[i];
        assert job[i..][1..] == job[i + 1..];
        var block, next, dynamic := DynamicStepBlock(job, i);
        var err;
        if dynamic {
          assert job[i..][|block|..] == job[next..];
          err := RunDynamicStepBlock(block);
          i := next;
        } else {
          if !Supported(step.kind) {
            trace := trace + [Rejected(UnsupportedType)];
            var ignored := PostCompletion(Failure);
            return true;
          }
          err := DoStep(step);
          i := i + 1;
        }
        if err != NoError {
          PostError();
          return true;
        }
        var abort := RequestedAbort();
        if abort {
          var ok := PostCompletion(Aborted);
          return !ok;
        }
      }
      var ok := PostCompletion(Success);
      return !ok;
    }
  }

  lemma PlannedCons(w: World, group: string, step: StepSpec, rest: seq<StepSpec>, last: int, s: State)
    ensures RunPlanned(w, true, group, [step] + rest, last, s) ==
              if IndexOf(step) != last && last > 0 && CaseFailed(s.cases, last) then Post(w, s, GroupStopped(group, last))
              else
                var p := RunStep(w, step, s);
                if p.err == VerificationError then Stopped(p, Post(w, p.state, GroupStopped(group, IndexOf(step))))
                else if p.err != NoError || AbortRequested(p.state.outputs) then p
                else RunPlanned(w, true, group, rest, IndexOf(step), p.state)
  {
    assert ([step] + rest)[1..] == rest;
  }
}
