/** What every trace that follows the protocol has: one completion, at its end, with the
    conclusion its entries call for, and nothing begun after something stopped the run. */
module RunnerGuarantees {
  import opened Text
  import opened CaseVerdict
  import opened RunnerModel
  import opened RunnerProtocol

  lemma AcceptSplits(shutdown: bool, trace: seq<Entry>)
    requires trace != [] && Accept(shutdown, Idle, trace).Some?
    ensures var n := |trace| - 1;
            && Accept(shutdown, Idle, trace[..n]).Some?
            && Accept(shutdown, Idle, trace) == Next(shutdown, Accept(shutdown, Idle, trace[..n]).value, trace[n])
  {}

  /** Prefixes of what may happen may happen. */
  lemma {:induction false} PrefixAccepted(shutdown: bool, trace: seq<Entry>, n: nat)
    requires Accept(shutdown, Idle, trace).Some? && n <= |trace|
    ensures Accept(shutdown, Idle, trace[..n]).Some?
    decreases |trace|
  {
    if n == |trace| {
      assert trace[..n] == trace;
    } else {
      var front := trace[..|trace| - 1];
      assert front[..n] == trace[..n];
      PrefixAccepted(shutdown, front, n);
    }
  }

  lemma DoneIsFinal(shutdown: bool, m: Mode, e: Entry)
    ensures Next(shutdown, Done, e) == None
    ensures e.Completed? ==> Next(shutdown, m, e) == None || Next(shutdown, m, e) == Some(Done)
    ensures Next(shutdown, m, e) == Some(Done) ==> e.Completed?
  {}

  /** A complete run completes once, at its end. */
  lemma CompletesOnce(shutdown: bool, trace: seq<Entry>)
    requires Accept(shutdown, Idle, trace) == Some(Done)
    ensures trace != [] && forall i | 0 <= i < |trace| :: trace[i].Completed? <==> i == |trace| - 1
  {
    hide Next;
    var n := |trace| - 1;
    AcceptSplits(shutdown, trace);
    DoneIsFinal(shutdown, Accept(shutdown, Idle, trace[..n]).value, trace[n]);
    forall i | 0 <= i < n
      ensures !trace[i].Completed?
    {
      NotCompletedBefore(shutdown, trace, i);
    }
  }

  lemma NotCompletedBefore(shutdown: bool, trace: seq<Entry>, i: nat)
    requires Accept(shutdown, Idle, trace).Some? && i < |trace| - 1
    ensures !trace[i].Completed?
  {
    hide Next;
    var upTo, after := trace[..i + 1], trace[..i + 2];
    PrefixAccepted(shutdown, trace, i + 1);
    PrefixAccepted(shutdown, trace, i + 2);
    AcceptSplits(shutdown, upTo);
    AcceptSplits(shutdown, after);
    assert after[..i + 1] == upTo;
    DoneIsFinal(shutdown, Accept(shutdown, Idle, upTo[..i]).value, upTo[i]);
    DoneIsFinal(shutdown, Idle, after[i + 1]);
  }

  /** What a conclusion depends on. */
  datatype Mark = Refusal | Fault | AbortRequest

  /** An error, or a failing verdict that the runner acts on. */
  predicate IsFault(e: Entry) {
    match e
    case Posted(_, ok, event) => !ok || event.StepFailed? || event.GroupStopped? || event.RunnerFailed?
    case Recorded(judged, tc) => judged && Failed(tc)
    case Rejected(cause) => cause != UnsupportedType
    case _ => false
  }

  predicate Is(e: Entry, mark: Mark) {
    match mark
    case Refusal => e == Rejected(UnsupportedType)
    case Fault => IsFault(e)
    case AbortRequest => e.Posted? && e.ok && e.event.PhaseOutputSet? && IsAbort(e.event.key, e.event.value)
  }

  /** What stops a run. */
  predicate Stops(e: Entry) {
    Is(e, Refusal) || Is(e, Fault) || Is(e, AbortRequest) || e.Completed?
  }

  /** A step or a block begins, or a step's command. */
  predicate Begins(e: Entry) {
    e.Ran? || (e.Posted? && (e.event.StepStarted? || e.event.GroupExpanded? || e.event.StepSkipped?))
  }

  predicate Spent(m: Mode) {
    !m.Idle? && !m.Skipping? && !(m.InStep? && !m.aborting)
  }

  lemma SpentStaysSpent(shutdown: bool, m: Mode, e: Entry)
    requires Next(shutdown, m, e).Some?
    ensures Stops(e) || Spent(m) ==> Spent(Next(shutdown, m, e).value)
    ensures Spent(m) ==> !Begins(e)
  {}

  lemma {:induction false} SpentAfter(shutdown: bool, trace: seq<Entry>, i: nat)
    requires Accept(shutdown, Idle, trace).Some? && i < |trace| && Stops(trace[i])
    ensures Spent(Accept(shutdown, Idle, trace).value)
    decreases |trace|
  {
    var n := |trace| - 1;
    AcceptSplits(shutdown, trace);
    SpentStaysSpent(shutdown, Accept(shutdown, Idle, trace[..n]).value, trace[n]);
    if i < n {
      SpentAfter(shutdown, trace[..n], i);
    }
  }

  /** Once something has stopped a run, nothing begins. */
  lemma NothingBeginsAfterAStop(shutdown: bool, trace: seq<Entry>, i: nat, j: nat)
    requires Accept(shutdown, Idle, trace).Some? && i < j < |trace| && Stops(trace[i])
    ensures !Begins(trace[j])
  {
    var before, front := trace[..j], trace[..j + 1];
    PrefixAccepted(shutdown, trace, j);
    PrefixAccepted(shutdown, trace, j + 1);
    assert front[..j] == before;
    SpentAfter(shutdown, before, i);
    SpentStaysSpent(shutdown, Accept(shutdown, Idle, before).value, trace[j]);
  }

  /** No further case can be recorded. */
  predicate Sealed(m: Mode) {
    Spent(m) && !m.InStep? && !(m.Broken? && !m.recorded)
  }

  lemma SealedStaysSealed(shutdown: bool, m: Mode, e: Entry)
    requires Next(shutdown, m, e).Some?
    ensures (e.Recorded? && e.judged && Failed(e.tc)) || Sealed(m) ==> Sealed(Next(shutdown, m, e).value)
    ensures Sealed(m) ==> !e.Recorded?
  {}

  lemma {:induction false} SealedAfter(shutdown: bool, trace: seq<Entry>, i: nat)
    requires Accept(shutdown, Idle, trace).Some? && i < |trace|
    requires trace[i].Recorded? && trace[i].judged && Failed(trace[i].tc)
    ensures Sealed(Accept(shutdown, Idle, trace).value)
    decreases |trace|
  {
    var n := |trace| - 1;
    AcceptSplits(shutdown, trace);
    SealedStaysSealed(shutdown, Accept(shutdown, Idle, trace[..n]).value, trace[n]);
    if i < n {
      SealedAfter(shutdown, trace[..n], i);
    }
  }

  /** A failing case that the runner acts on is the last one recorded. */
  lemma NothingRecordedAfterAFailure(shutdown: bool, trace: seq<Entry>, i: nat, j: nat)
    requires Accept(shutdown, Idle, trace).Some? && i < j < |trace|
    requires trace[i].Recorded? && trace[i].judged && Failed(trace[i].tc)
    ensures !trace[j].Recorded?
  {
    var before, front := trace[..j], trace[..j + 1];
    PrefixAccepted(shutdown, trace, j);
    PrefixAccepted(shutdown, trace, j + 1);
    assert front[..j] == before;
    SealedAfter(shutdown, before, i);
    SealedStaysSealed(shutdown, Accept(shutdown, Idle, before).value, trace[j]);
  }

  predicate Has(trace: seq<Entry>, mark: Mark) {
    exists i :: 0 <= i < |trace| && Is(trace[i], mark)
  }

  lemma HasSnoc(trace: seq<Entry>, mark: Mark)
    requires trace != []
    ensures Has(trace, mark) <==> Has(trace[..|trace| - 1], mark) || Is(trace[|trace| - 1], mark)
  {
    var front := trace[..|trace| - 1];
    if i :| 0 <= i < |trace| && Is(trace[i], mark) {
      if i < |front| { assert Is(front[i], mark); }
    }
    if i :| 0 <= i < |front| && Is(front[i], mark) {
      assert Is(trace[i], mark);
    }
  }

  /** The conclusion that the entries of a run call for. */
  function ConclusionOf(shutdown: bool, trace: seq<Entry>): Conclusion {
    if Has(trace, Refusal) then Failure
    else if Has(trace, Fault) then if shutdown then TimedOut else Failure
    else if Has(trace, AbortRequest) then Aborted
    else Success
  }

  /** What a mode says about the entries before it. */
  predicate Remembers(m: Mode, refusal: bool, fault: bool, abort: bool) {
    match m
    case Idle => !refusal && !fault && !abort
    case Skipping(_) => !refusal && !fault && !abort
    case InStep(_, _, _, aborting) => !refusal && !fault && abort == aborting
    case Aborting => !refusal && !fault && abort
    case Refusing => refusal
    case Done => true
    case _ => !refusal && fault
  }

  lemma ModeRemembersStep(shutdown: bool, m: Mode, e: Entry, refusal: bool, fault: bool, abort: bool)
    requires Next(shutdown, m, e).Some? && Remembers(m, refusal, fault, abort)
    ensures Remembers(Next(shutdown, m, e).value, refusal || Is(e, Refusal), fault || Is(e, Fault), abort || Is(e, AbortRequest))
  {}

  lemma {:induction false} ModeRemembers(shutdown: bool, trace: seq<Entry>)
    requires Accept(shutdown, Idle, trace).Some?
    ensures Remembers(Accept(shutdown, Idle, trace).value, Has(trace, Refusal), Has(trace, Fault), Has(trace, AbortRequest))
    decreases |trace|
  {
    if trace != [] {
      var n := |trace| - 1;
      AcceptSplits(shutdown, trace);
      ModeRemembers(shutdown, trace[..n]);
      HasSnoc(trace, Refusal);
      HasSnoc(trace, Fault);
      HasSnoc(trace, AbortRequest);
      ModeRemembersStep(shutdown, Accept(shutdown, Idle, trace[..n]).value, trace[n],
                        Has(trace[..n], Refusal), Has(trace[..n], Fault), Has(trace[..n], AbortRequest));
    }
  }

  /** The completion concludes what the run's entries call for. */
  lemma ConcludesAsCalledFor(shutdown: bool, trace: seq<Entry>)
    requires Accept(shutdown, Idle, trace) == Some(Done)
    ensures trace != [] && trace[|trace| - 1].Completed? && trace[|trace| - 1].conclusion == ConclusionOf(shutdown, trace)
  {
    var n := |trace| - 1;
    AcceptSplits(shutdown, trace);
    ModeRemembers(shutdown, trace[..n]);
    HasSnoc(trace, Refusal);
    HasSnoc(trace, Fault);
    HasSnoc(trace, AbortRequest);
  }

  // ----- Every step that starts ends once

  /** The start of a step has been delivered. */
  predicate Starts(e: Entry, slug: string) {
    e.Posted? && e.ok && e.event == StepStarted(slug)
  }

  predicate Ends(e: Entry, slug: string) {
    && e.Posted?
    && (e.event == StepAborted(slug)
        || (e.event.StepFailed? && e.event.slug == slug) || (e.event.StepCompleted? && e.event.slug == slug))
  }

  /** What may happen between the start and the end of a step. */
  predicate Within(e: Entry, slug: string) {
    e == Ran(slug) || e.Recorded? || (e.Posted? && e.event.PhaseOutputSet? && e.event.slug == slug)
  }

  /** A step has started at k and has not ended. */
  predicate Open(trace: seq<Entry>, k: nat, slug: string) {
    k < |trace| && Starts(trace[k], slug) && forall j | k < j < |trace| :: Within(trace[j], slug)
  }

  /** A step has started at k, and its end is attempted at n. */
  predicate Bracket(trace: seq<Entry>, k: nat, n: nat, slug: string) {
    n < |trace| && Open(trace[..n], k, slug) && Ends(trace[n], slug)
  }

  predicate InOrAfter(m: Mode, slug: string) {
    (m.InStep? || m.Broken?) && m.slug == slug
  }

  lemma StepMode(shutdown: bool, m: Mode, e: Entry, slug: string)
    requires Next(shutdown, m, e).Some?
    ensures InOrAfter(Next(shutdown, m, e).value, slug) ==> Starts(e, slug) || (Within(e, slug) && InOrAfter(m, slug))
    ensures Starts(e, slug) ==> InOrAfter(Next(shutdown, m, e).value, slug)
    ensures InOrAfter(m, slug) ==> Ends(e, slug) || (Within(e, slug) && InOrAfter(Next(shutdown, m, e).value, slug))
    ensures Ends(e, slug) ==> InOrAfter(m, slug)
  {}

  lemma {:induction false} InStepIsOpen(shutdown: bool, trace: seq<Entry>, slug: string) returns (k: nat)
    requires Accept(shutdown, Idle, trace).Some? && InOrAfter(Accept(shutdown, Idle, trace).value, slug)
    ensures Open(trace, k, slug)
    decreases |trace|
  {
    hide Next;
    var n := |trace| - 1;
    AcceptSplits(shutdown, trace);
    StepMode(shutdown, Accept(shutdown, Idle, trace[..n]).value, trace[n], slug);
    if Starts(trace[n], slug) {
      k := n;
    } else {
      k := InStepIsOpen(shutdown, trace[..n], slug);
    }
  }

  /** The end of a step comes after its start, with nothing of another step between them. */
  lemma EndIsStarted(shutdown: bool, trace: seq<Entry>, n: nat, slug: string) returns (k: nat)
    requires Accept(shutdown, Idle, trace).Some? && n < |trace| && Ends(trace[n], slug)
    ensures Bracket(trace, k, n, slug)
  {
    hide Next;
    var before := trace[..n + 1];
    PrefixAccepted(shutdown, trace, n + 1);
    AcceptSplits(shutdown, before);
    assert before[..n] == trace[..n];
    StepMode(shutdown, Accept(shutdown, Idle, trace[..n]).value, trace[n], slug);
    k := InStepIsOpen(shutdown, trace[..n], slug);
  }

  lemma {:induction false} OpenOrEnded(shutdown: bool, trace: seq<Entry>, k: nat, slug: string) returns (n: nat)
    requires Accept(shutdown, Idle, trace).Some? && k < |trace| && Starts(trace[k], slug)
    ensures Bracket(trace, k, n, slug) || (Open(trace, k, slug) && InOrAfter(Accept(shutdown, Idle, trace).value, slug))
    decreases |trace|
  {
    hide Next;
    var last := |trace| - 1;
    AcceptSplits(shutdown, trace);
    StepMode(shutdown, Accept(shutdown, Idle, trace[..last]).value, trace[last], slug);
    n := last;
    if k < last {
      var front := trace[..last];
      n := OpenOrEnded(shutdown, front, k, slug);
      if Bracket(front, k, n, slug) {
        assert front[..n] == trace[..n];
      } else {
        n := last;
      }
    }
  }

  /** In a complete run, every delivered start of a step has an end. */
  lemma StartIsEnded(shutdown: bool, trace: seq<Entry>, k: nat, slug: string) returns (n: nat)
    requires Accept(shutdown, Idle, trace) == Some(Done) && k < |trace| && Starts(trace[k], slug)
    ensures Bracket(trace, k, n, slug)
  {
    n := OpenOrEnded(shutdown, trace, k, slug);
  }

  lemma NothingInside(trace: seq<Entry>, k: nat, n: nat, slug: string)
    requires Bracket(trace, k, n, slug)
    ensures k < n && Starts(trace[k], slug) && forall i | k < i < n :: Within(trace[i], slug)
  {
    forall i | k <= i < n
      ensures trace[i] == trace[..n][i]
    {}
  }

  /** Starts and ends are paired one to one. */
  lemma BracketsAreUnique(trace: seq<Entry>, k: nat, n: nat, slug: string, i: nat, j: nat, other: string)
    requires Bracket(trace, k, n, slug) && Bracket(trace, i, j, other)
    ensures k == i <==> n == j
    ensures k < i ==> n < i
  {
    NothingInside(trace, k, n, slug);
    NothingInside(trace, i, j, other);
  }
}
