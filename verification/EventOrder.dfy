/** Event numbering under concurrency: the main thread and the two log readers of
    a step share one mutex-protected counter, while posts arrive in any order or
    not at all. The system is a transition relation; the results are about every
    run of it. */
module EventOrder {
  import opened Text

  datatype Channel = Stdout | Stderr
  datatype Thread = Main | Reader(channel: Channel)

  /** The lines that each output channel of one step will produce. */
  datatype StepLogs = StepLogs(stdout: seq<string>, stderr: seq<string>) {
    function Of(c: Channel): seq<string> { if c == Stdout then stdout else stderr }
  }

  /** What an event says. Note stands for everything else a reader posts about its
      channel (usage, inner jobs, warnings); line is the position of a log line. Own is
      what else the main thread posts in a step (its runtime, its outputs), Outside what
      it posts between steps (groups, failures); an event between steps has the number of
      the step to come. */
  datatype Kind = Started | Terminal | Log(channel: Channel, line: nat, text: string) | Note(channel: Channel) | Own | Outside

  datatype Event = Event(number: nat, step: nat, kind: Kind)

  /** A thread is idle, or on its way through nextSeq with an event to number, or
      waiting for a synchronous post to end. */
  datatype Pc =
    | Idle
    | Waiting(kind: Kind)
    | Locked(kind: Kind)
    | Incremented(kind: Kind)
    | Posting(event: Event)

  datatype System = System(
    counter: nat,
    mutex: Option<Thread>,
    pc: map<Thread, Pc>,
    step: nat,
    running: bool,
    read: map<Channel, nat>,
    issued: seq<Event>,
    inflight: set<Event>,
    delivered: set<Event>)

  ghost predicate Init(s: System) {
    && s.counter == 0 && s.mutex == None && s.step == 0 && !s.running
    && (forall t: Thread :: t in s.pc && s.pc[t] == Idle)
    && (forall c: Channel :: c in s.read && s.read[c] == 0)
    && s.issued == [] && s.inflight == {} && s.delivered == {}
  }

  // ----- Steps

  /** The thread has something to post. While the readers post nothing, the main thread
      may; it starts a step, and ends it after both readers have finished. A reader takes
      its next line, or posts something else first. */
  ghost predicate Want(steps: seq<StepLogs>, s: System, t: Thread, kind: Kind, s': System) {
    && Total(s) && s.pc[t] == Idle && (kind == Outside || s.step < |steps|)
    && match t {
      case Main =>
        && MainKind(s.running, kind)
        && (forall c: Channel :: s.pc[Reader(c)] == Idle)
        && (kind == Terminal ==> forall c: Channel :: s.read[c] == |steps[s.step].Of(c)|)
        && s' == s.(pc := s.pc[t := Waiting(kind)])
      case Reader(c) =>
        && s.running && s.pc[Main] == Idle && s.step < |steps|
        && ((kind == Note(c) && s' == s.(pc := s.pc[t := Waiting(kind)]))
            || (&& s.read[c] < |steps[s.step].Of(c)|
                && kind == Log(c, s.read[c], steps[s.step].Of(c)[s.read[c]])
                && s' == s.(pc := s.pc[t := Waiting(kind)], read := s.read[c := s.read[c] + 1])))
    }
  }

  /** What the main thread posts in a step, and between steps. */
  predicate MainKind(running: bool, kind: Kind) {
    if running then kind == Terminal || kind == Own else kind == Started || kind == Outside
  }

  ghost predicate Lock(s: System, t: Thread, s': System) {
    && Total(s) && s.pc[t].Waiting? && s.mutex == None
    && s' == s.(mutex := Some(t), pc := s.pc[t := Locked(s.pc[t].kind)])
  }

  ghost predicate Increment(s: System, t: Thread, s': System) {
    && Total(s) && s.pc[t].Locked?
    && s' == s.(counter := s.counter + 1, pc := s.pc[t := Incremented(s.pc[t].kind)])
  }

  /** The thread copies the counter, leaves the mutex and hands the event to HTTP.
      Only for a log line does it not wait for the post to end. */
  ghost predicate Take(s: System, t: Thread, s': System) {
    && Total(s) && s.pc[t].Incremented?
    && var e := Event(s.counter, s.step, s.pc[t].kind);
    s' == s.(mutex := None, issued := s.issued + [e], inflight := s.inflight + {e},
             pc := s.pc[t := if e.kind.Log? then Idle else Posting(e)])
  }

  ghost predicate Return(s: System, t: Thread, s': System) {
    && Total(s) && s.pc[t].Posting? && s.pc[t].event !in s.inflight
    && var kind, idle := s.pc[t].event.kind, s.pc[t := Idle];
    s' == match kind
          case Started => s.(pc := idle, running := true, read := s.read[Stdout := 0][Stderr := 0])
          case Terminal => s.(pc := idle, running := false, step := s.step + 1)
          case _ => s.(pc := idle)
  }

  /** A post arrives, or is lost. */
  ghost predicate Network(s: System, e: Event, s': System) {
    && e in s.inflight
    && (s' == s.(inflight := s.inflight - {e}, delivered := s.delivered + {e})
        || s' == s.(inflight := s.inflight - {e}))
  }

  ghost predicate Next(steps: seq<StepLogs>, s: System, s': System) {
    || (exists t, kind :: Want(steps, s, t, kind, s'))
    || (exists t :: Lock(s, t, s') || Increment(s, t, s') || Take(s, t, s') || Return(s, t, s'))
    || (exists e :: Network(s, e, s'))
  }

  /** A run: any finite sequence of steps from an initial state. */
  ghost predicate Run(steps: seq<StepLogs>, run: seq<System>) {
    && run != [] && Init(run[0])
    && forall i | 0 <= i < |run| - 1 :: Next(steps, run[i], run[i + 1])
  }

  // ----- The invariant

  ghost predicate Total(s: System) {
    (forall t: Thread :: t in s.pc) && (forall c: Channel :: c in s.read)
  }

  /** Mutual exclusion, and what the counter therefore counts. */
  ghost predicate Numbered(s: System)
    requires Total(s)
  {
    && (forall t: Thread :: (s.pc[t].Locked? || s.pc[t].Incremented?) <==> s.mutex == Some(t))
    && s.counter == |s.issued| + (if s.mutex.Some? && s.pc[s.mutex.value].Incremented? then 1 else 0)
    && (forall i | 0 <= i < |s.issued| :: s.issued[i].number == i + 1)
    && s.inflight <= Elements(s.issued) && s.delivered <= Elements(s.issued)
  }

  function Elements(es: seq<Event>): set<Event> {
    set e | e in es
  }

  /** The event a thread is about to number, if any. */
  function Held(pc: Pc): Option<Kind> {
    match pc
    case Idle => None
    case Posting(_) => None
    case _ => Some(pc.kind)
  }

  /** The event a thread is occupied with, if any. */
  function Busy(pc: Pc): Option<Kind> {
    match pc
    case Idle => None
    case Posting(e) => Some(e.kind)
    case _ => Some(pc.kind)
  }

  predicate StartPosted(s: System) requires Main in s.pc {
    s.running || (s.pc[Main].Posting? && s.pc[Main].event.kind == Started)
  }

  predicate EndPosted(s: System) requires Main in s.pc {
    s.pc[Main].Posting? && s.pc[Main].event.kind == Terminal
  }

  /** A reader numbers the line it has read last, or posts something else. */
  ghost predicate HeldByReader(steps: seq<StepLogs>, s: System, c: Channel, kind: Kind)
    requires Total(s) && s.step < |steps| && s.read[c] <= |steps[s.step].Of(c)|
  {
    kind == Note(c) || (s.read[c] > 0 && kind == Log(c, s.read[c] - 1, steps[s.step].Of(c)[s.read[c] - 1]))
  }

  /** Which thread may be doing what. */
  ghost predicate Disciplined(steps: seq<StepLogs>, s: System)
    requires Total(s)
  {
    && (s.running ==> s.step < |steps|)
    && (s.pc[Main] != Idle ==> forall c: Channel :: s.pc[Reader(c)] == Idle)
    && (Busy(s.pc[Main]).Some? ==> MainKind(s.running, Busy(s.pc[Main]).value))
    && (Busy(s.pc[Main]) == Some(Started) ==> s.step < |steps|)
    && (Busy(s.pc[Main]) == Some(Terminal) ==> forall c: Channel :: s.read[c] == |steps[s.step].Of(c)|)
    && (forall c: Channel :: s.pc[Reader(c)] != Idle ==> s.running)
    && (forall c: Channel :: s.pc[Reader(c)].Posting? ==> s.pc[Reader(c)].event.kind == Note(c))
    && (s.running ==> forall c: Channel :: s.read[c] <= |steps[s.step].Of(c)|)
    && (forall c: Channel :: Held(s.pc[Reader(c)]).Some? ==> HeldByReader(steps, s, c, Held(s.pc[Reader(c)]).value))
  }

  /** Steps come one after the other; within a step the start is the first event and the
      end the last, and events outside come before the start. */
  ghost predicate Framed(s: System)
    requires Total(s)
  {
    && (forall i | 0 <= i < |s.issued| :: s.issued[i].step <= s.step)
    && (forall i | 0 <= i < |s.issued| && s.issued[i].step == s.step ::
          (s.issued[i].kind != Outside ==> StartPosted(s)) && (s.issued[i].kind == Terminal ==> EndPosted(s)))
    && (forall i, j | 0 <= i < j < |s.issued| :: Follows(s.issued[i], s.issued[j]))
    && (forall k | 0 <= k <= s.step && (k == s.step ==> StartPosted(s)) :: Has(s.issued, k, Started))
    && (forall k | 0 <= k <= s.step && (k == s.step ==> EndPosted(s)) :: Has(s.issued, k, Terminal))
  }

  /** b may come after a. */
  predicate Follows(a: Event, b: Event) {
    && a.step <= b.step
    && (a.step == b.step ==> a.kind != Terminal && (b.kind == Started || b.kind == Outside ==> a.kind == Outside))
  }

  ghost predicate Has(es: seq<Event>, step: nat, kind: Kind) {
    exists i :: 0 <= i < |es| && es[i].step == step && es[i].kind == kind
  }

  /** The texts of one channel's log lines of one step, in the order of issue. */
  function LogOf(es: seq<Event>, step: nat, c: Channel): seq<string> {
    if es == [] then []
    else
      var e, before := es[|es| - 1], LogOf(es[..|es| - 1], step, c);
      if IsLog(e, step, c) then before + [e.kind.text] else before
  }

  predicate IsLog(e: Event, step: nat, c: Channel) {
    e.step == step && e.kind.Log? && e.kind.channel == c
  }

  /** How many lines of the channel have been numbered in the current step. */
  ghost function Taken(s: System, c: Channel): int
    requires Total(s)
  {
    var held, read: int := Held(s.pc[Reader(c)]), s.read[c];
    if !s.running then 0 else if held.Some? && held.value.Log? then read - 1 else read
  }

  /** The numbered log lines of a channel are the lines it has read, in order. */
  ghost predicate Logged(steps: seq<StepLogs>, s: System)
    requires Total(s) && Disciplined(steps, s)
  {
    && (forall k, c | 0 <= k < s.step && k < |steps| :: LogOf(s.issued, k, c) == steps[k].Of(c))
    && (forall c: Channel :: LogOf(s.issued, s.step, c) == if s.running then steps[s.step].Of(c)[..Taken(s, c)] else [])
    && (forall i, c | 0 <= i < |s.issued| && IsLog(s.issued[i], s.issued[i].step, c) ::
          s.issued[i].kind.line == |LogOf(s.issued[..i], s.issued[i].step, c)|)
  }

  ghost predicate Inv(steps: seq<StepLogs>, s: System) {
    && Total(s) && s.step <= |steps|
    && Numbered(s) && Disciplined(steps, s) && Framed(s) && Logged(steps, s)
  }

  // ----- Every step keeps it

  lemma InitInv(steps: seq<StepLogs>, s: System)
    requires Init(s)
    ensures Inv(steps, s)
  {}

  /** What is known of the past changes only when an event is numbered, when a step
      begins or ends, or when the posts of its frame do. */
  lemma SameHistory(steps: seq<StepLogs>, s: System, s': System)
    requires Inv(steps, s) && Total(s') && Disciplined(steps, s')
    requires s'.issued == s.issued && s'.step == s.step && s'.running == s.running
    requires StartPosted(s') == StartPosted(s) && EndPosted(s') == EndPosted(s)
    requires forall c: Channel :: Taken(s', c) == Taken(s, c)
    ensures Framed(s') && Logged(steps, s')
  {}

  lemma WantNumbered(steps: seq<StepLogs>, s: System, t: Thread, kind: Kind, s': System)
    requires Total(s) && Numbered(s) && Want(steps, s, t, kind, s')
    ensures Total(s') && Numbered(s')
  {}

  lemma WantDisciplined(steps: seq<StepLogs>, s: System, t: Thread, kind: Kind, s': System)
    requires Total(s) && Disciplined(steps, s) && Want(steps, s, t, kind, s')
    ensures Total(s') && Disciplined(steps, s')
  {
    hide Disciplined;
    match t {
      case Main => MainWants(steps, s, kind, s');
      case Reader(c) => ReaderWants(steps, s, c, kind, s');
    }
  }

  lemma MainWants(steps: seq<StepLogs>, s: System, kind: Kind, s': System)
    requires Total(s) && Disciplined(steps, s) && Want(steps, s, Main, kind, s')
    ensures Total(s') && Disciplined(steps, s')
  {}

  lemma ReaderWants(steps: seq<StepLogs>, s: System, c: Channel, kind: Kind, s': System)
    requires Total(s) && Disciplined(steps, s) && Want(steps, s, Reader(c), kind, s')
    ensures Total(s') && Disciplined(steps, s')
  {}

  lemma WantPosts(steps: seq<StepLogs>, s: System, t: Thread, kind: Kind, s': System)
    requires Total(s) && Want(steps, s, t, kind, s')
    ensures Total(s')
    ensures s'.issued == s.issued && s'.step == s.step && s'.running == s.running
    ensures StartPosted(s') == StartPosted(s) && EndPosted(s') == EndPosted(s)
    ensures forall c: Channel :: Taken(s', c) == Taken(s, c)
  {}

  lemma WantInv(steps: seq<StepLogs>, s: System, t: Thread, kind: Kind, s': System)
    requires Inv(steps, s) && Want(steps, s, t, kind, s')
    ensures Inv(steps, s')
  {
    WantNumbered(steps, s, t, kind, s');
    WantDisciplined(steps, s, t, kind, s');
    WantPosts(steps, s, t, kind, s');
    SameHistory(steps, s, s');
  }

  lemma LockNumbered(s: System, t: Thread, s': System)
    requires Total(s) && Numbered(s) && (Lock(s, t, s') || Increment(s, t, s'))
    ensures Total(s') && Numbered(s')
  {}

  lemma LockDisciplined(steps: seq<StepLogs>, s: System, t: Thread, s': System)
    requires Total(s) && Disciplined(steps, s) && (Lock(s, t, s') || Increment(s, t, s'))
    ensures Total(s') && Disciplined(steps, s')
  {}

  lemma LockPosts(s: System, t: Thread, s': System)
    requires Total(s) && (Lock(s, t, s') || Increment(s, t, s'))
    ensures Total(s')
    ensures s'.issued == s.issued && s'.step == s.step && s'.running == s.running
    ensures StartPosted(s') == StartPosted(s) && EndPosted(s') == EndPosted(s)
    ensures forall c: Channel :: Taken(s', c) == Taken(s, c)
  {}

  lemma LockInv(steps: seq<StepLogs>, s: System, t: Thread, s': System)
    requires Inv(steps, s) && (Lock(s, t, s') || Increment(s, t, s'))
    ensures Inv(steps, s')
  {
    LockNumbered(s, t, s');
    LockDisciplined(steps, s, t, s');
    LockPosts(s, t, s');
    SameHistory(steps, s, s');
  }

  lemma TakeInv(steps: seq<StepLogs>, s: System, t: Thread, s': System)
    requires Inv(steps, s) && Take(s, t, s')
    ensures Inv(steps, s')
  {
    TakeNumbered(steps, s, t, s');
    TakeDisciplined(steps, s, t, s');
    TakeFramed(steps, s, t, s');
    TakeLogged(steps, s, t, s');
  }

  lemma TakeNumbered(steps: seq<StepLogs>, s: System, t: Thread, s': System)
    requires Inv(steps, s) && Take(s, t, s')
    ensures Total(s') && Numbered(s')
  {
    var e := s'.issued[|s.issued|];
    assert Elements(s'.issued) == Elements(s.issued) + {e};
  }

  /** A thread about to leave the mutex: either the main thread, with both readers
      idle, or a reader, with the main thread idle. */
  lemma Holder(steps: seq<StepLogs>, s: System, t: Thread)
    requires Inv(steps, s) && s.pc[t].Incremented?
    ensures s.counter == |s.issued| + 1 && (s.pc[t].kind != Outside ==> s.step < |steps|)
    ensures t == Main ==> MainKind(s.running, s.pc[t].kind) && StartPosted(s) == s.running
    ensures !EndPosted(s)
    ensures t.Reader? ==>
              var c, k := t.channel, s.pc[t].kind;
              && s.running && s.pc[Main] == Idle
              && (k == Note(c) || (s.read[c] > 0 && k == Log(c, s.read[c] - 1, steps[s.step].Of(c)[s.read[c] - 1])))
  {}

  lemma TakeDisciplined(steps: seq<StepLogs>, s: System, t: Thread, s': System)
    requires Total(s) && Disciplined(steps, s) && Take(s, t, s')
    ensures Total(s') && Disciplined(steps, s')
    ensures forall c: Channel :: Taken(s', c) == Taken(s, c) + if IsLog(Event(s.counter, s.step, s.pc[t].kind), s.step, c) then 1 else 0
  {}

  lemma TakeFramed(steps: seq<StepLogs>, s: System, t: Thread, s': System)
    requires Inv(steps, s) && Take(s, t, s')
    ensures Total(s') && Framed(s')
  {
    hide Numbered, Logged, Has;
    var e := Event(s.counter, s.step, s.pc[t].kind);
    Holder(steps, s, t);
    TakeOrder(s, e);
    forall k, kind | 0 <= k <= s.step && Has(s.issued, k, kind)
      ensures Has(s'.issued, k, kind)
    {
      HasStill(s.issued, e, k, kind);
    }
    HasNew(s.issued, e);
  }

  lemma HasNew(es: seq<Event>, e: Event)
    ensures Has(es + [e], e.step, e.kind)
  {
    assert (es + [e])[|es|] == e;
  }

  lemma HasStill(es: seq<Event>, e: Event, step: nat, kind: Kind)
    requires Has(es, step, kind)
    ensures Has(es + [e], step, kind)
  {
    var i :| 0 <= i < |es| && es[i].step == step && es[i].kind == kind;
    assert (es + [e])[i] == es[i];
  }

  /** The new event comes after all others of its step, none of which is the end. */
  lemma TakeOrder(s: System, e: Event)
    requires Total(s) && Framed(s) && e.step == s.step && !EndPosted(s)
    requires e.kind == Started || e.kind == Outside ==> !StartPosted(s)
    ensures var es := s.issued + [e];
            forall i, j | 0 <= i < j < |es| :: Follows(es[i], es[j])
  {}

  lemma TakeLogged(steps: seq<StepLogs>, s: System, t: Thread, s': System)
    requires Inv(steps, s) && Take(s, t, s') && Total(s') && Disciplined(steps, s')
    requires forall c: Channel :: Taken(s', c) == Taken(s, c) + if IsLog(Event(s.counter, s.step, s.pc[t].kind), s.step, c) then 1 else 0
    ensures Logged(steps, s')
  {
    var e := Event(s.counter, s.step, s.pc[t].kind);
    Holder(steps, s, t);
    TakeLines(steps, s, e);
    TakeEarlier(s.issued, e, s.step);
    TakePositions(s, e);
  }

  lemma TakeEarlier(es: seq<Event>, e: Event, step: nat)
    requires e.step == step
    ensures forall k, c | 0 <= k < step :: LogOf(es + [e], k, c) == LogOf(es, k, c)
  {
    forall k, c | 0 <= k < step
      ensures LogOf(es + [e], k, c) == LogOf(es, k, c)
    {
      LogOfSnoc(es, e, k, c);
    }
  }

  lemma TakeLines(steps: seq<StepLogs>, s: System, e: Event)
    requires Total(s) && Disciplined(steps, s) && Logged(steps, s)
    requires e.step == s.step && (e.kind.Log? ==> var c := e.kind.channel;
               s.running && s.read[c] > 0 && Held(s.pc[Reader(c)]) == Some(e.kind) && e.kind.text == steps[s.step].Of(c)[s.read[c] - 1])
    ensures forall c: Channel :: LogOf(s.issued + [e], s.step, c) == if s.running
              then steps[s.step].Of(c)[..Taken(s, c) + if IsLog(e, s.step, c) then 1 else 0] else []
  {
    forall c: Channel
      ensures LogOf(s.issued + [e], s.step, c) == if s.running
              then steps[s.step].Of(c)[..Taken(s, c) + if IsLog(e, s.step, c) then 1 else 0] else []
    {
      LogOfSnoc(s.issued, e, s.step, c);
      if IsLog(e, s.step, c) {
        var lines := steps[s.step].Of(c);
        assert lines[..Taken(s, c) + 1] == lines[..Taken(s, c)] + [lines[Taken(s, c)]];
      }
    }
  }

  lemma TakePositions(s: System, e: Event)
    requires forall i, c | 0 <= i < |s.issued| && IsLog(s.issued[i], s.issued[i].step, c) ::
               s.issued[i].kind.line == |LogOf(s.issued[..i], s.issued[i].step, c)|
    requires e.kind.Log? ==> e.kind.line == |LogOf(s.issued, e.step, e.kind.channel)|
    ensures var es := s.issued + [e];
            forall i, c | 0 <= i < |es| && IsLog(es[i], es[i].step, c) :: es[i].kind.line == |LogOf(es[..i], es[i].step, c)|
  {
    var n, es := |s.issued|, s.issued + [e];
    forall i, c | 0 <= i <= n && IsLog(es[i], es[i].step, c)
      ensures es[i].kind.line == |LogOf(es[..i], es[i].step, c)|
    {
      assert es[..i] == s.issued[..i];
      if i == n { assert s.issued[..n] == s.issued; }
    }
  }

  lemma LogOfSnoc(es: seq<Event>, e: Event, step: nat, c: Channel)
    ensures LogOf(es + [e], step, c) == LogOf(es, step, c) + if IsLog(e, step, c) then [e.kind.text] else []
  {
    assert (es + [e])[..|es|] == es;
  }

  lemma ReturnNumbered(s: System, t: Thread, s': System)
    requires Total(s) && Numbered(s) && Return(s, t, s')
    ensures Total(s') && Numbered(s')
  {}

  /** The end of the post changes nothing but the thread. */
  ghost predicate Passing(s: System, t: Thread) {
    t.Reader? || (t in s.pc && (Busy(s.pc[t]) == Some(Own) || Busy(s.pc[t]) == Some(Outside)))
  }

  lemma ReturnDisciplined(steps: seq<StepLogs>, s: System, t: Thread, s': System)
    requires Total(s) && Disciplined(steps, s) && Return(s, t, s')
    ensures Total(s') && Disciplined(steps, s')
    ensures Passing(s, t) ==> s'.issued == s.issued && s'.step == s.step && s'.running == s.running
    ensures Passing(s, t) ==> StartPosted(s') == StartPosted(s) && EndPosted(s') == EndPosted(s)
    ensures Passing(s, t) ==> forall c: Channel :: Taken(s', c) == Taken(s, c)
    ensures t == Main && Busy(s.pc[t]) == Some(Started) ==> s'.running && s'.step == s.step && StartPosted(s)
    ensures t == Main && Busy(s.pc[t]) == Some(Terminal) ==> s.running && !s'.running && s'.step == s.step + 1 && EndPosted(s)
  {}

  lemma ReturnInv(steps: seq<StepLogs>, s: System, t: Thread, s': System)
    requires Inv(steps, s) && Return(s, t, s')
    ensures Inv(steps, s')
  {
    ReturnNumbered(s, t, s');
    ReturnDisciplined(steps, s, t, s');
    if Passing(s, t) {
      SameHistory(steps, s, s');
    } else {
      ReturnFramed(steps, s, s');
      ReturnLogged(steps, s, s');
    }
  }

  lemma ReturnFramed(steps: seq<StepLogs>, s: System, s': System)
    requires Inv(steps, s) && !Passing(s, Main) && Return(s, Main, s') && Total(s') && Disciplined(steps, s')
    ensures Framed(s')
  {}

  lemma {:induction false} ReturnLogged(steps: seq<StepLogs>, s: System, s': System)
    requires Inv(steps, s) && !Passing(s, Main) && Return(s, Main, s') && Total(s') && Disciplined(steps, s')
    ensures Logged(steps, s')
  {
    hide Numbered;
    if s.running {
      var next := s.step + 1;
      forall c: Channel
        ensures LogOf(s.issued, next, c) == []
      {
        LogOfNone(s.issued, next, c);
      }
    }
  }

  lemma {:induction false} LogOfNone(es: seq<Event>, step: nat, c: Channel)
    requires forall i | 0 <= i < |es| :: es[i].step != step
    ensures LogOf(es, step, c) == []
  {
    if es != [] {
      LogOfNone(es[..|es| - 1], step, c);
    }
  }

  lemma NetworkInv(steps: seq<StepLogs>, s: System, e: Event, s': System)
    requires Inv(steps, s) && Network(s, e, s')
    ensures Inv(steps, s')
  {
    SameHistory(steps, s, s');
  }
}
