/** What the numbering of events guarantees: the invariant of every run, and its results. */
module EventNumbers {
  import opened EventOrder

  lemma NextInv(steps: seq<StepLogs>, s: System, s': System)
    requires Inv(steps, s) && Next(steps, s, s')
    ensures Inv(steps, s')
  {
    if t, kind :| Want(steps, s, t, kind, s') {
      WantInv(steps, s, t, kind, s');
    } else if t :| Lock(s, t, s') || Increment(s, t, s') || Take(s, t, s') || Return(s, t, s') {
      if Take(s, t, s') {
        TakeInv(steps, s, t, s');
      } else if Return(s, t, s') {
        ReturnInv(steps, s, t, s');
      } else {
        LockInv(steps, s, t, s');
      }
    } else {
      var e :| Network(s, e, s');
      NetworkInv(steps, s, e, s');
    }
  }

  lemma {:induction false} RunInv(steps: seq<StepLogs>, run: seq<System>, i: nat)
    requires Run(steps, run) && i < |run|
    ensures Inv(steps, run[i])
  {
    if i == 0 {
      InitInv(steps, run[0]);
    } else {
      RunInv(steps, run, i - 1);
      NextInv(steps, run[i - 1], run[i]);
    }
  }

  // ----- Results about every run

  /** No two events ever carry the same number, on the wire or at the server. */
  lemma NumbersAreUnique(steps: seq<StepLogs>, run: seq<System>, i: nat, a: Event, b: Event)
    requires Run(steps, run) && i < |run|
    requires a in run[i].inflight + run[i].delivered && b in run[i].inflight + run[i].delivered
    ensures a.number == b.number ==> a == b
  {
    RunInv(steps, run, i);
    var es := run[i].issued;
    assert a in es && b in es;
  }

  /** Numbers are those of the steps in order; within a step, the start comes before and
      the end after every other event, and events outside come before the start. */
  lemma LogsLieWithinTheirStep(steps: seq<StepLogs>, run: seq<System>, i: nat, a: Event, b: Event)
    requires Run(steps, run) && i < |run|
    requires a in run[i].delivered && b in run[i].delivered
    ensures a.step < b.step ==> a.number < b.number
    ensures a.step == b.step && a != b && ((a.kind == Started && b.kind != Outside) || b.kind == Terminal) ==> a.number < b.number
    ensures a.step == b.step && a.kind == Outside && b.kind != Outside ==> a.number < b.number
    ensures a.kind != Outside ==> exists e :: e in run[i].issued && e.step == a.step && e.kind == Started && e.number <= a.number
  {
    RunInv(steps, run, i);
    var es := run[i].issued;
    assert a in es && b in es;
    var x :| 0 <= x < |es| && es[x] == a;
    var y :| 0 <= y < |es| && es[y] == b;
    if a.kind != Outside {
      assert Has(es, a.step, Started);
      var z :| 0 <= z < |es| && es[z].step == a.step && es[z].kind == Started;
      assert es[z] in es;
    }
    if x < y { assert Follows(es[x], es[y]); }
    if y < x { assert Follows(es[y], es[x]); }
  }

  /** Of two delivered log lines of one channel, the one read first has the smaller
      number, whatever the order of arrival. */
  lemma NumbersFollowReadOrder(steps: seq<StepLogs>, run: seq<System>, i: nat, a: Event, b: Event)
    requires Run(steps, run) && i < |run|
    requires a in run[i].delivered && b in run[i].delivered
    requires a.kind.Log? && IsLog(b, a.step, a.kind.channel)
    ensures a.number < b.number <==> a.kind.line < b.kind.line
  {
    RunInv(steps, run, i);
    var es, c := run[i].issued, a.kind.channel;
    assert a in es && b in es;
    var x :| 0 <= x < |es| && es[x] == a;
    var y :| 0 <= y < |es| && es[y] == b;
    assert IsLog(es[x], es[x].step, c) && IsLog(es[y], es[y].step, c);
    if x < y {
      LogOfGrows(es, x, y, a.step, c);
    } else if y < x {
      LogOfGrows(es, y, x, a.step, c);
    }
  }

  lemma {:induction false} LogOfGrows(es: seq<Event>, x: nat, y: nat, step: nat, c: Channel)
    requires x < y <= |es| && IsLog(es[x], step, c)
    ensures |LogOf(es[..x], step, c)| < |LogOf(es[..y], step, c)|
    decreases y
  {
    assert es[..y][..y - 1] == es[..y - 1];
    if x < y - 1 {
      LogOfGrows(es, x, y - 1, step, c);
    }
  }

  /** A listing of a set of events in the order of their numbers. */
  ghost predicate SortedListing(r: seq<Event>, events: set<Event>) {
    && Elements(r) == events
    && forall i, j | 0 <= i < j < |r| :: r[i].number < r[j].number
  }

  /** When every post has arrived, sorting by number replays each channel's lines
      exactly as they were read: all of them, for a step that is over. */
  lemma SortingReplaysTheLog(steps: seq<StepLogs>, run: seq<System>, i: nat, r: seq<Event>, k: nat, c: Channel)
    requires Run(steps, run) && i < |run|
    requires run[i].delivered == Elements(run[i].issued) && SortedListing(r, run[i].delivered)
    ensures k < run[i].step ==> k < |steps| && LogOf(r, k, c) == steps[k].Of(c)
    ensures k == run[i].step && run[i].running ==> k < |steps| && LogOf(r, k, c) <= steps[k].Of(c)
  {
    RunInv(steps, run, i);
    ListingIsIssued(r, run[i].issued);
  }

  lemma {:induction false} ListingIsIssued(r: seq<Event>, es: seq<Event>)
    requires SortedListing(r, Elements(es)) && SortedListing(es, Elements(es))
    ensures r == es
    decreases |r|
  {
    if r == [] || es == [] {
      EmptyTogether(r, es);
    } else {
      var m, n := |r| - 1, |es| - 1;
      assert r[m] in Elements(es) && es[n] in Elements(r);
      var x :| 0 <= x < |es| && es[x] == r[m];
      var y :| 0 <= y < |r| && r[y] == es[n];
      assert r[m] == es[n];
      AllButLast(r);
      AllButLast(es);
      ListingIsIssued(r[..m], es[..n]);
    }
  }

  lemma EmptyTogether(r: seq<Event>, es: seq<Event>)
    requires Elements(r) == Elements(es)
    ensures r == [] <==> es == []
  {
    if r != [] { assert r[0] in Elements(r); }
    if es != [] { assert es[0] in Elements(es); }
  }

  lemma AllButLast(r: seq<Event>)
    requires r != [] && forall i, j | 0 <= i < j < |r| :: r[i].number < r[j].number
    ensures Elements(r[..|r| - 1]) == Elements(r) - {r[|r| - 1]}
  {
    var m := |r| - 1;
    forall e | e in Elements(r) - {r[m]}
      ensures e in Elements(r[..m])
    {
      var i :| 0 <= i < |r| && r[i] == e;
      assert r[..m][i] == e;
    }
  }
}
