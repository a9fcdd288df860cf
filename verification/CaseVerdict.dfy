/** Verdicts of dynamic test cases: the runner's fold over the recorded cases, and the
    merging of their evidence. */
module CaseVerdict {
  import opened Text
  import opened Selections

  datatype Artifact = Artifact(kind: string, ref: string, artifactPath: string, url: string, caption: string)

  /** A verifier's verdict. status is the text it prints as; an absent failure block is
      an empty one. */
  datatype Verification = Verification(status: string, reasons: seq<string>, failure: map<string, string>, evidence: seq<Artifact>)

  datatype CaseCompletion = CaseCompletion(index: int, caseLabel: string, verification: Verification, evidence: seq<Artifact>)

  datatype Status = Pass | Fail | Error | Unset | Unknown

  function StatusOf(tc: CaseCompletion): Status {
    var text := Trim(tc.verification.status);
    if text == "error" then Error
    else if text == "fail" then Fail
    else if text == "pass" then Pass
    else if text == "" then Unset
    else Unknown
  }

  predicate Failed(tc: CaseCompletion) {
    StatusOf(tc) == Fail || StatusOf(tc) == Error
  }

  /** Neither a pass nor without a status. */
  predicate Abnormal(tc: CaseCompletion) {
    StatusOf(tc) != Pass && StatusOf(tc) != Unset
  }

  datatype Reason = Stated(tc: CaseCompletion, text: string) | UnknownStatus(tc: CaseCompletion)

  datatype Aggregate = Aggregate(status: Status, reasons: seq<Reason>, failure: Option<map<string, string>>, evidence: seq<Artifact>)

  const NOTHING := Aggregate(Pass, [], None, [])

  // ----- The fold

  method AggregateVerification(cases: seq<CaseCompletion>) returns (out: Aggregate)
    ensures out == AggregateAll(NOTHING, cases)
  {
    var status, reasons, evidence := Pass, [], [];
    var failure: Option<map<string, string>> := None;
    var k := 0;
    while k < |cases|
      invariant k <= |cases|
      invariant AggregateAll(Aggregate(status, reasons, failure, evidence), cases[k..]) == AggregateAll(NOTHING, cases)
    {
      var tc := cases[k];
      assert cases[k..][1..] == cases[k + 1..];
      k := k + 1;
      match StatusOf(tc) {
        case Error =>
          status := Error;
        case Fail =>
          if status != Error {
            status := Fail;
          }
        case Unset =>
        case Pass =>
        case Unknown =>
          if status == Pass {
            status := Error;
          }
          reasons := reasons + [UnknownStatus(tc)];
      }
      reasons := StateReasons(reasons, tc);
      if failure == None && Abnormal(tc) && tc.verification.failure != map[] {
        failure := Some(tc.verification.failure);
      }
      evidence := AppendEvidence(evidence, tc.verification.evidence);
      evidence := AppendEvidence(evidence, tc.evidence);
    }
    return Aggregate(status, reasons, failure, evidence);
  }

  /** The reasons of a case that say something, after those of the cases before. */
  method StateReasons(reasons: seq<Reason>, tc: CaseCompletion) returns (out: seq<Reason>)
    ensures out == WithReasons(reasons, tc, tc.verification.reasons)
  {
    out := reasons;
    var given, k := tc.verification.reasons, 0;
    while k < |given|
      invariant k <= |given|
      invariant WithReasons(out, tc, given[k..]) == WithReasons(reasons, tc, given)
    {
      var reason := given[k];
      assert given[k..][1..] == given[k + 1..];
      k := k + 1;
      if Trim(reason) == "" {
        continue;
      }
      out := out + [Stated(tc, Trim(reason))];
    }
  }

  function WithReasons(reasons: seq<Reason>, tc: CaseCompletion, given: seq<string>): seq<Reason>
    decreases |given|
  {
    if given == [] then reasons
    else WithReasons(if Trim(given[0]) == "" then reasons else reasons + [Stated(tc, Trim(given[0]))], tc, given[1..])
  }

  function NextStatus(status: Status, tc: Status): Status {
    match tc
    case Error => Error
    case Fail => if status != Error then Fail else status
    case Unknown => if status == Pass then Error else status
    case _ => status
  }

  function AddCase(acc: Aggregate, tc: CaseCompletion): Aggregate {
    var unknown := if StatusOf(tc) == Unknown then acc.reasons + [UnknownStatus(tc)] else acc.reasons;
    Aggregate(
      NextStatus(acc.status, StatusOf(tc)),
      WithReasons(unknown, tc, tc.verification.reasons),
      if acc.failure == None && Abnormal(tc) && tc.verification.failure != map[] then Some(tc.verification.failure) else acc.failure,
      Appended(Appended(acc.evidence, tc.verification.evidence), tc.evidence))
  }

  function AggregateAll(acc: Aggregate, cases: seq<CaseCompletion>): Aggregate
    decreases |cases|
  {
    if cases == [] then acc else AggregateAll(AddCase(acc, cases[0]), cases[1..])
  }

  function StatusOfAll(cases: seq<CaseCompletion>): Status {
    AggregateAll(NOTHING, cases).status
  }

  // ----- The status

  predicate Exists(cases: seq<CaseCompletion>, status: Status) {
    exists i :: 0 <= i < |cases| && StatusOf(cases[i]) == status
  }

  /** The position of the first abnormal case, or |cases|. */
  function FirstAbnormal(cases: seq<CaseCompletion>): (n: nat)
    ensures n <= |cases|
  {
    if cases == [] || Abnormal(cases[0]) then 0 else FirstAbnormal(cases[1..]) + 1
  }

  lemma {:induction false} FirstAbnormalIs(cases: seq<CaseCompletion>)
    ensures var n := FirstAbnormal(cases);
            && (n < |cases| ==> Abnormal(cases[n]))
            && forall i | 0 <= i < n :: !Abnormal(cases[i])
  {
    if cases != [] && !Abnormal(cases[0]) {
      FirstAbnormalIs(cases[1..]);
      var n := FirstAbnormal(cases[1..]);
      assert forall i | 1 <= i < n + 1 :: cases[i] == cases[1..][i - 1];
    }
  }

  /** The verdict without the fold: an error wins; otherwise the first abnormal case
      decides, an unknown status counting as an error. */
  function Verdict(cases: seq<CaseCompletion>): Status {
    var n := FirstAbnormal(cases);
    if Exists(cases, Error) then Error
    else if n == |cases| then Pass
    else if StatusOf(cases[n]) == Fail then Fail
    else Error
  }

  lemma {:induction false} FoldStatus(acc: Aggregate, cases: seq<CaseCompletion>)
    requires acc.status == Pass || acc.status == Fail || acc.status == Error
    ensures AggregateAll(acc, cases).status ==
              if acc.status == Error || Exists(cases, Error) then Error
              else if acc.status == Fail then Fail
              else Verdict(cases)
    decreases |cases|
  {
    if cases != [] {
      FoldStatus(AddCase(acc, cases[0]), cases[1..]);
      if FirstAbnormal(cases) > 0 {
        assert cases[1..][FirstAbnormal(cases[1..])..] == cases[FirstAbnormal(cases)..];
      }
    }
  }

  lemma StatusIsVerdict(cases: seq<CaseCompletion>)
    ensures StatusOfAll(cases) == Verdict(cases)
  {
    FoldStatus(NOTHING, cases);
  }

  /** All cases pass, or one is in error: when the aggregate says so. */
  lemma PassAndError(cases: seq<CaseCompletion>)
    ensures StatusOfAll(cases) == Pass <==> forall i | 0 <= i < |cases| :: !Abnormal(cases[i])
    ensures Exists(cases, Error) ==> StatusOfAll(cases) == Error
    ensures StatusOfAll(cases) == Fail ==> Exists(cases, Fail)
  {
    StatusIsVerdict(cases);
    FirstAbnormalIs(cases);
  }

  /** Fails and unknown statuses without an error: the one mixture whose verdict depends
      on the order. */
  predicate Mixed(cases: seq<CaseCompletion>) {
    !Exists(cases, Error) && Exists(cases, Fail) && Exists(cases, Unknown)
  }

  lemma SomePermutes(a: seq<CaseCompletion>, b: seq<CaseCompletion>, status: Status)
    requires multiset(a) == multiset(b) && Exists(a, status)
    ensures Exists(b, status)
  {
    var i :| 0 <= i < |a| && StatusOf(a[i]) == status;
    assert a[i] in multiset(b);
    assert a[i] in b;
  }

  lemma UnmixedVerdict(cases: seq<CaseCompletion>)
    requires !Mixed(cases)
    ensures Verdict(cases) ==
              if Exists(cases, Error) || Exists(cases, Unknown) then Error else if Exists(cases, Fail) then Fail else Pass
  {
    FirstAbnormalIs(cases);
    var n := FirstAbnormal(cases);
    if n < |cases| {
      assert Exists(cases, StatusOf(cases[n]));
    }
  }

  lemma SameInAnyOrder(a: seq<CaseCompletion>, b: seq<CaseCompletion>)
    requires multiset(a) == multiset(b) && !Mixed(a)
    ensures StatusOfAll(a) == StatusOfAll(b)
  {
    forall status
      ensures Exists(a, status) <==> Exists(b, status)
    {
      if Exists(a, status) { SomePermutes(a, b, status); }
      if Exists(b, status) { SomePermutes(b, a, status); }
    }
    StatusIsVerdict(a);
    StatusIsVerdict(b);
    UnmixedVerdict(a);
    UnmixedVerdict(b);
  }

  /** Moving a case of the other kind to the front changes the verdict of a mixture. */
  lemma AnotherOrder(cases: seq<CaseCompletion>) returns (other: seq<CaseCompletion>)
    requires Mixed(cases)
    ensures multiset(other) == multiset(cases) && StatusOfAll(other) != StatusOfAll(cases)
  {
    FirstAbnormalIs(cases);
    var n := FirstAbnormal(cases);
    var moved := if StatusOf(cases[n]) == Fail then Unknown else Fail;
    assert Exists(cases, moved);
    var i :| 0 <= i < |cases| && StatusOf(cases[i]) == moved;
    other := [cases[i]] + (cases[..i] + cases[i + 1..]);
    assert cases == cases[..i] + [cases[i]] + cases[i + 1..];
    StatusIsVerdict(cases);
    FrontDecides(other, cases);
    assert Exists(cases, StatusOf(cases[n]));
  }

  lemma FrontDecides(other: seq<CaseCompletion>, cases: seq<CaseCompletion>)
    requires multiset(other) == multiset(cases) && !Exists(cases, Error) && other != []
    requires StatusOf(other[0]) == Fail || StatusOf(other[0]) == Unknown
    ensures StatusOfAll(other) == if StatusOf(other[0]) == Fail then Fail else Error
  {
    if Exists(other, Error) { SomePermutes(other, cases, Error); }
    StatusIsVerdict(other);
  }

  /** The verdict depends on the order of the cases exactly for mixtures. */
  lemma OrderMattersIffMixed(cases: seq<CaseCompletion>)
    ensures (forall other | multiset(other) == multiset(cases) :: StatusOfAll(other) == StatusOfAll(cases)) <==> !Mixed(cases)
  {
    if Mixed(cases) {
      var other := AnotherOrder(cases);
    } else {
      forall other | multiset(other) == multiset(cases)
        ensures StatusOfAll(other) == StatusOfAll(cases)
      {
        SameInAnyOrder(cases, other);
      }
    }
  }

  /** The least mixture: a fail and an unknown status, in both orders. */
  lemma FailAndUnknown(fail: CaseCompletion, unknown: CaseCompletion)
    requires StatusOf(fail) == Fail && StatusOf(unknown) == Unknown
    ensures StatusOfAll([fail, unknown]) == Fail && StatusOfAll([unknown, fail]) == Error
  {
    FrontDecides([fail, unknown], [fail, unknown]);
    FrontDecides([unknown, fail], [unknown, fail]);
  }

  // ----- The failure block

  /** The case's failure block is one the aggregate may carry. */
  predicate Blames(tc: CaseCompletion) {
    Abnormal(tc) && tc.verification.failure != map[]
  }

  /** The block is that of the first case that has one to carry, if any has. */
  ghost predicate FirstBlamed(cases: seq<CaseCompletion>, failure: Option<map<string, string>>) {
    || (failure == None && forall i | 0 <= i < |cases| :: !Blames(cases[i]))
    || exists i :: && 0 <= i < |cases| && Blames(cases[i]) && failure == Some(cases[i].verification.failure)
                   && forall j | 0 <= j < i :: !Blames(cases[j])
  }

  /** The aggregate carries the block of the first abnormal case that has one. */
  lemma {:induction false} FirstFailureWins(acc: Aggregate, cases: seq<CaseCompletion>)
    ensures acc.failure != None ==> AggregateAll(acc, cases).failure == acc.failure
    ensures acc.failure == None ==> FirstBlamed(cases, AggregateAll(acc, cases).failure)
    decreases |cases|
  {
    if cases != [] {
      var rest := cases[1..];
      FirstFailureWins(AddCase(acc, cases[0]), rest);
      assert forall j | 1 <= j < |cases| :: cases[j] == rest[j - 1];
      if acc.failure == None {
        if Blames(cases[0]) {
          assert AggregateAll(acc, cases).failure == Some(cases[0].verification.failure);
        } else if i :| && 0 <= i < |rest| && Blames(rest[i]) && AggregateAll(acc, cases).failure == Some(rest[i].verification.failure)
                       && forall j | 0 <= j < i :: !Blames(rest[j]) {
          assert Blames(cases[i + 1]) && forall j | 0 <= j < i + 1 :: !Blames(cases[j]);
        }
      }
    }
  }

  // ----- Evidence

  function FirstNonEmpty(a: string, b: string): string {
    if Trim(a) != "" then a else b
  }

  /** What identifies an artifact; one without a reference has no key. */
  function KeyOf(item: Artifact): string {
    var ref := FirstNonEmpty(Trim(item.ref), FirstNonEmpty(Trim(item.artifactPath), Trim(item.url)));
    if ref == "" then "" else Trim(item.kind) + "\U{00}" + ref
  }

  function Keys(items: seq<Artifact>): set<string> {
    set i | 0 <= i < |items| && KeyOf(items[i]) != "" :: KeyOf(items[i])
  }

  method AppendEvidence(start: seq<Artifact>, values: seq<Artifact>) returns (out: seq<Artifact>)
    ensures out == Appended(start, values)
  {
    hide KeyOf, Keys, Appended;
    out := start;
    var seen := SeenKeys(start);
    var k := 0;
    while k < |values|
      invariant k <= |values| && seen == Keys(out)
      invariant Appended(out, values[k..]) == Appended(start, values)
    {
      var item, rest := values[k], values[k + 1..];
      var key := KeyOf(item);
      assert values[k..] == [item] + rest;
      AppendedCons(out, item, rest);
      k := k + 1;
      if key == "" || key in seen {
        continue;
      }
      KeysSnoc(out, item);
      seen := seen + {key};
      out := out + [item];
    }
    assert values[k..] == [];
    AppendedNothing(out);
  }

  lemma AppendedNothing(out: seq<Artifact>)
    ensures Appended(out, []) == out
  {}

  method SeenKeys(items: seq<Artifact>) returns (seen: set<string>)
    ensures seen == Keys(items)
  {
    hide KeyOf;
    seen := {};
    assert items[..0] == [];
    for i := 0 to |items|
      invariant seen == Keys(items[..i])
    {
      var key := KeyOf(items[i]);
      KeysSnoc(items[..i], items[i]);
      assert items[..i + 1] == items[..i] + [items[i]];
      if key != "" {
        seen := seen + {key};
      }
    }
    assert items[..|items|] == items;
  }

  lemma AppendedCons(out: seq<Artifact>, item: Artifact, rest: seq<Artifact>)
    ensures Appended(out, [item] + rest) ==
              if KeyOf(item) == "" || KeyOf(item) in Keys(out) then Appended(out, rest) else Appended(out + [item], rest)
  {
    assert ([item] + rest)[1..] == rest;
  }

  function Appended(out: seq<Artifact>, values: seq<Artifact>): seq<Artifact>
    decreases |values|
  {
    if values == [] then out
    else if KeyOf(values[0]) == "" || KeyOf(values[0]) in Keys(out) then Appended(out, values[1..])
    else Appended(out + [values[0]], values[1..])
  }

  lemma KeysSnoc(items: seq<Artifact>, item: Artifact)
    ensures Keys(items + [item]) == Keys(items) + if KeyOf(item) == "" then {} else {KeyOf(item)}
  {
    var all := items + [item];
    assert forall i | 0 <= i < |items| :: all[i] == items[i];
    assert all[|items|] == item;
  }

  /** Appending two lists one after the other is appending their concatenation. */
  lemma {:induction false} AppendInParts(out: seq<Artifact>, a: seq<Artifact>, b: seq<Artifact>)
    ensures Appended(Appended(out, a), b) == Appended(out, a + b)
    decreases |a|
  {
    if a == [] {
      assert a + b == b;
    } else {
      assert (a + b)[1..] == a[1..] + b;
      AppendInParts(if KeyOf(a[0]) == "" || KeyOf(a[0]) in Keys(out) then out else out + [a[0]], a[1..], b);
    }
  }

  predicate UniqueKeys(items: seq<Artifact>) {
    forall i, j | 0 <= i < j < |items| :: KeyOf(items[i]) != KeyOf(items[j]) || KeyOf(items[i]) == ""
  }

  /** The appended artifacts are those of values whose key is new at their position, in
      order; at tells their positions. */
  ghost predicate FirstOccurrences(out: seq<Artifact>, values: seq<Artifact>, added: seq<Artifact>, at: seq<nat>) {
    && Picked(values, added, at)
    && forall i | 0 <= i < |values| :: i in at <==> IsNew(out, values, i)
  }

  predicate IsNew(out: seq<Artifact>, values: seq<Artifact>, i: nat)
    requires i < |values|
  {
    KeyOf(values[i]) != "" && KeyOf(values[i]) !in Keys(out) && KeyOf(values[i]) !in Keys(values[..i])
  }

  lemma AppendKeepsUnique(out: seq<Artifact>, values: seq<Artifact>)
    ensures UniqueKeys(out) ==> UniqueKeys(Appended(out, values))
    ensures Keys(Appended(out, values)) == Keys(out) + Keys(values)
  {
    AppendKeys(out, values);
    if UniqueKeys(out) {
      AppendUnique(out, values);
    }
  }

  lemma {:induction false} AppendKeys(out: seq<Artifact>, values: seq<Artifact>)
    ensures Keys(Appended(out, values)) == Keys(out) + Keys(values)
    decreases |values|
  {
    if values != [] {
      var v, rest := values[0], values[1..];
      KeysCons(v, rest);
      assert values == [v] + rest;
      if KeyOf(v) == "" || KeyOf(v) in Keys(out) {
        AppendKeys(out, rest);
      } else {
        KeysSnoc(out, v);
        AppendKeys(out + [v], rest);
      }
    }
  }

  lemma {:induction false} AppendUnique(out: seq<Artifact>, values: seq<Artifact>)
    requires UniqueKeys(out)
    ensures UniqueKeys(Appended(out, values))
    decreases |values|
  {
    if values != [] {
      if KeyOf(values[0]) == "" || KeyOf(values[0]) in Keys(out) {
        AppendUnique(out, values[1..]);
      } else {
        AppendUnique(out + [values[0]], values[1..]);
      }
    }
  }

  lemma KeysCons(v: Artifact, rest: seq<Artifact>)
    ensures Keys([v] + rest) == (if KeyOf(v) == "" then {} else {KeyOf(v)}) + Keys(rest)
  {
    var all := [v] + rest;
    assert all[0] == v && forall i | 0 <= i < |rest| :: all[i + 1] == rest[i];
  }

  lemma {:induction false} AppendsFirstOccurrences(out: seq<Artifact>, values: seq<Artifact>) returns (added: seq<Artifact>, at: seq<nat>)
    ensures Appended(out, values) == out + added && FirstOccurrences(out, values, added, at)
    decreases |values|
  {
    if values == [] {
      added, at := [], [];
      assert Picked(values, added, at);
      assert out + [] == out;
    } else {
      var n := |values| - 1;
      var front, last := values[..n], values[n];
      var earlier, positions := AppendsFirstOccurrences(out, front);
      AppendInParts(out, front, [last]);
      assert front + [last] == values && [last][1..] == [];
      AppendKeys(out, front);
      PrefixIsNew(out, values, front);
      added, at := OneMoreOccurrence(out, values, front, earlier, positions);
      AppendedCons(out + earlier, last, []);
      Associative(out, earlier, [last]);
    }
  }

  lemma OneMoreOccurrence(out: seq<Artifact>, values: seq<Artifact>, front: seq<Artifact>, earlier: seq<Artifact>, positions: seq<nat>)
      returns (added: seq<Artifact>, at: seq<nat>)
    requires values != [] && front == values[..|values| - 1] && FirstOccurrences(out, front, earlier, positions)
    requires forall i | 0 <= i < |front| :: IsNew(out, values, i) <==> IsNew(out, front, i)
    ensures added == if IsNew(out, values, |front|) then earlier + [values[|front|]] else earlier
    ensures FirstOccurrences(out, values, added, at)
  {
    hide IsNew, Picked;
    var n := |front|;
    added, at := earlier, positions;
    PickedFromMore(values, front, earlier, positions);
    if IsNew(out, values, n) {
      PickLast(values, earlier, positions);
      added, at := earlier + [values[n]], positions + [n];
    }
    forall i | 0 <= i < |values|
      ensures i in at <==> IsNew(out, values, i)
    {
      assert i in at <==> i in positions || (|at| > |positions| && i == n);
    }
  }

  lemma PickedFromMore(values: seq<Artifact>, front: seq<Artifact>, added: seq<Artifact>, at: seq<nat>)
    requires front <= values && Picked(front, added, at)
    ensures Picked(values, added, at) && forall i | i in at :: i < |front|
  {}

  lemma PickLast(values: seq<Artifact>, added: seq<Artifact>, at: seq<nat>)
    requires values != [] && Picked(values, added, at) && forall i | i in at :: i < |values| - 1
    ensures Picked(values, added + [values[|values| - 1]], at + [|values| - 1])
  {
    assert forall k | 0 <= k < |at| :: at[k] in at;
  }

  lemma PrefixIsNew(out: seq<Artifact>, values: seq<Artifact>, front: seq<Artifact>)
    requires values != [] && front == values[..|values| - 1]
    ensures forall i | 0 <= i < |front| :: IsNew(out, values, i) <==> IsNew(out, front, i)
    ensures IsNew(out, values, |front|) <==>
              KeyOf(values[|front|]) != "" && KeyOf(values[|front|]) !in Keys(out) && KeyOf(values[|front|]) !in Keys(front)
  {
    forall i | 0 <= i < |front|
      ensures IsNew(out, values, i) <==> IsNew(out, front, i)
    {
      assert values[..i] == front[..i];
    }
  }

  /** The evidence of the completion: what was there before, then per case its own list
      and that of its verification. */
  method AggregateEvidence(cases: seq<CaseCompletion>, existing: seq<Artifact>) returns (out: seq<Artifact>)
    ensures out == EvidenceOf(Appended([], existing), cases)
  {
    out := AppendEvidence([], existing);
    ghost var first := out;
    var k := 0;
    while k < |cases|
      invariant k <= |cases|
      invariant EvidenceOf(out, cases[k..]) == EvidenceOf(first, cases)
    {
      var tc := cases[k];
      assert cases[k..][1..] == cases[k + 1..];
      k := k + 1;
      out := AppendEvidence(out, tc.evidence);
      out := AppendEvidence(out, tc.verification.evidence);
    }
  }

  function EvidenceOf(out: seq<Artifact>, cases: seq<CaseCompletion>): seq<Artifact>
    decreases |cases|
  {
    if cases == [] then out
    else EvidenceOf(Appended(Appended(out, cases[0].evidence), cases[0].verification.evidence), cases[1..])
  }

  /** The two aggregations visit a case's lists in opposite orders, so the artifacts kept
      for a key may differ; without earlier evidence the keys are the same. */
  lemma {:induction false} SameKeysEitherWay(acc: Aggregate, out: seq<Artifact>, cases: seq<CaseCompletion>)
    requires Keys(out) == Keys(acc.evidence) && UniqueKeys(out) && UniqueKeys(acc.evidence)
    ensures var r := AggregateAll(acc, cases);
            && Keys(EvidenceOf(out, cases)) == Keys(r.evidence)
            && UniqueKeys(EvidenceOf(out, cases)) && UniqueKeys(r.evidence)
    decreases |cases|
  {
    if cases != [] {
      var a, b := cases[0].verification.evidence, cases[0].evidence;
      AppendKeepsUnique(out, b);
      AppendKeepsUnique(Appended(out, b), a);
      AppendKeepsUnique(acc.evidence, a);
      AppendKeepsUnique(Appended(acc.evidence, a), b);
      SameKeysEitherWay(AddCase(acc, cases[0]), Appended(Appended(out, b), a), cases[1..]);
    }
  }

  // ----- A case's own verdict

  /** The latest completion recorded for an index. */
  function Latest(cases: seq<CaseCompletion>, index: int): Option<CaseCompletion> {
    if cases == [] then None
    else if cases[|cases| - 1].index == index then Some(cases[|cases| - 1])
    else Latest(cases[..|cases| - 1], index)
  }

  /** Whether the latest completion of a case is a fail or an error. */
  predicate CaseFailed(cases: seq<CaseCompletion>, index: int) {
    index > 0 && Latest(cases, index).Some? && Failed(Latest(cases, index).value)
  }

  method DynamicCaseFailure(cases: seq<CaseCompletion>, index: int) returns (failed: bool)
    ensures failed == CaseFailed(cases, index)
  {
    if index <= 0 {
      return false;
    }
    var i := |cases| - 1;
    assert cases[..|cases|] == cases;
    while i >= 0
      invariant -1 <= i < |cases|
      invariant Latest(cases, index) == Latest(cases[..i + 1], index)
    {
      var tc := cases[i];
      assert cases[..i + 1][..i] == cases[..i];
      if tc.index != index {
        i := i - 1;
        continue;
      }
      return StatusOf(tc) == Fail || StatusOf(tc) == Error;
    }
    return false;
  }
}
