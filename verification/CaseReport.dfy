/** What the verdict over the recorded cases reports: whose reasons and which evidence, in
    which order, and which artifacts count as one. */
module CaseReport {
  import opened Text
  import opened Selections
  import opened CaseVerdict

  // ----- Reasons

  /** What a case says: that its status is unknown, if it is, and then its reasons that are
      not blank, trimmed. */
  ghost predicate Says(tc: CaseCompletion, said: seq<Reason>) {
    exists stated, at ::
      && Picked(tc.verification.reasons, stated, at) && NotBlank(tc.verification.reasons, at)
      && said == (if StatusOf(tc) == Unknown then [UnknownStatus(tc)] else []) + AllStated(tc, stated)
  }

  predicate NotBlank(given: seq<string>, at: seq<nat>) {
    forall i | 0 <= i < |given| :: i in at <==> !Blank(given[i])
  }

  function AllStated(tc: CaseCompletion, texts: seq<string>): seq<Reason> {
    seq(|texts|, k requires 0 <= k < |texts| => Stated(tc, Trim(texts[k])))
  }

  lemma {:induction false} StatedReasons(reasons: seq<Reason>, tc: CaseCompletion, given: seq<string>) returns (stated: seq<string>, at: seq<nat>)
    ensures Picked(given, stated, at) && NotBlank(given, at)
    ensures WithReasons(reasons, tc, given) == reasons + AllStated(tc, stated)
    decreases |given|
  {
    hide Picked;
    if given == [] {
      stated, at := [], [];
      NonePicked<string>();
      assert reasons + AllStated(tc, []) == reasons;
    } else {
      var text, rest := given[0], given[1..];
      var next := if Trim(text) == "" then reasons else reasons + [Stated(tc, Trim(text))];
      TrimBlank(text);
      var more, later := StatedReasons(next, tc, rest);
      at := PickFront(text, rest, more, later, Trim(text) != "");
      assert given == [text] + rest;
      stated := if Trim(text) != "" then [text] + more else more;
      assert next + AllStated(tc, more) == reasons + AllStated(tc, stated);
    }
  }

  /** The aggregate's reasons are what the cases say, one after the other. */
  lemma {:induction false} ReasonsAre(acc: Aggregate, cases: seq<CaseCompletion>) returns (said: seq<seq<Reason>>)
    ensures |said| == |cases| && forall i | 0 <= i < |cases| :: Says(cases[i], said[i])
    ensures AggregateAll(acc, cases).reasons == acc.reasons + Flatten(said)
    decreases |cases|
  {
    hide Says;
    if cases == [] {
      said := [];
    } else {
      var tc := cases[0];
      var first := CaseSays(acc, tc);
      var rest := ReasonsAre(AddCase(acc, tc), cases[1..]);
      said := [first] + rest;
      assert said[1..] == rest;
      Associative(acc.reasons, first, Flatten(rest));
    }
  }

  lemma CaseSays(acc: Aggregate, tc: CaseCompletion) returns (said: seq<Reason>)
    ensures Says(tc, said) && AddCase(acc, tc).reasons == acc.reasons + said
  {
    var unknown: seq<Reason> := if StatusOf(tc) == Unknown then [UnknownStatus(tc)] else [];
    var stated, at := StatedReasons(acc.reasons + unknown, tc, tc.verification.reasons);
    said := unknown + AllStated(tc, stated);
    assert StatusOf(tc) != Unknown ==> acc.reasons + unknown == acc.reasons;
    Associative(acc.reasons, unknown, AllStated(tc, stated));
  }

  // ----- Evidence

  /** The artifacts of the cases, each case's verification first. */
  function VerdictsFirst(cases: seq<CaseCompletion>): seq<Artifact> {
    if cases == [] then [] else cases[0].verification.evidence + cases[0].evidence + VerdictsFirst(cases[1..])
  }

  /** The artifacts of the cases, each case's own first. */
  function CasesFirst(cases: seq<CaseCompletion>): seq<Artifact> {
    if cases == [] then [] else cases[0].evidence + cases[0].verification.evidence + CasesFirst(cases[1..])
  }

  /** Of each key the first artifact is kept, in order. */
  ghost predicate KeepsFirst(all: seq<Artifact>, kept: seq<Artifact>) {
    exists at :: FirstOccurrences([], all, kept, at)
  }

  lemma AppendedKeepsFirst(all: seq<Artifact>)
    ensures KeepsFirst(all, Appended([], all))
  {
    var added, at := AppendsFirstOccurrences([], all);
    assert [] + added == added;
  }

  lemma {:induction false} AggregateAppends(acc: Aggregate, cases: seq<CaseCompletion>)
    ensures AggregateAll(acc, cases).evidence == Appended(acc.evidence, VerdictsFirst(cases))
    decreases |cases|
  {
    hide Appended;
    if cases == [] {
      AppendedNothing(acc.evidence);
    } else {
      var a, b, rest := cases[0].verification.evidence, cases[0].evidence, VerdictsFirst(cases[1..]);
      AggregateAppends(AddCase(acc, cases[0]), cases[1..]);
      AppendInParts(acc.evidence, a, b);
      AppendInParts(acc.evidence, a + b, rest);
    }
  }

  lemma {:induction false} EvidenceAppends(out: seq<Artifact>, cases: seq<CaseCompletion>)
    ensures EvidenceOf(out, cases) == Appended(out, CasesFirst(cases))
    decreases |cases|
  {
    hide Appended;
    if cases == [] {
      AppendedNothing(out);
    } else {
      var a, b, rest := cases[0].evidence, cases[0].verification.evidence, CasesFirst(cases[1..]);
      EvidenceAppends(Appended(Appended(out, a), b), cases[1..]);
      AppendInParts(out, a, b);
      AppendInParts(out, a + b, rest);
    }
  }

  /** The aggregate verdict and the completion keep the first artifact of each key; the
      verdict visits the verifications' artifacts before the cases' own, the completion
      the artifacts it has already, and then the cases' own before the verifications'. */
  lemma EvidenceIsFirst(cases: seq<CaseCompletion>, existing: seq<Artifact>)
    ensures KeepsFirst(VerdictsFirst(cases), AggregateAll(NOTHING, cases).evidence)
    ensures KeepsFirst(existing + CasesFirst(cases), EvidenceOf(Appended([], existing), cases))
  {
    hide KeepsFirst, Appended;
    AggregateAppends(NOTHING, cases);
    AppendedKeepsFirst(VerdictsFirst(cases));
    EvidenceAppends(Appended([], existing), cases);
    AppendInParts([], existing, CasesFirst(cases));
    AppendedKeepsFirst(existing + CasesFirst(cases));
  }

  /** What an artifact is known by: its reference, or else its path, or else its address. */
  predicate KnownBy(item: Artifact, ref: string) {
    && ref != ""
    && if !Blank(item.ref) then ref == Trim(item.ref)
       else if !Blank(item.artifactPath) then ref == Trim(item.artifactPath)
       else ref == Trim(item.url)
  }

  /** Two artifacts have one key exactly if they are of one kind and known by the same text;
      and those that are known by nothing have none. (A kind has no NUL character.) */
  lemma KeysIdentify(a: Artifact, b: Artifact, x: string, y: string)
    requires '\U{00}' !in a.kind && '\U{00}' !in b.kind
    ensures KeyOf(a) == "" <==> Blank(a.ref) && Blank(a.artifactPath) && Blank(a.url)
    ensures KnownBy(a, x) && KnownBy(b, y) ==> (KeyOf(a) == KeyOf(b) <==> Trim(a.kind) == Trim(b.kind) && x == y)
  {
    RefIs(a);
    RefIs(b);
    if KnownBy(a, x) && KnownBy(b, y) {
      TrimWithin(a.kind, '\U{00}');
      TrimWithin(b.kind, '\U{00}');
      SplitAtNul(Trim(a.kind), x, Trim(b.kind), y);
    }
  }

  lemma RefIs(item: Artifact)
    ensures KeyOf(item) == "" <==> Blank(item.ref) && Blank(item.artifactPath) && Blank(item.url)
    ensures forall x | KnownBy(item, x) :: KeyOf(item) == Trim(item.kind) + "\U{00}" + x
  {
    TrimBlank(item.ref);
    TrimBlank(item.artifactPath);
    TrimBlank(item.url);
    TrimTwice(item.ref);
    TrimTwice(item.artifactPath);
  }

  lemma TrimTwice(s: string)
    ensures Trim(Trim(s)) == Trim(s)
  {
    TrimLeftCut(s);
    TrimRightCut(TrimLeft(s));
    TrimOfTrimmed(Trim(s));
  }

  lemma {:induction false} SplitAtNul(a: string, x: string, b: string, y: string)
    requires '\U{00}' !in a && '\U{00}' !in b
    ensures a + "\U{00}" + x == b + "\U{00}" + y <==> a == b && x == y
    decreases |a|
  {
    var s, t := a + "\U{00}" + x, b + "\U{00}" + y;
    if a == "" || b == "" {
      assert s[0] == (if a == "" then '\U{00}' else a[0]) && t[0] == if b == "" then '\U{00}' else b[0];
      assert a == "" ==> s[1..] == x;
      assert b == "" ==> t[1..] == y;
    } else {
      SplitAtNul(a[1..], x, b[1..], y);
      assert s[0] == a[0] && s[1..] == a[1..] + "\U{00}" + x;
      assert t[0] == b[0] && t[1..] == b[1..] + "\U{00}" + y;
      assert s == [s[0]] + s[1..] && t == [t[0]] + t[1..];
      assert a == [a[0]] + a[1..] && b == [b[0]] + b[1..];
    }
  }

  // ----- A case's own verdict

  /** A case has failed exactly if the last completion under its index is a fail or an
      error, and the index is positive. */
  lemma {:induction false} CaseFailedIs(cases: seq<CaseCompletion>, index: int)
    ensures CaseFailed(cases, index) <==> index > 0 && exists i :: LastOf(cases, i, index) && Failed(cases[i])
    decreases |cases|
  {
    if cases != [] {
      var n := |cases| - 1;
      var front := cases[..n];
      CaseFailedIs(front, index);
      if cases[n].index == index {
        assert LastOf(cases, n, index);
      } else {
        assert forall i | 0 <= i < n :: LastOf(cases, i, index) <==> LastOf(front, i, index);
      }
    }
  }

  predicate LastOf(cases: seq<CaseCompletion>, i: int, index: int) {
    && 0 <= i < |cases| && cases[i].index == index
    && forall j | i < j < |cases| :: cases[j].index != index
  }
}
