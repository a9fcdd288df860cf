/** The steps that a block is expanded to, case by case: how they are called, what they carry
    and where their cases come from. */
module RunnerInstances {
  import opened Text
  import opened Numbers
  import opened CaseVerdict
  import opened RunnerModel
  import opened RunnerExpansion
  import TokenSearch

  // ----- Where cases come from

  /** The first of the outputs that is set to something that is not blank, trimmed; None if
      there is none. */
  ghost predicate FirstOf(outputs: map<string, string>, keys: seq<string>, text: Option<string>) {
    || (text == None && forall i | 0 <= i < |keys| :: !IsSet(outputs, keys[i]))
    || exists i :: && 0 <= i < |keys| && IsSet(outputs, keys[i]) && text == Some(Trim(outputs[keys[i]]))
                   && forall j | 0 <= j < i :: !IsSet(outputs, keys[j])
  }

  predicate IsSet(outputs: map<string, string>, key: string) {
    key in outputs && !Blank(outputs[key])
  }

  lemma {:induction false} FirstSetIsFirst(outputs: map<string, string>, keys: seq<string>)
    ensures FirstOf(outputs, keys, FirstSet(outputs, keys))
    decreases |keys|
  {
    if keys != [] {
      var rest := keys[1..];
      if keys[0] in outputs { TrimBlank(outputs[keys[0]]); }
      if !IsSet(outputs, keys[0]) {
        FirstSetIsFirst(outputs, rest);
        assert forall i | 0 <= i < |rest| :: rest[i] == keys[i + 1];
        if i :| && 0 <= i < |rest| && IsSet(outputs, rest[i]) && FirstSet(outputs, rest) == Some(Trim(outputs[rest[i]]))
                && forall j | 0 <= j < i :: !IsSet(outputs, rest[j]) {
          assert IsSet(outputs, keys[i + 1]) && forall j | 0 <= j < i + 1 :: !IsSet(outputs, keys[j]);
        }
      }
    }
  }

  /** The name of a group as outputs are called after it: its lower-case words of letters and
      digits, joined by underscores. */
  function NameOf(group: string): string {
    Join(Words(TokenSearch.ToLower(Trim(group))), "_")
  }

  predicate InWord(c: char) {
    'a' <= c <= 'z' || '0' <= c <= '9'
  }

  /** The length of the word that a text starts with. */
  function WordLength(s: string): (n: nat)
    ensures n <= |s| && (n < |s| ==> !InWord(s[n])) && (s != "" && InWord(s[0]) ==> n > 0)
  {
    if s == "" || !InWord(s[0]) then 0 else 1 + WordLength(s[1..])
  }

  function Words(s: string): seq<string>
    decreases |s|
  {
    if s == "" then []
    else if !InWord(s[0]) then Words(s[1..])
    else [s[..WordLength(s)]] + Words(s[WordLength(s)..])
  }

  lemma {:induction false} SquashWord(s: string, last: bool)
    ensures var n := WordLength(s); Squash(s, last) == s[..n] + Squash(s[n..], if n > 0 then false else last)
    ensures forall i | 0 <= i < WordLength(s) :: InWord(s[i])
  {
    if s != "" && InWord(s[0]) {
      SquashWord(s[1..], false);
      var n := WordLength(s);
      assert s[..n] == [s[0]] + s[1..][..n - 1] && s[1..][n - 1..] == s[n..];
    } else {
      assert s[..0] == "" && s[0..] == s;
    }
  }

  /** A text that neither starts nor ends with an underscore. */
  predicate NoUnderscores(s: string) {
    s != "" && s[0] != '_' && s[|s| - 1] != '_'
  }

  /** After an underscore: the words, joined, and an underscore for what follows them. */
  lemma {:induction false} SquashJoins(s: string) returns (tail: string)
    ensures Squash(s, true) == Join(Words(s), "_") + tail && (tail == "" || tail == "_")
    ensures Words(s) == [] ==> tail == ""
    ensures Words(s) != [] ==> NoUnderscores(Join(Words(s), "_"))
    decreases |s|
  {
    if s == "" {
      tail := "";
    } else if !InWord(s[0]) {
      tail := SquashJoins(s[1..]);
    } else {
      tail := SquashFirst(s);
    }
  }

  lemma {:induction false} SquashFirst(s: string) returns (tail: string)
    requires s != "" && InWord(s[0])
    ensures forall last :: Squash(s, last) == Join(Words(s), "_") + tail
    ensures tail == "" || tail == "_"
    ensures Words(s) != [] && NoUnderscores(Join(Words(s), "_"))
    decreases |s|, 0
  {
    var n := WordLength(s);
    var word, rest := s[..n], s[n..];
    SquashWord(s, true);
    SquashWord(s, false);
    assert Words(s) == [word] + Words(rest);
    if rest == "" {
      tail := "";
      assert Words(s) == [word] && word + "" == word;
    } else {
      var after := SquashJoins(rest[1..]);
      assert Squash(rest, false) == "_" + (Join(Words(rest), "_") + after);
      tail := WordAndRest(word, Words(rest), after);
    }
  }

  /** A word before other words, or before nothing but an underscore. */
  lemma WordAndRest(word: string, rest: seq<string>, after: string) returns (tail: string)
    requires NoUnderscores(word) && (after == "" || after == "_") && (rest == [] ==> after == "")
    requires rest != [] ==> NoUnderscores(Join(rest, "_"))
    ensures word + ("_" + (Join(rest, "_") + after)) == Join([word] + rest, "_") + tail
    ensures (tail == "" || tail == "_") && NoUnderscores(Join([word] + rest, "_"))
  {
    if rest == [] {
      tail := "_";
      assert "_" + ("" + after) == "_";
    } else {
      tail := after;
      var joined := Join(rest, "_");
      assert ([word] + rest)[1..] == rest;
      assert word + ("_" + (joined + after)) == word + "_" + joined + after;
    }
  }

  lemma TrimsUnderscores(s: string, front: string, tail: string)
    requires NoUnderscores(s) && (front == "" || front == "_") && (tail == "" || tail == "_")
    ensures TrimUnderscores(front + s + tail) == s
  {
    var t := s + tail;
    if tail == "" {
      assert t == s;
    } else {
      assert t[..|t| - 1] == s;
    }
    assert TrimUnderscores(t) == s;
    if front == "" {
      assert front + s + tail == t;
    } else {
      assert (front + s + tail)[1..] == t;
    }
  }

  lemma NormalizedIsName(group: string)
    ensures NormalizeOutputKey(group) == NameOf(group)
  {
    var s := TokenSearch.ToLower(Trim(group));
    if s == "" {
    } else if InWord(s[0]) {
      var tail := SquashFirst(s);
      TrimsUnderscores(NameOf(group), "", tail);
      assert "" + NameOf(group) + tail == NameOf(group) + tail;
    } else {
      var tail := SquashJoins(s[1..]);
      assert Squash(s, false) == "_" + (NameOf(group) + tail);
      if Words(s) == [] {
        assert Squash(s, false) == "_" && "_"[1..] == "";
      } else {
        TrimsUnderscores(NameOf(group), "_", tail);
        Associative("_", NameOf(group), tail);
      }
    }
  }

  /** The outputs looked at for a group's cases, in order. */
  function KeysFor(name: string, suffix: string): seq<string> {
    (if name == "test_cases" then [] else ["test_cases" + suffix])
    + [name + suffix, name + "_cases" + suffix, "glimmung_dynamic_" + name + suffix, "glimmung_dynamic_" + name + "_cases" + suffix]
  }

  /** A case per item, in order, with its own JSON, and its caption if that is not blank. */
  predicate OfItems(cases: seq<DynamicCase>, items: seq<CaseItem>) {
    && |cases| == |items|
    && forall i | 0 <= i < |items| ::
         && cases[i].index == i + 1 && cases[i].raw == items[i].raw
         && if Blank(items[i].caption) then NumberedCaption(cases[i].caption, i + 1) else cases[i].caption == Trim(items[i].caption)
  }

  /** As many cases as counted, with empty objects. */
  predicate OfCount(cases: seq<DynamicCase>, count: nat) {
    && |cases| == count
    && forall i | 0 <= i < count :: cases[i].index == i + 1 && cases[i].raw == "{}" && NumberedCaption(cases[i].caption, i + 1)
  }

  predicate NumberedCaption(caption: string, n: nat) {
    |caption| >= 5 && caption[..5] == "case " && Spells(caption[5..], n, 2)
  }

  /** The cases of a group are those of its first JSON output, if one is set, and else as many
      as its first count says; in both cases up to the maximum. */
  lemma CasesAre(w: World, group: string, maxItems: int, outputs: map<string, string>) returns (json: Option<string>, count: Option<string>)
    ensures FirstOf(outputs, KeysFor(NameOf(group), "_json"), json) && FirstOf(outputs, KeysFor(NameOf(group), "_count"), count)
    ensures var cases := CasesForGroup(w, group, maxItems, outputs);
            match json {
              case Some(text) =>
                && (cases.Some? <==> w.decode(text).Some? && |w.decode(text).value| <= maxItems)
                && (cases.Some? ==> OfItems(cases.value, w.decode(text).value))
              case None =>
                && (cases.Some? <==> count.Some? && Atoi(count.value).ok && 0 <= Atoi(count.value).value <= maxItems)
                && (cases.Some? ==> OfCount(cases.value, Atoi(count.value).value))
            }
  {
    NormalizedIsName(group);
    json, count := FirstSet(outputs, OutputKeys(group, "_json")), FirstSet(outputs, OutputKeys(group, "_count"));
    FirstSetIsFirst(outputs, KeysFor(NameOf(group), "_json"));
    FirstSetIsFirst(outputs, KeysFor(NameOf(group), "_count"));
    var cases := CasesForGroup(w, group, maxItems, outputs);
    if cases.Some? {
      if json.Some? {
        NumberedIsOfItems(w.decode(json.value).value);
      } else {
        CountedIsOfCount(Atoi(count.value).value);
      }
    }
  }

  lemma CaptionIs(n: nat)
    ensures NumberedCaption("case " + Decimal2(n), n)
  {
    Decimal2Is(n);
    assert ("case " + Decimal2(n))[5..] == Decimal2(n);
  }

  lemma NumberedIsOfItems(items: seq<CaseItem>)
    ensures OfItems(Numbered(items), items)
  {
    forall i | 0 <= i < |items|
      ensures if Blank(items[i].caption) then NumberedCaption(Numbered(items)[i].caption, i + 1) else Numbered(items)[i].caption == Trim(items[i].caption)
    {
      TrimBlank(items[i].caption);
      CaptionIs(i + 1);
    }
  }

  lemma CountedIsOfCount(count: nat)
    ensures OfCount(Counted(count), count)
  {
    forall i | 0 <= i < count
      ensures NumberedCaption(Counted(count)[i].caption, i + 1)
    {
      CaptionIs(i + 1);
    }
  }

  // ----- The planned steps

  /** The step of a case that stands for a template of the block: its number in two digits or
      more makes its slug and its group, its caption is the title of its group. */
  ghost predicate StandsFor(step: StepSpec, template: StepSpec, group: string, maxItems: int, tc: DynamicCase, count: nat) {
    && (exists digits :: Spells(digits, tc.index, 2) && step.slug == template.slug + "-case-" + digits && step.group == group + "/case-" + digits)
    && step.groupTitle == tc.caption && step.dynamic == None
    && step.kind == (if Blank(template.kind) then "run" else template.kind)
    && CarriesCase(step, template, group, maxItems, tc, count)
  }

  /** The variables of the step: what it is told about its case, and the template's others. */
  ghost predicate CarriesCase(step: StepSpec, template: StepSpec, group: string, maxItems: int, tc: DynamicCase, count: nat) {
    && step.env.Keys == template.env.Keys + {CaseIndex, CaseCount, CaseLabel, CaseJson, DynamicGroup, TemplateStep, TemplateGroup, TemplateMax, TemplateItemId}
    && Spells(step.env[CaseIndex], tc.index, 1) && step.env[TemplateItemId] == step.env[CaseIndex]
    && Spells(step.env[CaseCount], count, 1)
    && step.env[CaseLabel] == tc.caption && step.env[CaseJson] == tc.raw
    && step.env[DynamicGroup] == group && step.env[TemplateGroup] == group && step.env[TemplateStep] == template.slug
    && Atoi(step.env[TemplateMax]) == Parsed(maxItems, true)
    && forall name | Other(name) in template.env :: step.env[Other(name)] == template.env[Other(name)]
  }

  ghost predicate StandsAt(plan: seq<StepSpec>, at: nat, template: StepSpec, group: string, maxItems: int, tc: DynamicCase, count: nat) {
    at < |plan| && StandsFor(plan[at], template, group, maxItems, tc, count)
  }

  lemma InstanceStandsFor(x: Expansion, tc: DynamicCase, template: StepSpec)
    requires !Blank(tc.caption) && -MAX_INT - 1 <= x.maxItems <= MAX_INT
    ensures StandsFor(Instance(x, tc, template), template, x.group, x.maxItems, tc, x.count)
  {
    var step := Instance(x, tc, template);
    TrimBlank(tc.caption);
    TrimBlank(template.kind);
    Decimal2Is(tc.index);
    assert step.slug == template.slug + "-case-" + Decimal2(tc.index);
    InstanceCarries(x, tc, template, step.groupTitle);
  }

  lemma InstanceCarries(x: Expansion, tc: DynamicCase, template: StepSpec, title: string)
    requires title == tc.caption && -MAX_INT - 1 <= x.maxItems <= MAX_INT
    ensures var step := Instance(x, tc, template);
            step.groupTitle == title ==> CarriesCase(step, template, x.group, x.maxItems, tc, x.count)
  {
    hide Atoi, Decimal, Spells, Trim, Decimal2, FirstNonEmpty, CaseEnv, Itoa;
    CaseEnvIs(x, tc, title, template);
    DecimalIs(tc.index);
    DecimalIs(x.count);
    AtoiOfItoa(x.maxItems);
  }

  lemma CaseEnvIs(x: Expansion, tc: DynamicCase, title: string, template: StepSpec)
    ensures var env := CaseEnv(x, tc, title, template);
            && env.Keys == {CaseIndex, CaseCount, CaseLabel, CaseJson, DynamicGroup, TemplateStep, TemplateGroup, TemplateMax, TemplateItemId}
            && env[CaseIndex] == env[TemplateItemId] == Decimal(tc.index) && env[CaseCount] == Decimal(x.count)
            && env[CaseLabel] == title && env[CaseJson] == tc.raw && env[TemplateMax] == Itoa(x.maxItems)
            && env[DynamicGroup] == env[TemplateGroup] == x.group && env[TemplateStep] == template.slug
  {}

  lemma NotBlankCaption(caption: string, n: nat)
    requires NumberedCaption(caption, n)
    ensures !Blank(caption)
  {
    assert caption[0] == caption[..5][0] == 'c';
  }

  lemma CasesHaveCaptions(w: World, group: string, maxItems: int, outputs: map<string, string>)
    ensures var cases := CasesForGroup(w, group, maxItems, outputs);
            cases.Some? ==> forall i | 0 <= i < |cases.value| :: !Blank(cases.value[i].caption) && cases.value[i].index == i + 1
  {
    var cases := CasesForGroup(w, group, maxItems, outputs);
    var json, count := CasesAre(w, group, maxItems, outputs);
    if cases.Some? {
      forall i | 0 <= i < |cases.value|
        ensures !Blank(cases.value[i].caption) && cases.value[i].index == i + 1
      {
        if json.Some? {
          var caption := w.decode(json.value).value[i].caption;
          if Blank(caption) { NotBlankCaption(cases.value[i].caption, i + 1); } else { TrimNotBlank(caption); }
        } else {
          NotBlankCaption(cases.value[i].caption, i + 1);
        }
      }
    }
  }

  lemma TrimNotBlank(s: string)
    requires !Blank(s)
    ensures !Blank(Trim(s))
  {
    TrimBlank(s);
    TrimLeftCut(s);
    TrimRightCut(TrimLeft(s));
    assert Trim(s)[0] == TrimLeft(s)[0];
  }

  /** The step at position c * |block| + t of a plan stands for template t and case c. */
  lemma PlannedStepIs(w: World, block: seq<StepSpec>, outputs: map<string, string>, cases: seq<DynamicCase>, c: nat, t: nat, at: nat)
    requires block != [] && InBlock(block[0]) && c < |cases| && t < |block| && at == c * |block| + t
    requires CasesForGroup(w, Trim(block[0].group), block[0].dynamic.value.maxItems, outputs) == Some(cases)
    ensures |ConcreteSteps(block, cases)| == |cases| * |block| && cases[c].index == c + 1
    ensures StandsAt(ConcreteSteps(block, cases), at, block[t], Trim(block[0].group), block[0].dynamic.value.maxItems, cases[c], |cases|)
  {
    hide StandsFor, Instance, Expanded, CasesForGroup;
    var group, dynamic := Trim(block[0].group), block[0].dynamic.value;
    var x := Expansion(group, dynamic.maxItems, FirstNonEmpty(Trim(dynamic.itemLabel), "case"), |cases|);
    CasesHaveCaptions(w, group, dynamic.maxItems, outputs);
    ExpandedAt(x, cases, block, c, t);
    InstanceStandsFor(x, cases[c], block[t]);
  }

  /** The steps planned for a list of items carry their own items: case c the JSON of item c. */
  lemma PlannedStepHasItem(w: World, block: seq<StepSpec>, outputs: map<string, string>, cases: seq<DynamicCase>, c: nat, t: nat, at: nat)
      returns (json: Option<string>)
    requires block != [] && InBlock(block[0]) && c < |cases| && t < |block| && at == c * |block| + t
    requires CasesForGroup(w, Trim(block[0].group), block[0].dynamic.value.maxItems, outputs) == Some(cases)
    ensures FirstOf(outputs, KeysFor(NameOf(Trim(block[0].group)), "_json"), json)
    ensures at < |ConcreteSteps(block, cases)|
    ensures var env := ConcreteSteps(block, cases)[at].env;
            && CaseJson in env
            && match json {
                 case Some(text) => w.decode(text).Some? && c < |w.decode(text).value| && env[CaseJson] == w.decode(text).value[c].raw
                 case None => env[CaseJson] == "{}"
               }
  {
    hide ConcreteSteps, CasesForGroup, FirstOf, Spells;
    var count;
    json, count := CasesAre(w, Trim(block[0].group), block[0].dynamic.value.maxItems, outputs);
    PlannedStepIs(w, block, outputs, cases, c, t, at);
  }

  /** Every case has a caption, so that the label for items without one is never used: with
      another label a block is expanded to the same steps. */
  lemma LabelIsUnused(w: World, block: seq<StepSpec>, outputs: map<string, string>, itemName: string)
    requires block != [] && InBlock(block[0])
    ensures var dynamic := block[0].dynamic.value;
            var cases := CasesForGroup(w, Trim(block[0].group), dynamic.maxItems, outputs);
            var relabelled := [block[0].(dynamic := Some(dynamic.(itemLabel := itemName)))] + block[1..];
            cases.Some? ==> ConcreteSteps(relabelled, cases.value) == ConcreteSteps(block, cases.value)
  {
    var dynamic := block[0].dynamic.value;
    var cases := CasesForGroup(w, Trim(block[0].group), dynamic.maxItems, outputs);
    var relabelled := [block[0].(dynamic := Some(dynamic.(itemLabel := itemName)))] + block[1..];
    if cases.Some? {
      CasesHaveCaptions(w, Trim(block[0].group), dynamic.maxItems, outputs);
      var x := Expansion(Trim(block[0].group), dynamic.maxItems, FirstNonEmpty(Trim(dynamic.itemLabel), "case"), |cases.value|);
      SameExpansion(x, FirstNonEmpty(Trim(itemName), "case"), cases.value, block, relabelled);
    }
  }

  predicate SameButDynamic(block: seq<StepSpec>, other: seq<StepSpec>) {
    |block| == |other| && forall t | 0 <= t < |block| :: other[t] == block[t].(dynamic := other[t].dynamic)
  }

  lemma {:induction false} SameExpansion(x: Expansion, itemName: string, cases: seq<DynamicCase>, block: seq<StepSpec>, other: seq<StepSpec>)
    requires SameButDynamic(block, other) && forall i | 0 <= i < |cases| :: !Blank(cases[i].caption)
    ensures Expanded(x.(itemLabel := itemName), cases, other) == Expanded(x, cases, block)
    decreases |cases|
  {
    hide SameButDynamic, Instances;
    if cases != [] {
      SameInstances(x, itemName, cases[0], block, other);
      SameExpansion(x, itemName, cases[1..], block, other);
    }
  }

  lemma {:induction false} SameInstances(x: Expansion, itemName: string, tc: DynamicCase, block: seq<StepSpec>, other: seq<StepSpec>)
    requires SameButDynamic(block, other) && !Blank(tc.caption)
    ensures Instances(x.(itemLabel := itemName), tc, other) == Instances(x, tc, block)
    decreases |block|
  {
    if block != [] {
      TrimBlank(tc.caption);
      SameInstances(x, itemName, tc, block[1..], other[1..]);
      SameInstance(x, itemName, tc, block[0], other[0]);
    }
  }

  lemma SameInstance(x: Expansion, itemName: string, tc: DynamicCase, template: StepSpec, other: StepSpec)
    requires other == template.(dynamic := other.dynamic) && Trim(tc.caption) != ""
    ensures Instance(x.(itemLabel := itemName), tc, other) == Instance(x, tc, template)
  {}

  /** Steps of different cases, or of templates with different slugs, have different slugs. */
  lemma SlugsDiffer(a: StepSpec, b: StepSpec, s: StepSpec, t: StepSpec, group: string, maxItems: int, x: DynamicCase, y: DynamicCase, count: nat)
    requires StandsFor(a, s, group, maxItems, x, count) && StandsFor(b, t, group, maxItems, y, count)
    ensures a.slug == b.slug <==> s.slug == t.slug && x.index == y.index
  {
    hide CarriesCase;
    var d :| Spells(d, x.index, 2) && a.slug == s.slug + "-case-" + d;
    var e :| Spells(e, y.index, 2) && b.slug == t.slug + "-case-" + e;
    if x.index == y.index {
      SpellsDecimal2(d, x.index);
      SpellsDecimal2(e, x.index);
    }
    if a.slug == b.slug {
      SameEnds(s.slug, d, t.slug, e);
    }
  }

  /** The digits at the end of a text are all its last characters that are digits. */
  lemma SameEnds(a: string, d: string, b: string, e: string)
    requires AllDigits(d) && AllDigits(e) && a + "-case-" + d == b + "-case-" + e
    ensures a == b && d == e
  {
    var s := a + "-case-" + d;
    LastDash(a, d, s);
    LastDash(b, e, s);
    assert a == s[..|a|] && d == s[|a| + 6..];
    assert b == s[..|b|] && e == s[|b| + 6..];
  }

  lemma LastDash(a: string, d: string, s: string)
    requires AllDigits(d) && s == a + "-case-" + d
    ensures s[|a| + 5] == '-' && forall i | |a| + 5 < i < |s| :: IsDigit(s[i])
  {
    assert forall i | |a| + 5 < i < |s| :: s[i] == d[i - |a| - 6];
  }
}
