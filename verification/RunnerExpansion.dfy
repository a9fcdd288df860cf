/** The expansion of a block: its loops, and which step stands where. */
module RunnerExpansion {
  import opened Text
  import opened Numbers
  import opened CaseVerdict
  import opened RunnerModel

  /** The block that starts at a position, if one does, and the position after it. */
  method DynamicStepBlock(steps: seq<StepSpec>, start: nat) returns (block: seq<StepSpec>, next: nat, ok: bool)
    ensures ok == (start < |steps| && InBlock(steps[start]))
    ensures ok ==> start < next <= |steps| && block == Block(steps[start..]) && next == start + |block|
    ensures ok ==> forall i | start <= i < next :: steps[i].dynamic.Some? && Trim(steps[i].group) == Trim(steps[start].group)
    ensures ok && next < |steps| ==> steps[next].dynamic.None? || Trim(steps[next].group) != Trim(steps[start].group)
  {
    block, next, ok := [], start, false;
    if start >= |steps| || steps[start].dynamic.None? {
      return;
    }
    var group := Trim(steps[start].group);
    if group == "" {
      return;
    }
    var end := start;
    while end < |steps|
      invariant start <= end <= |steps|
      invariant BlockEnd(steps[start..], group) == end - start + BlockEnd(steps[end..], group)
      invariant forall i | start <= i < end :: steps[i].dynamic.Some? && Trim(steps[i].group) == group
    {
      var step := steps[end];
      assert steps[end..][1..] == steps[end + 1..];
      if step.dynamic.None? || Trim(step.group) != group {
        break;
      }
      end := end + 1;
    }
    assert steps[start..][..end - start] == steps[start..end];
    return steps[start..end], end, true;
  }

  method ConcreteDynamicSteps(block: seq<StepSpec>, cases: seq<DynamicCase>) returns (steps: seq<StepSpec>)
    requires block != [] && InBlock(block[0])
    ensures steps == ConcreteSteps(block, cases)
  {
    var dynamic := block[0].dynamic.value;
    var x := Expansion(Trim(block[0].group), dynamic.maxItems, FirstNonEmpty(Trim(dynamic.itemLabel), "case"), |cases|);
    steps := [];
    var c := 0;
    while c < |cases|
      invariant c <= |cases|
      invariant steps + Expanded(x, cases[c..], block) == Expanded(x, cases, block)
    {
      OneMoreCase(x, steps, cases, c, block);
      steps := AppendInstances(steps, x, cases[c], block);
      c := c + 1;
    }
    assert steps + [] == steps;
  }

  /** The inner loop: the templates of one case. */
  method AppendInstances(start: seq<StepSpec>, x: Expansion, tc: DynamicCase, block: seq<StepSpec>) returns (steps: seq<StepSpec>)
    ensures steps == start + Instances(x, tc, block)
  {
    steps := start;
    var t := 0;
    while t < |block|
      invariant t <= |block|
      invariant steps + Instances(x, tc, block[t..]) == start + Instances(x, tc, block)
    {
      assert block[t..][1..] == block[t + 1..];
      var step := Instance(x, tc, block[t]);
      Associative(steps, [step], Instances(x, tc, block[t + 1..]));
      steps := steps + [step];
      t := t + 1;
    }
    assert steps + [] == steps;
  }

  lemma OneMoreCase(x: Expansion, steps: seq<StepSpec>, cases: seq<DynamicCase>, c: nat, block: seq<StepSpec>)
    requires c < |cases|
    ensures steps + Instances(x, cases[c], block) + Expanded(x, cases[c + 1..], block) == steps + Expanded(x, cases[c..], block)
  {
    assert cases[c..][1..] == cases[c + 1..];
    Associative(steps, Instances(x, cases[c], block), Expanded(x, cases[c + 1..], block));
  }

  lemma {:induction false} InstancesAt(x: Expansion, tc: DynamicCase, block: seq<StepSpec>)
    ensures |Instances(x, tc, block)| == |block| && forall t | 0 <= t < |block| :: Instances(x, tc, block)[t] == Instance(x, tc, block[t])
    decreases |block|
  {
    if block != [] {
      InstancesAt(x, tc, block[1..]);
    }
  }

  /** The position of the instances of case c, for blocks of n steps. */
  function Offset(c: nat, n: nat): nat {
    if c == 0 then 0 else n + Offset(c - 1, n)
  }

  lemma {:induction false} OffsetIsProduct(c: nat, n: nat)
    ensures Offset(c, n) == c * n
  {
    if c > 0 {
      OffsetIsProduct(c - 1, n);
    }
  }

  lemma {:induction false} AtOffset(x: Expansion, cases: seq<DynamicCase>, block: seq<StepSpec>, c: nat, t: nat)
    requires c < |cases| && t < |block|
    ensures Offset(c, |block|) + t < |Expanded(x, cases, block)|
    ensures Expanded(x, cases, block)[Offset(c, |block|) + t] == Instance(x, cases[c], block[t])
    decreases |cases|
  {
    InstancesAt(x, cases[0], block);
    if c > 0 {
      AtOffset(x, cases[1..], block, c - 1, t);
    }
  }

  lemma InstancesLength(x: Expansion, tc: DynamicCase, block: seq<StepSpec>)
    ensures |Instances(x, tc, block)| == |block|
  {
    InstancesAt(x, tc, block);
  }

  lemma {:induction false} ExpandedLength(x: Expansion, cases: seq<DynamicCase>, block: seq<StepSpec>)
    ensures |Expanded(x, cases, block)| == Offset(|cases|, |block|)
    decreases |cases|
  {
    hide Instance, Instances;
    if cases != [] {
      var rest := cases[1..];
      InstancesLength(x, cases[0], block);
      ExpandedLength(x, rest, block);
      assert Expanded(x, cases, block) == Instances(x, cases[0], block) + Expanded(x, rest, block);
    }
  }

  /** Case c's instance of template t stands at position c * |block| + t, and there are no
      other planned steps. */
  lemma ExpandedAt(x: Expansion, cases: seq<DynamicCase>, block: seq<StepSpec>, c: nat, t: nat)
    requires c < |cases| && t < |block|
    ensures |Expanded(x, cases, block)| == |cases| * |block|
    ensures c * |block| + t < |Expanded(x, cases, block)|
    ensures Expanded(x, cases, block)[c * |block| + t] == Instance(x, cases[c], block[t])
  {
    hide Expanded, Instance, Offset;
    AtOffset(x, cases, block, c, t);
    ExpandedLength(x, cases, block);
    OffsetIsProduct(c, |block|);
    OffsetIsProduct(|cases|, |block|);
  }

  /** An instance keeps the environment of its template, apart from what tells it about its
      case. */
  lemma InstanceKeepsEnv(x: Expansion, tc: DynamicCase, template: StepSpec, name: string)
    ensures Get(Instance(x, tc, template).env, Other(name)) == Get(template.env, Other(name))
  {
    var title := Instance(x, tc, template).groupTitle;
    assert Other(name) !in CaseEnv(x, tc, title, template);
  }

  /** From its environment an instance can read its case and the number of cases. */
  lemma InstanceTellsCase(x: Expansion, tc: DynamicCase, template: StepSpec)
    requires tc.index <= MAX_INT && x.count <= MAX_INT
    ensures var env := Instance(x, tc, template).env;
            && Atoi(Get(env, CaseIndex)) == Parsed(tc.index, true)
            && Atoi(Get(env, CaseCount)) == Parsed(x.count, true)
            && Get(env, CaseJson) == tc.raw && Get(env, TemplateStep) == template.slug
  {
    hide Atoi, Decimal;
    AtoiOfDecimal(tc.index);
    AtoiOfDecimal(x.count);
    var title := Instance(x, tc, template).groupTitle;
  }

  // ----- The cases

  method NumberItems(items: seq<CaseItem>) returns (cases: seq<DynamicCase>)
    ensures cases == Numbered(items)
  {
    cases := [];
    for i := 0 to |items|
      invariant cases == Numbered(items)[..i]
    {
      cases := cases + [DynamicCase(i + 1, items[i].raw, Caption(items[i].caption, i + 1))];
    }
  }

  method CountCases(count: nat) returns (cases: seq<DynamicCase>)
    ensures cases == Counted(count)
  {
    cases := [];
    for i := 0 to count
      invariant cases == Counted(count)[..i]
    {
      cases := cases + [DynamicCase(i + 1, "{}", "case " + Decimal2(i + 1))];
    }
  }
}
