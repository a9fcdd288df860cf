/** balancedJsonChunks: cutting bracketed JSON-like documents out of a log message,
    against a grammar of brackets and of strings as in section 7 of RFC 8259. */
module JsonChunks {
  import opened Text

  predicate IsOpener(c: char) { c == '{' || c == '[' }
  predicate IsCloser(c: char) { c == '}' || c == ']' }

  function CloserOf(open: char): char {
    if open == '{' then '}' else ']'
  }

  // ----- The program

  method BalancedJsonChunks(input: string) returns (chunks: seq<string>)
    ensures var end := Scan(input, 0, START);
            chunks == Slices(input, end.spans) && (end.start == -1 <==> end.stack == [])
  {
    chunks := [];
    var stack: string, start, inString, escaped := [], -1, false, false;
    ghost var st, spans := START, [];
    var index := 0;
    while index < |input|
      invariant index <= |input|
      invariant -1 <= start < index && (start == -1 <==> stack == [])
      invariant Scan(input, index, st) == Scan(input, 0, START)
      invariant st == State(spans, stack, start, inString, escaped)
      invariant chunks == Slices(input, spans)
    {
      var ch := input[index];
      st := Step(st, index, ch);
      index := index + 1;
      if start == -1 {
        if IsOpener(ch) {
          start := index - 1;
          stack := stack + [ch];
        }
        continue;
      }
      if inString {
        if escaped {
          escaped := false;
        } else if ch == '\\' {
          escaped := true;
        } else if ch == '"' {
          inString := false;
        }
        continue;
      }
      if ch == '"' {
        inString := true;
        continue;
      }
      if IsOpener(ch) {
        stack := stack + [ch];
        continue;
      }
      if IsCloser(ch) {
        var opener := stack[|stack| - 1];
        stack := stack[..|stack| - 1];
        if (opener == '{' && ch != '}') || (opener == '[' && ch != ']') {
          start := -1;
          stack := [];
          continue;
        }
        if |stack| == 0 {
          spans := spans + [(start, index)];
          chunks := chunks + [input[start..index]];
          start := -1;
        }
      }
    }
  }

  /** The scanner's variables; spans are the positions of the chunks found. */
  datatype State = State(spans: seq<(int, int)>, stack: string, start: int, inString: bool, escaped: bool)

  const START := State([], [], -1, false, false)

  function Step(st: State, index: nat, ch: char): State {
    if st.start == -1 then
      if IsOpener(ch) then st.(start := index, stack := st.stack + [ch]) else st
    else if st.inString then
      if st.escaped then st.(escaped := false)
      else if ch == '\\' then st.(escaped := true)
      else if ch == '"' then st.(inString := false)
      else st
    else if ch == '"' then st.(inString := true)
    else if IsOpener(ch) then st.(stack := st.stack + [ch])
    else if IsCloser(ch) && st.stack != [] then
      var opener, rest := st.stack[|st.stack| - 1], st.stack[..|st.stack| - 1];
      if (opener == '{' && ch != '}') || (opener == '[' && ch != ']') then st.(start := -1, stack := [])
      else if rest == [] then st.(spans := st.spans + [(st.start, index + 1)], stack := rest, start := -1)
      else st.(stack := rest)
    else st
  }

  function Scan(input: string, index: nat, st: State): State
    requires index <= |input|
    decreases |input| - index
  {
    if index == |input| then st else Scan(input, index + 1, Step(st, index, input[index]))
  }

  predicate InRange(input: string, spans: seq<(int, int)>) {
    forall k | 0 <= k < |spans| :: 0 <= spans[k].0 < spans[k].1 <= |input|
  }

  function Slices(input: string, spans: seq<(int, int)>): seq<string> {
    if spans == [] then []
    else
      var before, last := Slices(input, spans[..|spans| - 1]), spans[|spans| - 1];
      before + [if 0 <= last.0 <= last.1 <= |input| then input[last.0..last.1] else ""]
  }

  // ----- The grammar

  /** A bracketed group, a string literal given by its text between the quotes, or
      any other character. */
  datatype Node = Plain(c: char) | Quoted(body: string) | Group(open: char, items: seq<Node>)

  predicate Valid(n: Node) {
    match n
    case Plain(c) => !IsOpener(c) && !IsCloser(c) && c != '"'
    case Quoted(body) => ValidBody(body)
    case Group(open, items) => IsOpener(open) && forall i | 0 <= i < |items| :: Valid(items[i])
  }

  /** No bare quote, and every backslash is followed by the character it escapes. */
  predicate ValidBody(body: string) {
    if body == "" then true
    else if body[0] == '\\' then |body| >= 2 && ValidBody(body[2..])
    else body[0] != '"' && ValidBody(body[1..])
  }

  function Render(n: Node): string
    decreases n
  {
    match n
    case Plain(c) => [c]
    case Quoted(body) => "\"" + body + "\""
    case Group(open, items) => [open] + RenderAll(items) + [CloserOf(open)]
  }

  function RenderAll(items: seq<Node>): string
    decreases items
  {
    if items == [] then "" else RenderAll(items[..|items| - 1]) + Render(items[|items| - 1])
  }

  ghost predicate Balanced(s: string) {
    exists n: Node :: n.Group? && Valid(n) && Render(n) == s
  }

  // ----- Completeness

  predicate Holds(input: string, at: nat, part: string) {
    at + |part| <= |input| && input[at..at + |part|] == part
  }

  lemma HoldsSplit(input: string, at: nat, a: string, b: string)
    requires Holds(input, at, a + b)
    ensures Holds(input, at, a) && Holds(input, at + |a|, b)
  {
    assert (a + b)[..|a|] == a && (a + b)[|a|..] == b;
    assert input[at..at + |a|] == input[at..at + |a + b|][..|a|];
    assert input[at + |a|..at + |a + b|] == input[at..at + |a + b|][|a|..];
  }

  lemma HoldsChar(input: string, at: nat, c: char, rest: string)
    requires Holds(input, at, [c] + rest)
    ensures at < |input| && input[at] == c && Holds(input, at + 1, rest)
  {
    HoldsSplit(input, at, [c], rest);
    assert input[at..at + 1][0] == c;
  }

  /** Inside a chunk and outside a string. */
  predicate Inside(st: State) {
    st.start >= 0 && st.stack != [] && !st.inString && !st.escaped
  }

  /** A well-formed part of a chunk leaves the scanner's variables as they were. */
  lemma {:induction false} ScanNode(input: string, at: nat, n: Node, st: State)
    requires Valid(n) && Inside(st) && Holds(input, at, Render(n))
    ensures Scan(input, at, st) == Scan(input, at + |Render(n)|, st)
    decreases n
  {
    match n
    case Plain(c) =>
      HoldsChar(input, at, c, "");
    case Quoted(body) =>
      ScanQuoted(input, at, body, st);
    case Group(open, items) =>
      var inner := st.(stack := st.stack + [open]);
      var text := RenderAll(items);
      HoldsGroup(input, at, open, text);
      ScanItems(input, at + 1, items, inner);
      ScanFrame(input, at, open, at + 1 + |text|, st, inner);
  }

  lemma HoldsGroup(input: string, at: nat, open: char, text: string)
    requires Holds(input, at, [open] + text + [CloserOf(open)])
    ensures Holds(input, at + 1, text) && at + 1 + |text| < |input|
    ensures input[at] == open && input[at + 1 + |text|] == CloserOf(open)
  {
    assert [open] + text + [CloserOf(open)] == [open] + (text + [CloserOf(open)]);
    HoldsChar(input, at, open, text + [CloserOf(open)]);
    HoldsSplit(input, at + 1, text, [CloserOf(open)]);
    HoldsChar(input, at + 1 + |text|, CloserOf(open), "");
  }

  /** An opening bracket and its closing bracket, with nothing lasting in between. */
  lemma ScanFrame(input: string, at: nat, open: char, close: nat, st: State, inner: State)
    requires Inside(st) && IsOpener(open) && inner == st.(stack := st.stack + [open])
    requires at < close < |input| && input[at] == open && input[close] == CloserOf(open)
    requires Scan(input, at + 1, inner) == Scan(input, close, inner)
    ensures Scan(input, at, st) == Scan(input, close + 1, st)
  {
    assert inner.stack[..|inner.stack| - 1] == st.stack;
    assert Step(inner, close, input[close]) == st;
  }

  lemma ScanQuoted(input: string, at: nat, body: string, st: State)
    requires ValidBody(body) && Inside(st) && Holds(input, at, "\"" + body + "\"")
    ensures Scan(input, at, st) == Scan(input, at + |body| + 2, st)
  {
    var inner, close := st.(inString := true), at + 1 + |body|;
    assert "\"" + body + "\"" == ['"'] + (body + "\"");
    HoldsChar(input, at, '"', body + "\"");
    HoldsSplit(input, at + 1, body, "\"");
    HoldsChar(input, close, '"', "");
    ScanBody(input, at + 1, body, inner);
    assert Step(inner, close, '"') == st;
  }

  lemma {:induction false} ScanItems(input: string, at: nat, items: seq<Node>, st: State)
    requires (forall i | 0 <= i < |items| :: Valid(items[i])) && Inside(st) && Holds(input, at, RenderAll(items))
    ensures Scan(input, at, st) == Scan(input, at + |RenderAll(items)|, st)
    decreases items
  {
    if items != [] {
      var front, last := items[..|items| - 1], items[|items| - 1];
      HoldsSplit(input, at, RenderAll(front), Render(last));
      ScanItems(input, at, front, st);
      ScanNode(input, at + |RenderAll(front)|, last, st);
    }
  }

  lemma {:induction false} ScanBody(input: string, at: nat, body: string, st: State)
    requires ValidBody(body) && st.start >= 0 && st.inString && !st.escaped && Holds(input, at, body)
    ensures Scan(input, at, st) == Scan(input, at + |body|, st)
    decreases |body|
  {
    if body != "" {
      assert body == [body[0]] + body[1..];
      HoldsChar(input, at, body[0], body[1..]);
      if body[0] == '\\' {
        assert body[1..] == [body[1]] + body[2..];
        HoldsChar(input, at + 1, body[1], body[2..]);
        assert Step(Step(st, at, body[0]), at + 1, body[1]) == st;
        ScanBody(input, at + 2, body[2..], st);
      } else {
        ScanBody(input, at + 1, body[1..], st);
      }
    }
  }

  /** A message: documents, each after some text without opening brackets. */
  datatype Doc = Doc(noise: string, group: Node)

  predicate Noise(s: string) {
    forall i | 0 <= i < |s| :: !IsOpener(s[i])
  }

  predicate ValidDoc(d: Doc) {
    Noise(d.noise) && d.group.Group? && Valid(d.group)
  }

  function Message(docs: seq<Doc>): string {
    if docs == [] then ""
    else Message(docs[..|docs| - 1]) + docs[|docs| - 1].noise + Render(docs[|docs| - 1].group)
  }

  function Documents(docs: seq<Doc>): seq<string> {
    if docs == [] then []
    else Documents(docs[..|docs| - 1]) + [Render(docs[|docs| - 1].group)]
  }

  function Between(spans: seq<(int, int)>): State {
    State(spans, [], -1, false, false)
  }

  lemma {:induction false} ScanNoise(input: string, at: nat, noise: string, spans: seq<(int, int)>)
    requires Noise(noise) && Holds(input, at, noise)
    ensures Scan(input, at, Between(spans)) == Scan(input, at + |noise|, Between(spans))
    decreases |noise|
  {
    if noise != "" {
      assert noise == [noise[0]] + noise[1..];
      HoldsChar(input, at, noise[0], noise[1..]);
      ScanNoise(input, at + 1, noise[1..], spans);
    }
  }

  lemma ScanGroup(input: string, at: nat, n: Node, spans: seq<(int, int)>)
    requires n.Group? && Valid(n) && Holds(input, at, Render(n))
    ensures var end := at + |Render(n)|;
            Scan(input, at, Between(spans)) == Scan(input, end, Between(spans + [(at, end)]))
  {
    var text := RenderAll(n.items);
    var close, inner := at + 1 + |text|, Between(spans).(start := at, stack := [n.open]);
    HoldsGroup(input, at, n.open, text);
    ScanItems(input, at + 1, n.items, inner);
    GroupSteps(n.open, at, close, spans, inner);
  }

  lemma GroupSteps(open: char, at: nat, close: nat, spans: seq<(int, int)>, inner: State)
    requires IsOpener(open) && inner == Between(spans).(start := at, stack := [open])
    ensures Step(Between(spans), at, open) == inner
    ensures Step(inner, close, CloserOf(open)) == Between(spans + [(at, close + 1)])
  {
    assert [] + [open] == [open];
    assert [open][..0] == [];
  }

  /** Documents rendered from any bracket and string tree, among text without opening
      brackets, come back exactly. */
  lemma {:induction false} ScanDocs(input: string, docs: seq<Doc>) returns (spans: seq<(int, int)>)
    requires (forall i | 0 <= i < |docs| :: ValidDoc(docs[i])) && Holds(input, 0, Message(docs))
    ensures Scan(input, 0, START) == Scan(input, |Message(docs)|, Between(spans))
    ensures Slices(input, spans) == Documents(docs)
  {
    hide Scan, Render, Valid;
    if docs == [] {
      spans := [];
    } else {
      var front, d := docs[..|docs| - 1], docs[|docs| - 1];
      var text, at := Message(front), |Message(front)| + |d.noise|;
      HoldsSplit(input, 0, text + d.noise, Render(d.group));
      HoldsSplit(input, 0, text, d.noise);
      var earlier := ScanDocs(input, front);
      ScanNoise(input, |text|, d.noise, earlier);
      ScanGroup(input, at, d.group, earlier);
      spans := AddSpan(input, earlier, at, Render(d.group));
    }
  }

  lemma AddSpan(input: string, earlier: seq<(int, int)>, at: nat, text: string) returns (spans: seq<(int, int)>)
    requires Holds(input, at, text)
    ensures spans == earlier + [(at, at + |text|)]
    ensures Slices(input, spans) == Slices(input, earlier) + [text]
  {
    spans := earlier + [(at, at + |text|)];
  }

  lemma {:induction false} ChunksAreComplete(docs: seq<Doc>, tail: string)
    requires (forall i | 0 <= i < |docs| :: ValidDoc(docs[i])) && Noise(tail)
    ensures Slices(Message(docs) + tail, Scan(Message(docs) + tail, 0, START).spans) == Documents(docs)
  {
    var input := Message(docs) + tail;
    assert Holds(input, 0, Message(docs));
    var spans := ScanDocs(input, docs);
    assert Holds(input, |Message(docs)|, tail);
    ScanNoise(input, |Message(docs)|, tail, spans);
  }

  // ----- Soundness

  /** The part of a chunk read so far: for every open bracket the items after it. */
  datatype Frame = Frame(open: char, items: seq<Node>)

  function TextOf(frames: seq<Frame>): string {
    if frames == [] then ""
    else
      var last := frames[|frames| - 1];
      TextOf(frames[..|frames| - 1]) + ([last.open] + RenderAll(last.items))
  }

  predicate ValidFrame(f: Frame) {
    IsOpener(f.open) && forall i | 0 <= i < |f.items| :: Valid(f.items[i])
  }

  predicate Match(frames: seq<Frame>, stack: string) {
    && |frames| == |stack|
    && forall k | 0 <= k < |frames| :: frames[k].open == stack[k] && ValidFrame(frames[k])
  }

  /** The text of a string literal that is still open; after a backslash the escaped
      character is still to come. */
  function Opened(st: State, body: string): string {
    if !st.inString then "" else if st.escaped then "\"" + body + "\\" else "\"" + body
  }

  /** Frames and the body of an open string account for everything since start, and
      start is -1 exactly when no bracket is open. */
  predicate Reads(input: string, index: nat, st: State, frames: seq<Frame>, body: string) {
    && index <= |input| && Match(frames, st.stack) && ValidBody(body)
    && (st.start == -1 <==> st.stack == [])
    && (st.escaped ==> st.inString) && (st.start == -1 ==> !st.inString)
    && -1 <= st.start <= index
    && (st.start >= 0 ==> input[st.start..index] == TextOf(frames) + Opened(st, body))
  }

  /** The chunks found: in order, disjoint, balanced, and before the current one. */
  ghost predicate Found(input: string, st: State, index: int) {
    && InRange(input, st.spans)
    && (forall k | 0 <= k < |st.spans| - 1 :: st.spans[k].1 <= st.spans[k + 1].0)
    && (st.spans != [] ==> st.spans[|st.spans| - 1].1 <= if st.start == -1 then index else st.start)
    && forall k | 0 <= k < |st.spans| :: Balanced(input[st.spans[k].0..st.spans[k].1])
  }

  lemma Extend(input: string, start: nat, index: nat)
    requires start <= index < |input|
    ensures input[start..index + 1] == input[start..index] + [input[index]]
  {}

  lemma {:induction false} BodyGrows(body: string, c: char)
    requires ValidBody(body)
    ensures c != '"' && c != '\\' ==> ValidBody(body + [c])
    ensures ValidBody(body + ['\\', c])
    decreases |body|
  {
    if body == "" {
      assert body + [c] == [c] && body + ['\\', c] == ['\\', c];
      assert ['\\', c][2..] == "";
    } else {
      var k := if body[0] == '\\' then 2 else 1;
      BodyGrows(body[k..], c);
      assert (body + [c])[k..] == body[k..] + [c];
      assert (body + ['\\', c])[k..] == body[k..] + ['\\', c];
    }
  }

  /** A finished item goes to the innermost open bracket. */
  function AddItem(frames: seq<Frame>, n: Node): seq<Frame>
    requires frames != []
  {
    var last := frames[|frames| - 1];
    frames[..|frames| - 1] + [Frame(last.open, last.items + [n])]
  }

  lemma AddItemReads(frames: seq<Frame>, stack: string, n: Node)
    requires frames != [] && Match(frames, stack) && Valid(n)
    ensures Match(AddItem(frames, n), stack)
    ensures TextOf(AddItem(frames, n)) == TextOf(frames) + Render(n)
  {
    var front, last := frames[..|frames| - 1], frames[|frames| - 1];
    var items := last.items + [n];
    assert ValidFrame(last);
    assert items[..|last.items|] == last.items;
    assert AddItem(frames, n)[..|front|] == front;
    assert TextOf(front) + ([last.open] + (RenderAll(last.items) + Render(n)))
        == TextOf(front) + ([last.open] + RenderAll(last.items)) + Render(n);
  }

  /** Closing a bracket turns its frame into a group of the frame around it. */
  lemma CloseReads(frames: seq<Frame>, stack: string, c: char) returns (rest: seq<Frame>, group: Node)
    requires frames != [] && Match(frames, stack) && c == CloserOf(stack[|stack| - 1])
    ensures group.Group? && Valid(group) && |rest| == |frames| - 1
    ensures Match(rest, stack[..|stack| - 1])
    ensures TextOf(frames) + [c] == TextOf(rest) + Render(group)
  {
    var last := frames[|frames| - 1];
    rest, group := frames[..|frames| - 1], Group(last.open, last.items);
    assert ValidFrame(last);
    assert TextOf(rest) + ([last.open] + RenderAll(last.items)) + [c]
        == TextOf(rest) + ([last.open] + RenderAll(last.items) + [c]);
  }

  lemma StringStep(input: string, index: nat, st: State, frames: seq<Frame>, body: string) returns (frames': seq<Frame>, body': string)
    requires index < |input| && Reads(input, index, st, frames, body) && st.inString
    ensures Reads(input, index + 1, Step(st, index, input[index]), frames', body')
  {
    var ch := input[index];
    Extend(input, st.start, index);
    BodyGrows(body, ch);
    frames', body' := frames, body;
    if st.escaped {
      body' := body + ['\\', ch];
      assert "\"" + body + "\\" + [ch] == "\"" + body';
      Associative(TextOf(frames), Opened(st, body), [ch]);
    } else if ch == '"' {
      AddItemReads(frames, st.stack, Quoted(body));
      frames' := AddItem(frames, Quoted(body));
      Associative(TextOf(frames), "\"" + body, "\"");
      assert TextOf(frames') + "" == TextOf(frames');
    } else if ch == '\\' {
      Associative(TextOf(frames), "\"" + body, "\\");
    } else {
      body' := body + [ch];
      assert "\"" + body + [ch] == "\"" + body';
      Associative(TextOf(frames), "\"" + body, [ch]);
    }
  }

  lemma OpenStep(input: string, index: nat, st: State, frames: seq<Frame>, body: string) returns (frames': seq<Frame>)
    requires index < |input| && Reads(input, index, st, frames, body) && !st.inString && IsOpener(input[index])
    ensures Reads(input, index + 1, Step(st, index, input[index]), frames', "")
  {
    var ch, text := input[index], TextOf(frames);
    frames' := frames + [Frame(ch, [])];
    assert text + "" == text && TextOf(frames') + "" == TextOf(frames');
    if st.start >= 0 {
      Extend(input, st.start, index);
    } else {
      assert input[index..index + 1] == [ch] == "" + [ch];
    }
  }

  lemma PlainStep(input: string, index: nat, st: State, frames: seq<Frame>, body: string) returns (frames': seq<Frame>)
    requires index < |input| && Reads(input, index, st, frames, body) && !st.inString && st.start >= 0
    requires !IsOpener(input[index]) && !IsCloser(input[index]) && input[index] != '"'
    ensures Reads(input, index + 1, Step(st, index, input[index]), frames', "")
  {
    frames' := AddItem(frames, Plain(input[index]));
    AddItemReads(frames, st.stack, Plain(input[index]));
    Extend(input, st.start, index);
    assert TextOf(frames) + "" == TextOf(frames) && TextOf(frames') + "" == TextOf(frames');
  }

  lemma GroupIsBalanced(s: string, group: Node)
    requires group.Group? && Valid(group) && Render(group) == s
    ensures Balanced(s)
  {}

  lemma NoText()
    ensures TextOf([]) == ""
  {}

  lemma CloseStep(input: string, index: nat, st: State, frames: seq<Frame>, body: string) returns (frames': seq<Frame>)
    requires index < |input| && Reads(input, index, st, frames, body) && !st.inString && st.start >= 0
    requires input[index] == CloserOf(st.stack[|st.stack| - 1])
    ensures Reads(input, index + 1, Step(st, index, input[index]), frames', "")
    ensures |st.stack| == 1 ==> Balanced(input[st.start..index + 1])
  {
    hide Step, TextOf, Render, Valid, Balanced;
    var ch := input[index];
    OpenerAtTop(frames, st.stack);
    StepCloses(st, index, ch);
    var rest, group := CloseReads(frames, st.stack, ch);
    Extend(input, st.start, index);
    NoText();
    assert TextOf(frames) + "" == TextOf(frames);
    frames' := rest;
    if rest == [] {
      assert "" + Render(group) == Render(group);
      GroupIsBalanced(input[st.start..index + 1], group);
    } else {
      AddItemReads(rest, st.stack[..|st.stack| - 1], group);
      frames' := AddItem(rest, group);
      assert TextOf(frames') + "" == TextOf(frames');
    }
  }

  lemma OpenerAtTop(frames: seq<Frame>, stack: string)
    requires Match(frames, stack) && stack != []
    ensures IsOpener(stack[|stack| - 1])
  {
    assert ValidFrame(frames[|frames| - 1]);
  }

  lemma StepCloses(st: State, index: nat, ch: char)
    requires st.start >= 0 && !st.inString && st.stack != []
    requires IsOpener(st.stack[|st.stack| - 1]) && ch == CloserOf(st.stack[|st.stack| - 1])
    ensures var rest := st.stack[..|st.stack| - 1];
            Step(st, index, ch) ==
              if rest == [] then st.(spans := st.spans + [(st.start, index + 1)], stack := rest, start := -1) else st.(stack := rest)
  {}

  /** A step that closes the outermost bracket records the span of the chunk. */
  ghost predicate Records(input: string, index: nat, st: State, st': State)
    requires index < |input|
  {
    && 0 <= st.start <= index && st'.start == -1
    && st'.spans == st.spans + [(st.start, index + 1)]
    && Balanced(input[st.start..index + 1])
  }

  lemma OutsideStep(input: string, index: nat, st: State, frames: seq<Frame>, body: string) returns (frames': seq<Frame>)
    requires index < |input| && Reads(input, index, st, frames, body) && !st.inString
    ensures var st' := Step(st, index, input[index]);
            && Reads(input, index + 1, st', frames', "")
            && (st'.spans == st.spans || Records(input, index, st, st'))
  {
    var ch := input[index];
    frames' := frames;
    if IsOpener(ch) {
      frames' := OpenStep(input, index, st, frames, body);
    } else if st.start >= 0 {
      if ch == '"' {
        Extend(input, st.start, index);
        assert TextOf(frames) + "" == TextOf(frames);
      } else if !IsCloser(ch) {
        frames' := PlainStep(input, index, st, frames, body);
      } else if ch != CloserOf(st.stack[|st.stack| - 1]) {
        frames' := [];
      } else {
        frames' := CloseStep(input, index, st, frames, body);
      }
    }
  }

  lemma FoundStep(input: string, index: nat, st: State, st': State)
    requires index < |input| && Found(input, st, index) && -1 <= st.start <= index
    requires st' == Step(st, index, input[index])
    requires st'.spans == st.spans || Records(input, index, st, st')
    ensures Found(input, st', index + 1)
  {}

  lemma {:induction false} ScanSound(input: string, index: nat, st: State, frames: seq<Frame>, body: string)
    requires Reads(input, index, st, frames, body) && Found(input, st, index)
    ensures Found(input, Scan(input, index, st), |input|)
    decreases |input| - index
  {
    if index < |input| {
      var frames', body' := SoundStep(input, index, st, frames, body);
      ScanSound(input, index + 1, Step(st, index, input[index]), frames', body');
    }
  }

  lemma SoundStep(input: string, index: nat, st: State, frames: seq<Frame>, body: string) returns (frames': seq<Frame>, body': string)
    requires index < |input| && Reads(input, index, st, frames, body) && Found(input, st, index)
    ensures Reads(input, index + 1, Step(st, index, input[index]), frames', body')
    ensures Found(input, Step(st, index, input[index]), index + 1)
  {
    if st.inString {
      frames', body' := StringStep(input, index, st, frames, body);
    } else {
      frames' := OutsideStep(input, index, st, frames, body);
      body' := "";
    }
    FoundStep(input, index, st, Step(st, index, input[index]));
  }

  /** For any message: the chunks lie in it one after the other, and each is the
      rendering of a bracket and string tree. */
  lemma {:induction false} ChunksAreSound(input: string)
    ensures Found(input, Scan(input, 0, START), |input|)
  {
    assert Match([], "");
    ScanSound(input, 0, START, [], "");
  }
}
