/** What any output file says, whoever has written it: which lines set which outputs, and
    which files are errors. */
module OutputReading {
  import opened Text
  import opened LineScanner
  import opened Json
  import opened JsonText
  import opened OutputFile
  import opened OutputRoundTrip
  import opened OutputLosses

  // ----- What objects and lines set

  /** The value of a name in an object, in which each name occurs once. */
  predicate Gives(obj: Object, name: string, value: string) {
    (name, value) in obj
  }

  /** The outputs o with those of the pairs, named by their trimmed names, which are not blank,
      new, and distinct. */
  ghost predicate PairsSet(o: map<string, string>, pairs: Object, next: map<string, string>) {
    && (forall i | 0 <= i < |pairs| :: !Blank(pairs[i].0) && Trim(pairs[i].0) !in o && Trim(pairs[i].0) in next && next[Trim(pairs[i].0)] == pairs[i].1)
    && (forall i, j | 0 <= i < j < |pairs| :: Trim(pairs[i].0) != Trim(pairs[j].0))
    && (forall k | k in o :: k in next && next[k] == o[k])
    && (forall k | k in next && k !in o :: exists i :: 0 <= i < |pairs| && Trim(pairs[i].0) == k)
  }

  /** An object with a member "key" sets the output named by it, to its "value" if it has one;
      any other object sets the outputs named by its members. */
  ghost predicate ObjectSets(o: map<string, string>, obj: Object, next: map<string, string>) {
    if exists key :: Gives(obj, "key", key) then
      exists key, value :: Gives(obj, "key", key) && ValueIn(obj, value) && PairsSet(o, [(key, value)], next)
    else PairsSet(o, obj, next)
  }

  ghost predicate ValueIn(obj: Object, value: string) {
    Gives(obj, "value", value) || (value == "" && forall v :: !Gives(obj, "value", v))
  }

  /** The first character that is not white space is an opening brace. */
  predicate Braced(line: string) {
    TrimLeft(line) != "" && TrimLeft(line)[0] == '{'
  }

  /** A blank line sets nothing; a line with an object what the object sets; any other line
      must have an equals sign and sets the output named before the first one, to what comes
      after it, up to white space at the end. */
  ghost predicate LineSets(o: map<string, string>, line: string, next: map<string, string>) {
    || (Blank(line) && next == o)
    || (Braced(line) && exists obj :: Unmarshal(Trim(line)) == Some(obj) && ObjectSets(o, obj, next))
    || (!Braced(line) && exists a, v :: Assigns(line, a, v) && !Blank(a) && Trim(a) !in o && next == o[Trim(a) := TrimRight(v)])
  }

  predicate Assigns(line: string, a: string, v: string) {
    line == a + "=" + v && '=' !in a
  }

  /** A text that is neither blank nor one object is read line by line. */
  ghost predicate LinesSet(lines: seq<string>, states: seq<map<string, string>>) {
    && |states| == |lines| + 1
    && forall i | 0 <= i < |lines| :: '\n' !in lines[i] && |lines[i]| < MAX_LINE && LineSets(states[i], lines[i], states[i + 1])
  }

  ghost predicate FileSets(file: string, m: map<string, string>) {
    if Blank(file) then m == map[]
    else if Braced(file) && Unmarshal(Trim(file)).Some? then ObjectSets(map[], Unmarshal(Trim(file)).value, m)
    else TextSets(map[], Trim(file), m)
  }

  ghost predicate TextSets(o: map<string, string>, text: string, m: map<string, string>) {
    exists lines, states :: LinesSet(lines, states) && text == Join(lines, "\n") && lines != [] && states[0] == o && states[|lines|] == m
  }

  // ----- Objects

  lemma {:induction false} LookupGives(obj: Object, name: string)
    requires DistinctNames(obj)
    ensures forall v :: Lookup(obj, name) == Some(v) <==> Gives(obj, name, v)
    ensures Lookup(obj, name) == None <==> forall v :: !Gives(obj, name, v)
  {
    if obj != [] {
      var rest := obj[1..];
      LookupGives(rest, name);
      assert obj == [obj[0]] + rest;
      assert forall i | 0 <= i < |rest| :: rest[i] == obj[i + 1] && rest[i].0 != obj[0].0;
    }
  }

  lemma UnmarshalIsDistinct(s: string)
    requires Unmarshal(s).Some?
    ensures DistinctNames(Unmarshal(s).value)
  {
    var before, inside, ms, after := ObjectIsSpelled(s);
    NamesAreDistinct([], ms);
  }

  lemma {:induction false} SetAllSets(o: map<string, string>, pairs: Object)
    ensures var r := SetAll(o, pairs);
            && (r.ok ==> PairsSet(o, pairs, r.outputs))
            && forall next | PairsSet(o, pairs, next) :: r == Setting(true, next)
    decreases |pairs|
  {
    if pairs == [] {
      forall next | PairsSet(o, pairs, next)
        ensures next == o
      {
        assert next.Keys == o.Keys;
      }
    } else {
      var name, value, rest := pairs[0].0, pairs[0].1, pairs[1..];
      var key := Trim(name);
      TrimBlank(name);
      if key != "" && key !in o {
        SetAllSets(o[key := value], rest);
        if SetAll(o[key := value], rest).ok {
          PairsCons(o, name, value, rest, SetAll(o[key := value], rest).outputs);
        }
        forall next | PairsSet(o, pairs, next)
          ensures PairsSet(o[key := value], rest, next)
        {
          PairsTail(o, pairs, next);
        }
        assert pairs == [(name, value)] + rest;
      } else {
        assert Blank(pairs[0].0) || Trim(pairs[0].0) in o;
        assert forall next :: !PairsSet(o, pairs, next);
      }
    }
  }

  lemma PairsCons(o: map<string, string>, name: string, value: string, rest: Object, next: map<string, string>)
    requires !Blank(name) && Trim(name) !in o && PairsSet(o[Trim(name) := value], rest, next)
    ensures PairsSet(o, [(name, value)] + rest, next)
  {
    hide Trim, Blank;
    var pairs, more := [(name, value)] + rest, o[Trim(name) := value];
    assert Trim(name) in more && more[Trim(name)] == value;
    forall i, j | 0 <= i < j < |pairs|
      ensures Trim(pairs[i].0) != Trim(pairs[j].0)
    {
      assert Trim(rest[j - 1].0) !in more;
      if i > 0 { assert Trim(rest[i - 1].0) != Trim(rest[j - 1].0); }
    }
    forall i | 0 <= i < |pairs|
      ensures !Blank(pairs[i].0) && Trim(pairs[i].0) !in o && Trim(pairs[i].0) in next && next[Trim(pairs[i].0)] == pairs[i].1
    {
      if i > 0 { assert pairs[i] == rest[i - 1]; }
    }
    forall k | k in next && k !in o
      ensures exists i :: 0 <= i < |pairs| && Trim(pairs[i].0) == k
    {
      if k == Trim(name) {
        assert Trim(pairs[0].0) == k;
      } else {
        var i :| 0 <= i < |rest| && Trim(rest[i].0) == k;
        assert Trim(pairs[i + 1].0) == k;
      }
    }
    forall k | k in o
      ensures k in next && next[k] == o[k]
    {
      assert k in more && more[k] == o[k];
    }
  }

  lemma PairsTail(o: map<string, string>, pairs: Object, next: map<string, string>)
    requires pairs != [] && PairsSet(o, pairs, next)
    ensures PairsSet(o[Trim(pairs[0].0) := pairs[0].1], pairs[1..], next)
  {
    hide Trim, Blank;
    var rest, more := pairs[1..], o[Trim(pairs[0].0) := pairs[0].1];
    forall k | k in next && k !in more
      ensures exists i :: 0 <= i < |rest| && Trim(rest[i].0) == k
    {
      var i :| 0 <= i < |pairs| && Trim(pairs[i].0) == k;
      assert i > 0 && Trim(rest[i - 1].0) == k;
    }
    forall i | 0 <= i < |rest|
      ensures !Blank(rest[i].0) && Trim(rest[i].0) !in more && Trim(rest[i].0) in next && next[Trim(rest[i].0)] == rest[i].1
    {
      assert rest[i] == pairs[i + 1] && Trim(pairs[0].0) != Trim(pairs[i + 1].0);
    }
    forall i, j | 0 <= i < j < |rest|
      ensures Trim(rest[i].0) != Trim(rest[j].0)
    {
      assert rest[i] == pairs[i + 1] && rest[j] == pairs[j + 1];
    }
  }

  /** What the runner makes of an object. */
  lemma ObjectReads(o: map<string, string>, obj: Object)
    requires DistinctNames(obj)
    ensures var r := SetAll(o, Pairs(obj));
            && (r.ok ==> ObjectSets(o, obj, r.outputs))
            && forall next | ObjectSets(o, obj, next) :: r == Setting(true, next)
  {
    LookupGives(obj, "key");
    LookupGives(obj, "value");
    SetAllSets(o, Pairs(obj));
    hide PairsSet, Lookup, SetAll, Gives;
    var key := Lookup(obj, "key");
    if key.Some? {
      var value := if Lookup(obj, "value").Some? then Lookup(obj, "value").value else "";
      assert Gives(obj, "key", key.value) && ValueIn(obj, value) && Pairs(obj) == [(key.value, value)];
      forall next
        ensures ObjectSets(o, obj, next) <==> PairsSet(o, Pairs(obj), next)
      {}
    }
  }

  // ----- Lines

  lemma TrimStarts(line: string)
    ensures Trim(line) == "" <==> Blank(line)
    ensures !Blank(line) ==> TrimLeft(line) != "" && Trim(line)[0] == TrimLeft(line)[0]
  {
    TrimBlank(line);
    TrimRightCut(TrimLeft(line));
  }

  lemma {:induction false} TrimLeftAppend(a: string, b: string)
    requires !Blank(a)
    ensures TrimLeft(a + b) == TrimLeft(a) + b
  {
    if IsSpace(a[0]) {
      assert (a + b)[1..] == a[1..] + b;
      TrimLeftAppend(a[1..], b);
    }
  }

  lemma {:induction false} TrimLeftBlank(a: string, b: string)
    requires Blank(a)
    ensures TrimLeft(a + b) == TrimLeft(b)
  {
    if a == "" {
      assert a + b == b;
    } else {
      assert (a + b)[1..] == a[1..] + b;
      TrimLeftBlank(a[1..], b);
    }
  }

  /** An assignment, trimmed. */
  lemma TrimAssignment(a: string, v: string)
    requires '=' !in a
    ensures var line := Trim(a + "=" + v);
            && line == TrimLeft(a) + "=" + TrimRight(v) && CutAt(line) == |TrimLeft(a)|
            && Trim(line[..|TrimLeft(a)|]) == Trim(a)
            && line[|TrimLeft(a)| + 1..] == TrimRight(v)
  {
    var head, value := TrimLeft(a), TrimRight(v);
    HeadOfAssignment(a, v);
    TrimLeftCut(a);
    assert '=' !in head;
    TrimOfHead(a);
    hide TrimLeft, TrimRight;
    PlainTrims(head, v);
    CutAtEquals(head, value);
    var line := head + "=" + value;
    assert line[..|head|] == head && line[|head| + 1..] == value;
  }

  lemma HeadOfAssignment(a: string, v: string)
    ensures TrimLeft(a + "=" + v) == TrimLeft(a) + "=" + v
  {
    assert a + "=" + v == a + ("=" + v);
    if Blank(a) {
      TrimLeftBlank(a, "=" + v);
      BlankHead(a);
      assert "" + "=" + v == "=" + v;
    } else {
      TrimLeftAppend(a, "=" + v);
      assert TrimLeft(a) + "=" + v == TrimLeft(a) + ("=" + v);
    }
  }

  lemma BlankHead(a: string)
    requires Blank(a)
    ensures TrimLeft(a) == ""
  {
    TrimLeftBlank(a, "");
    assert a + "" == a;
  }

  lemma TrimOfHead(a: string)
    ensures Trim(TrimLeft(a)) == Trim(a)
  {
    TrimLeftCut(a);
    var head := TrimLeft(a);
    if head != "" { assert TrimLeft(head) == head; }
  }

  lemma {:induction false} FirstEquals(line: string) returns (a: string, v: string)
    requires '=' in line
    ensures Assigns(line, a, v)
  {
    if line[0] == '=' {
      a, v := "", line[1..];
      assert line == "" + "=" + v;
    } else {
      a, v := FirstEquals(line[1..]);
      assert line == [line[0]] + line[1..];
      a := [line[0]] + a;
    }
  }

  /** Where the first equals sign is. */
  lemma {:induction false} OneAssignment(a: string, v: string, b: string, u: string)
    requires a + "=" + v == b + "=" + u && '=' !in a && '=' !in b
    ensures a == b && v == u
  {
    CutAtEquals(a, v);
    CutAtEquals(b, u);
    var line := a + "=" + v;
    assert a == line[..|a|] && v == line[|a| + 1..];
    assert b == line[..|b|] && u == line[|b| + 1..];
  }

  lemma AssignmentReads(o: map<string, string>, line: string, a: string, v: string)
    requires Assigns(line, a, v) && !Braced(line)
    ensures LineResult(o, line) ==
              if Blank(a) || Trim(a) in o then Setting(false, o) else Setting(true, o[Trim(a) := TrimRight(v)])
  {
    TrimAssignment(a, v);
    TrimStarts(line);
    TrimStarts(a);
    assert line[|a|] == '=' && !IsSpace(line[|a|]);
  }

  lemma PlainLineReads(o: map<string, string>, line: string)
    requires !Blank(line) && !Braced(line)
    ensures var r := LineResult(o, line);
            && (r.ok ==> LineSets(o, line, r.outputs))
            && forall next | LineSets(o, line, next) :: r == Setting(true, next)
  {
    if '=' in line {
      var a, v := FirstEquals(line);
      AssignmentReads(o, line, a, v);
      forall next | LineSets(o, line, next)
        ensures LineResult(o, line) == Setting(true, next)
      {
        var b, u :| Assigns(line, b, u) && !Blank(b) && Trim(b) !in o && next == o[Trim(b) := TrimRight(u)];
        OneAssignment(a, v, b, u);
      }
    } else {
      TrimWithin(line, '=');
      NoCut(Trim(line));
      TrimStarts(line);
      NoAssignment(line);
    }
  }

  lemma NoAssignment(line: string)
    requires '=' !in line
    ensures forall a, v :: !Assigns(line, a, v)
  {
    forall a, v
      ensures !Assigns(line, a, v)
    {
      assert (a + "=" + v)[|a|] == '=';
    }
  }

  lemma BracedLineReads(o: map<string, string>, line: string)
    requires Braced(line)
    ensures var r := LineResult(o, line);
            && (r.ok ==> LineSets(o, line, r.outputs))
            && forall next | LineSets(o, line, next) :: r == Setting(true, next)
  {
    hide Unmarshal, SetAll, Pairs, ObjectSets;
    TrimStarts(line);
    NotBlankIfBraced(line);
    if Unmarshal(Trim(line)).Some? {
      UnmarshalIsDistinct(Trim(line));
      ObjectReads(o, Unmarshal(Trim(line)).value);
    }
  }

  lemma NotBlankIfBraced(line: string)
    requires Braced(line)
    ensures !Blank(line)
  {
    if Blank(line) { BlankHead(line); }
  }

  lemma LineReads(o: map<string, string>, line: string)
    ensures var r := LineResult(o, line);
            && (r.ok ==> LineSets(o, line, r.outputs))
            && forall next | LineSets(o, line, next) :: r == Setting(true, next)
  {
    if Braced(line) {
      BracedLineReads(o, line);
    } else if Blank(line) {
      TrimStarts(line);
      NothingAssigned(line);
    } else {
      PlainLineReads(o, line);
    }
  }

  lemma NothingAssigned(line: string)
    requires Blank(line)
    ensures forall a, v :: !Assigns(line, a, v)
  {
    forall a, v
      ensures !Assigns(line, a, v)
    {
      assert (a + "=" + v)[|a|] == '=';
    }
  }

  // ----- Files

  /** A carriage return at the end of a line does not matter. */
  lemma CarriageReturn(o: map<string, string>, line: string)
    ensures LineResult(o, DropCR(line)) == LineResult(o, line)
  {
    var short := DropCR(line);
    if short != line {
      assert line == short + "\r";
      TrimSpaceEnd(short, "\r");
    }
  }

  lemma TrimSpaceEnd(s: string, w: string)
    requires Blank(w)
    ensures Trim(s + w) == Trim(s)
  {
    if Blank(s) {
      TrimBlank(s);
      TrimBlank(s + w);
    } else {
      TrimLeftAppend(s, w);
      TrimRightIgnoresBlank(TrimLeft(s), w);
    }
  }

  lemma OneLineReads(o: map<string, string>, line: string)
    requires '\n' !in line && line != ""
    ensures ScanResult(o, line) == if |line| < MAX_LINE && LineResult(o, line).ok then Some(LineResult(o, line).outputs) else None
  {
    LineEndNone(line);
    FirstLine(o, line);
    assert line[..|line|] == line;
    CarriageReturn(o, line);
    EmptyText(LineResult(o, line).outputs);
  }

  lemma EmptyLineReads(o: map<string, string>)
    ensures ScanResult(o, "") == Some(o) && LineResult(o, "") == Setting(true, o)
  {}

  /** A text is what its lines are joined to. */
  lemma {:induction false} SplitLines(text: string) returns (lines: seq<string>)
    ensures lines != [] && Join(lines, "\n") == text && forall line | line in lines :: '\n' !in line
    decreases |text|
  {
    var n := LineEnd(text);
    LineEndCut(text);
    if n == |text| {
      lines := [text];
      assert text[..n] == text;
    } else {
      var rest := SplitLines(text[n + 1..]);
      lines := [text[..n]] + rest;
      assert lines[1..] == rest;
      assert text == text[..n] + "\n" + text[n + 1..];
    }
  }

  lemma {:induction false} LinesRead(o: map<string, string>, lines: seq<string>) returns (states: seq<map<string, string>>)
    requires lines != [] && forall line | line in lines :: '\n' !in line
    ensures var r := ScanResult(o, Join(lines, "\n"));
            && (r.Some? ==> LinesSet(lines, states) && states[0] == o && states[|lines|] == r.value)
            && forall more | LinesSet(lines, more) && more[0] == o :: r == Some(more[|lines|])
    decreases |lines|
  {
    hide ScanResult, LineResult, LineSets;
    var line, rest := lines[0], lines[1..];
    assert line in lines;
    LineReads(o, line);
    EmptyLineReads(o);
    if line != "" { OneLineReads(o, line); }
    var r := LineResult(o, line);
    states := [o];
    if rest == [] {
      states := [o, r.outputs];
    } else {
      ReadInParts(o, line, Join(rest, "\n"));
      assert forall x | x in rest :: x in lines;
      if r.ok && |line| < MAX_LINE {
        var later := LinesRead(r.outputs, rest);
        states := [o] + later;
        LinesCons(o, r.outputs, line, rest, later);
        forall more | LinesSet(lines, more) && more[0] == o
          ensures ScanResult(o, Join(lines, "\n")) == Some(more[|lines|])
        {
          LinesTail(lines, more);
          assert r == Setting(true, more[1]);
        }
      }
    }
  }

  lemma LinesCons(o: map<string, string>, next: map<string, string>, line: string, rest: seq<string>, later: seq<map<string, string>>)
    requires '\n' !in line && |line| < MAX_LINE && LineSets(o, line, next)
    ensures LinesSet(rest, later) && later[0] == next ==> LinesSet([line] + rest, [o] + later)
  {
    hide LineSets;
    var lines, states := [line] + rest, [o] + later;
    if LinesSet(rest, later) && later[0] == next {
      forall i | 0 <= i < |lines|
        ensures '\n' !in lines[i] && |lines[i]| < MAX_LINE && LineSets(states[i], lines[i], states[i + 1])
      {
        if i > 0 { assert lines[i] == rest[i - 1] && states[i] == later[i - 1] && states[i + 1] == later[i - 1 + 1]; }
      }
    }
  }

  lemma LinesTail(lines: seq<string>, more: seq<map<string, string>>)
    requires LinesSet(lines, more) && lines != []
    ensures LinesSet(lines[1..], more[1..]) && LineSets(more[0], lines[0], more[1])
  {
    hide LineSets;
    var rest, later := lines[1..], more[1..];
    forall i | 0 <= i < |rest|
      ensures '\n' !in rest[i] && |rest[i]| < MAX_LINE && LineSets(later[i], rest[i], later[i + 1])
    {
      assert rest[i] == lines[i + 1] && later[i] == more[i + 1] && later[i + 1] == more[i + 1 + 1];
    }
  }

  lemma TextReads(o: map<string, string>, text: string)
    ensures forall m :: ScanResult(o, text) == Some(m) <==> TextSets(o, text, m)
  {
    hide ScanResult, LineSets;
    var lines := SplitLines(text);
    var states := LinesRead(o, lines);
    forall m
      ensures ScanResult(o, text) == Some(m) <==> TextSets(o, text, m)
    {
      if TextSets(o, text, m) {
        var parts, more :| LinesSet(parts, more) && text == Join(parts, "\n") && parts != [] && more[0] == o && more[|parts|] == m;
        NoBreaks(parts, more);
        var _ := LinesRead(o, parts);
      }
    }
  }

  lemma NoBreaks(lines: seq<string>, states: seq<map<string, string>>)
    requires LinesSet(lines, states)
    ensures forall line | line in lines :: '\n' !in line
  {}

  /** What a file says: nothing if it is blank; what the object sets if it is a single one; and
      otherwise what its lines set one after the other, each of them short enough. */
  lemma FileReads(file: string)
    ensures forall m :: FileResult(file) == Some(m) <==> FileSets(file, m)
  {
    hide ScanResult, Unmarshal, SetAll, Pairs, ObjectSets, TextSets;
    TrimStarts(file);
    if !Blank(file) {
      TextReads(map[], Trim(file));
      if Braced(file) && Unmarshal(Trim(file)).Some? {
        UnmarshalIsDistinct(Trim(file));
        ObjectReads(map[], Unmarshal(Trim(file)).value);
      }
    }
  }
}
