/** The output-file protocol for everything a step can write: which records the runner
    does not get back. */
module OutputLosses {
  import opened Text
  import opened LineScanner
  import opened Json
  import opened OutputFile
  import opened OutputRoundTrip

  // ----- Reading a text in parts

  /** A text is read by its first line and then the rest. */
  lemma {:induction false} FirstLine(o: map<string, string>, s: string)
    requires s != ""
    ensures var n := LineEnd(s);
            var r := LineResult(o, DropCR(s[..n]));
            ScanResult(o, s) == if n < MAX_LINE && r.ok then ScanResult(r.outputs, if n == |s| then "" else s[n + 1..]) else None
  {
    hide LineResult, DropCR;
    var n := LineEnd(s);
    if n < MAX_LINE {
      var line, rest := DropCR(s[..n]), ScanLines(if n == |s| then "" else s[n + 1..], MAX_LINE);
      assert ([line] + rest.lines)[0] == line && ([line] + rest.lines)[1..] == rest.lines;
    }
  }

  lemma LineEndOfPart(a: string, rest: string)
    ensures LineEnd(a + "\n" + rest) == LineEnd(a)
  {
    LineEndCut(a);
    var n := LineEnd(a);
    LineEndAt(a[..n], if n == |a| then rest else a[n + 1..] + "\n" + rest);
    assert a + "\n" + rest == a[..n] + "\n" + (if n == |a| then rest else a[n + 1..] + "\n" + rest);
  }

  /** Lines put together are read one part after the other. */
  lemma {:induction false} ReadInParts(o: map<string, string>, a: string, rest: string)
    ensures ScanResult(o, a + "\n" + rest) == if ScanResult(o, a).Some? then ScanResult(ScanResult(o, a).value, rest) else None
    decreases |a|
  {
    hide LineResult, DropCR, ScanResult;
    var s, n := a + "\n" + rest, LineEnd(a);
    LineEndOfPart(a, rest);
    FirstLine(o, s);
    assert s[..n] == a[..n];
    EmptyText(o);
    if a == "" {
      BlankLine(o);
      assert s[n + 1..] == rest;
    } else {
      FirstLine(o, a);
      var r := LineResult(o, DropCR(a[..n]));
      EmptyText(r.outputs);
      if n == |a| {
        assert s[n + 1..] == rest;
      } else {
        assert s[n + 1..] == a[n + 1..] + "\n" + rest;
        ReadInParts(r.outputs, a[n + 1..], rest);
      }
    }
  }

  lemma EmptyText(o: map<string, string>)
    ensures ScanResult(o, "") == Some(o)
  {}

  lemma BlankLine(o: map<string, string>)
    ensures LineResult(o, DropCR("")) == Setting(true, o)
  {}

  // ----- What lines add

  predicate Within(a: map<string, string>, b: map<string, string>) {
    forall k | k in a :: k in b && a[k] == b[k]
  }

  lemma {:induction false} SizeWithin(a: map<string, string>, b: map<string, string>)
    requires Within(a, b)
    ensures |a| <= |b| && (|a| == |b| ==> a == b)
  {
    assert a.Keys <= b.Keys;
    Subset(a.Keys, b.Keys);
    if |a.Keys| == |b.Keys| {
      assert forall k | k in b :: k in b.Keys;
    }
  }

  lemma Subset(a: set<string>, b: set<string>)
    requires a <= b
    ensures |a| <= |b| && (|a| == |b| ==> a == b)
  {
    assert b == a + (b - a);
    assert a !! (b - a);
    if |a| == |b| {
      assert |b - a| == 0;
    }
  }

  lemma AddsKey(o: map<string, string>, k: string, v: string)
    requires k !in o
    ensures Within(o, o[k := v]) && |o[k := v]| == |o| + 1
  {
    assert o[k := v].Keys == o.Keys + {k};
  }

  lemma {:induction false} SettingAdds(o: map<string, string>, pairs: Object)
    requires SetAll(o, pairs).ok
    ensures Within(o, SetAll(o, pairs).outputs) && |SetAll(o, pairs).outputs| == |o| + |pairs|
    decreases |pairs|
  {
    if pairs != [] {
      var key := Trim(pairs[0].0);
      AddsKey(o, key, pairs[0].1);
      SettingAdds(o[key := pairs[0].1], pairs[1..]);
    }
  }

  lemma {:induction false} SkipKeeps(s: string)
    ensures '=' in s ==> '=' in SkipSpace(s)
  {
    if s != "" && IsJsonSpace(s[0]) {
      SkipKeeps(s[1..]);
      assert s == [s[0]] + s[1..];
    }
  }

  lemma ExpectKeeps(s: string, c: char)
    requires c != '=' && Expect(s, c).Some?
    ensures '=' in s ==> '=' in Expect(s, c).value
  {
    SkipKeeps(s);
    var t := SkipSpace(s);
    assert t == [t[0]] + t[1..];
  }

  lemma {:induction false} MembersNotEmpty(s: string, acc: Object)
    ensures ReadMembers(s, acc).Some? ==> ReadMembers(s, acc).value.value != []
    decreases |s|
  {
    var m := ReadMember(s);
    if m.Some? {
      var obj := Override(acc, m.value.value.0, m.value.value.1);
      var t := Expect(m.value.rest, ',');
      if t.Some? {
        MembersNotEmpty(t.value, obj);
      }
    }
  }

  /** An object with an equals sign in its text has members. */
  lemma ObjectWithEquals(s: string)
    requires '=' in s && Unmarshal(s).Some?
    ensures Unmarshal(s).value != []
  {
    hide ReadMembers;
    var t := Expect(s, '{').value;
    ExpectKeeps(s, '{');
    MembersNotEmpty(t, []);
    if Expect(t, '}').Some? {
      ExpectKeeps(t, '}');
      SkipKeeps(Expect(t, '}').value);
    }
  }

  /** A line that can be read adds to the outputs; one with an equals sign adds at least
      one. */
  lemma LineAdds(o: map<string, string>, scanned: string)
    requires LineResult(o, scanned).ok
    ensures var next := LineResult(o, scanned).outputs;
            Within(o, next) && |next| >= |o| + if '=' in Trim(scanned) then 1 else 0
  {
    hide SetAll, Unmarshal, CutAt;
    var line := Trim(scanned);
    if line != "" {
      if line[0] == '{' {
        var obj := Unmarshal(line).value;
        SettingAdds(o, Pairs(obj));
        if '=' in line {
          ObjectWithEquals(line);
        }
      } else {
        var n := CutAt(line);
        AddsKey(o, Trim(line[..n]), line[n + 1..]);
      }
    }
  }

  lemma {:induction false} TrimRightKeeps(s: string)
    ensures '=' in s ==> '=' in TrimRight(s)
  {
    if s != "" && IsSpace(s[|s| - 1]) {
      TrimRightKeeps(s[..|s| - 1]);
      assert s == s[..|s| - 1] + [s[|s| - 1]];
    }
  }

  lemma {:induction false} TrimLeftKeeps(s: string)
    ensures '=' in s ==> '=' in TrimLeft(s)
  {
    if s != "" && IsSpace(s[0]) {
      TrimLeftKeeps(s[1..]);
      assert s == [s[0]] + s[1..];
    }
  }

  lemma EqualsSurvives(s: string)
    requires '=' in s
    ensures '=' in Trim(DropCR(s))
  {
    assert s == s[..|s| - 1] + [s[|s| - 1]];
    TrimLeftKeeps(DropCR(s));
    TrimRightKeeps(TrimLeft(DropCR(s)));
  }

  /** A text that can be read adds to the outputs; one with an equals sign anywhere adds
      at least one. */
  lemma {:induction false} TextAdds(o: map<string, string>, s: string)
    requires ScanResult(o, s).Some?
    ensures var next := ScanResult(o, s).value;
            Within(o, next) && |next| >= |o| + if '=' in s then 1 else 0
    decreases |s|
  {
    hide LineResult, ScanResult, DropCR, Trim;
    if s == "" {
      EmptyText(o);
    } else {
      var n := LineEnd(s);
      var line, rest := s[..n], if n == |s| then "" else s[n + 1..];
      FirstLine(o, s);
      LineAdds(o, DropCR(line));
      TextAdds(LineResult(o, DropCR(line)).outputs, rest);
      LineEndCut(s);
      if '=' in s && '=' !in rest {
        assert s == line + (if n == |s| then "" else [s[n]] + rest);
        EqualsSurvives(line);
      }
    }
  }

  // ----- What one record sets

  /** A record sets exactly one output, k to x. Only a carried plain record, and an object
      other than a member named "key", sets its own key to its own value. */
  predicate Sets(r: Record, k: string, x: string) {
    match r
    case Plain(key, value) => '\n' !in key && PlainSets(key, value, k, x)
    case Pair(key, value) => k == key && x == value
    case Member(key, value) => if key == "key" then k == Trim(value) && x == "" else k == key && x == value
  }

  /** A plain line is cut at its first equals sign, and its value ends at a line break. */
  predicate PlainSets(key: string, value: string, k: string, x: string) {
    if '=' in key then '=' !in k && k == Trim(key[..CutAt(key)]) && (value == "" ==> |x| <= |key| - |k|)
    else k == key && '\n' !in x
  }

  lemma {:induction false} CutIsFirst(key: string, rest: string)
    requires '=' in key
    ensures CutAt(key + rest) == CutAt(key) < |key| && '=' !in key[..CutAt(key)]
  {
    if key[0] != '=' {
      assert (key + rest)[1..] == key[1..] + rest;
      assert key == [key[0]] + key[1..];
      CutIsFirst(key[1..], rest);
      var c := CutAt(key);
      assert key[..c] == [key[0]] + key[1..][..c - 1];
    }
  }

  lemma {:induction false} LineEndAfter(a: string, v: string)
    requires '\n' !in a
    ensures LineEnd(a + v) == |a| + LineEnd(v)
  {
    if a == "" {
      assert a + v == v;
    } else {
      assert (a + v)[1..] == a[1..] + v;
      LineEndAfter(a[1..], v);
    }
  }

  /** A line that is neither blank nor an object sets one output. */
  lemma PlainLineSets(o: map<string, string>, scanned: string)
    requires Trim(scanned) != "" && Trim(scanned)[0] != '{' && LineResult(o, scanned).ok
    ensures var line := Trim(scanned);
            var n := CutAt(line);
            n < |line| && Trim(line[..n]) !in o && LineResult(o, scanned).outputs == o[Trim(line[..n]) := line[n + 1..]]
  {}

  predicate PlainKey(key: string) {
    key != "" && Trimmed(key) && key[0] != '{'
  }

  /** A line that is not blank and no object adds to the outputs. */
  lemma HeadLineAdds(o: map<string, string>, line: string)
    requires line != "" && !IsSpace(line[0]) && line[0] != '{' && LineResult(o, DropCR(line)).ok
    ensures Within(o, LineResult(o, DropCR(line)).outputs) && |LineResult(o, DropCR(line)).outputs| == |o| + 1
  {
    hide LineResult, Trim;
    TrimScanned(line);
    TrimRightKeepsHead(line);
    TrimRightCut(line);
    PlainLineSets(o, DropCR(line));
    var t := Trim(DropCR(line));
    AddsKey(o, Trim(t[..CutAt(t)]), t[CutAt(t) + 1..]);
  }

  /** A key with a line break makes a text that sets two outputs, if it can be read. */
  lemma BrokenKey(o: map<string, string>, key: string, v: string)
    requires PlainKey(key) && '\n' in key && ScanResult(o, key + "=" + v).Some?
    ensures Within(o, ScanResult(o, key + "=" + v).value) && |ScanResult(o, key + "=" + v).value| >= |o| + 2
  {
    hide LineResult, ScanResult, DropCR, Within, LineEnd;
    LineEndCut(key);
    var n := LineEnd(key);
    assert key[..|key|] == key;
    var head, tail := key[..n], key[n + 1..] + "=" + v;
    assert key[n..] == "\n" + key[n + 1..] && key == head + key[n..];
    assert key + "=" + v == head + "\n" + tail;
    LineEndAt(head, tail);
    FirstLine(o, head + "\n" + tail);
    assert (head + "\n" + tail)[..n] == head && (head + "\n" + tail)[n + 1..] == tail;
    HeadLineAdds(o, head);
    var next := LineResult(o, DropCR(head)).outputs;
    TextAdds(next, tail);
    WithinTwice(o, next, ScanResult(next, tail).value);
  }

  /** The first line of a plain record whose key has no line break. */
  lemma PlainFirstLine(key: string, v: string) returns (w: string)
    requires PlainKey(key) && '\n' !in key
    ensures var s := key + "=" + v;
            var n := LineEnd(s);
            n == |key| + 1 + LineEnd(v) && Trim(DropCR(s[..n])) == key + "=" + w
    ensures '\n' !in w && (v == "" ==> w == "")
  {
    var s, m := key + "=" + v, LineEnd(v);
    LineEndAfter(key + "=", v);
    LineEndCut(v);
    var n := LineEnd(s);
    assert s[..n] == key + "=" + v[..m];
    w := TrimRight(v[..m]);
    TrimRightCut(v[..m]);
    assert s[..n] != "" && s[..n][0] == key[0];
    TrimScanned(s[..n]);
    PlainTrims(key, v[..m]);
  }

  /** What the first line sets. */
  lemma CutSets(key: string, value: string, v: string, w: string)
    requires PlainKey(key) && '\n' !in w && (value == "" ==> w == "")
    ensures var line := key + "=" + w;
            var n := CutAt(line);
            n < |line| && PlainSets(key, value, Trim(line[..n]), line[n + 1..])
  {
    hide Trim;
    var line := key + "=" + w;
    var n := CutAt(line);
    if '=' in key {
      CutIsFirst(key, "=" + w);
      assert line == key + ("=" + w) && line[..n] == key[..n];
      TrimIsShorter(key[..n]);
      TrimWithin(key[..n], '=');
    } else {
      CutAtEquals(key, w);
      assert line[..n] == key && line[n + 1..] == w;
      TrimOfTrimmed(key);
    }
  }

  lemma PlainRecord(o: map<string, string>, key: string, value: string, v: string) returns (k: string, x: string)
    requires PlainKey(key) && ScanResult(o, key + "=" + v).Some? && (value == "" ==> v == "")
    ensures var out := ScanResult(o, key + "=" + v).value;
            && Within(o, out) && |out| > |o|
            && (|out| == |o| + 1 ==> Sets(Plain(key, value), k, x) && k !in o && out == o[k := x])
  {
    hide LineResult, ScanResult, Trim, Trimmed, PlainSets;
    if '\n' in key {
      BrokenKey(o, key, v);
      k, x := "", "";
    } else {
      var s := key + "=" + v;
      var n := LineEnd(s);
      var w := PlainFirstLine(key, v);
      FirstLine(o, s);
      var line := key + "=" + w;
      assert line[0] == key[0];
      PlainLineSets(o, DropCR(s[..n]));
      CutSets(key, value, v, w);
      k, x := Trim(line[..CutAt(line)]), line[CutAt(line) + 1..];
      AddsKey(o, k, x);
      var rest := if n == |s| then "" else s[n + 1..];
      TextAdds(o[k := x], rest);
      SizeWithin(o[k := x], ScanResult(o, s).value);
      WithinTwice(o, o[k := x], ScanResult(o, s).value);
    }
  }

  lemma WithinTwice(a: map<string, string>, b: map<string, string>, c: map<string, string>)
    requires Within(a, b) && Within(b, c)
    ensures Within(a, c)
  {}

  lemma {:induction false} PairsSet(r: Record) returns (k: string, x: string)
    requires !r.Plain? && WrittenKey(r)
    ensures Unmarshal(LineOf(r)).Some? && Sets(r, Trim(k), x) && Pairs(Unmarshal(LineOf(r)).value) == [(k, x)]
  {
    hide ReadObject;
    if Carried(r) {
      PairsOfRecord(r);
      TrimOfTrimmed(r.key);
      k, x := r.key, r.value;
    } else {
      Object1RoundTrip("key", r.value);
      LookupOnly("key", r.value, "value");
      k, x := r.value, "";
    }
  }

  lemma ObjectLine(o: map<string, string>, line: string, k: string, x: string)
    requires Trimmed(line) && line != "" && line[0] == '{' && line[|line| - 1] == '}'
    requires Unmarshal(line).Some? && Pairs(Unmarshal(line).value) == [(k, x)]
    ensures LineResult(o, DropCR(line)) ==
              if Trim(k) == "" || Trim(k) in o then Setting(false, o) else Setting(true, o[Trim(k) := x])
  {
    hide Unmarshal, Pairs, Trim;
    TrimOfTrimmed(line);
    var pairs := [(k, x)];
    assert pairs[1..] == [];
    assert SetAll(o, pairs) == if Trim(k) == "" || Trim(k) in o then Setting(false, o) else Setting(true, o[Trim(k) := x]);
    assert DropCR(line) == line;
  }

  lemma ObjectEnds(r: Record)
    requires !r.Plain?
    ensures LineOf(r) != "" && LineOf(r)[|LineOf(r)| - 1] == '}'
  {}

  lemma ObjectRecord(o: map<string, string>, r: Record) returns (k: string, x: string)
    requires !r.Plain? && WrittenKey(r) && ScanResult(o, LineOf(r)).Some?
    ensures var out := ScanResult(o, LineOf(r)).value;
            Within(o, out) && |out| == |o| + 1 && Sets(r, k, x) && k !in o && out == o[k := x]
  {
    hide Unmarshal, Pairs, ScanResult, Sets, LineResult, SetAll, LineOf, DropCR;
    var line := LineOf(r);
    ObjectEnds(r);
    LineHasNoBreak(r);
    LineStarts(r);
    LineEndNone(line);
    FirstLine(o, line);
    assert line[..|line|] == line;
    k, x := PairsSet(r);
    ObjectLine(o, line, k, x);
    k := Trim(k);
    EmptyText(o[k := x]);
    AddsKey(o, k, x);
  }

  /** The text of a record, as it stands in the middle of a file or at its end. */
  function Part(r: Record, last: bool): string {
    if last then TrimRight(LineOf(r)) else LineOf(r)
  }

  lemma RecordSets(o: map<string, string>, r: Record, last: bool) returns (k: string, x: string)
    requires WrittenKey(r) && ScanResult(o, Part(r, last)).Some?
    ensures var out := ScanResult(o, Part(r, last)).value;
            && Within(o, out) && |out| > |o|
            && (|out| == |o| + 1 ==> Sets(r, k, x) && k !in o && out == o[k := x])
  {
    hide ScanResult, Sets;
    var line := LineOf(r);
    if r.Plain? {
      PlainTrims(r.key, r.value);
      k, x := PlainRecord(o, r.key, r.value, if last then TrimRight(r.value) else r.value);
    } else {
      assert line[|line| - 1] == '}';
      k, x := ObjectRecord(o, r);
    }
  }

  // ----- What the records of a file set

  /** Each record has set one output of out, and there are no others but those of o. */
  ghost predicate EachSets(o: map<string, string>, records: seq<Record>, ks: seq<string>, out: map<string, string>) {
    && |ks| == |records|
    && (forall i | 0 <= i < |ks| :: ks[i] in out && Sets(records[i], ks[i], out[ks[i]]))
    && (forall k | k in out :: k in o || k in ks)
  }

  /** A file that can be read sets at least one output per record; and if no more, then
      each record sets one. */
  lemma {:induction false} RecordsSet(o: map<string, string>, records: seq<Record>) returns (ks: seq<string>)
    requires records != [] && AllWritten(records) && ScanResult(o, Body(records)).Some?
    ensures var out := ScanResult(o, Body(records)).value;
            && Within(o, out) && |out| >= |o| + |records|
            && (|out| == |o| + |records| ==> EachSets(o, records, ks, out))
    decreases |records|
  {
    hide ScanResult, Sets, LineOf;
    var r := records[0];
    if |records| == 1 {
      var k, x := RecordSets(o, r, true);
      ks := [k];
    } else {
      var rest := records[1..];
      ReadInParts(o, LineOf(r), Body(rest));
      var k, x := RecordSets(o, r, false);
      var next := ScanResult(o, LineOf(r)).value;
      assert AllWritten(rest) by { assert forall i | 0 <= i < |rest| :: rest[i] == records[i + 1]; }
      var more := RecordsSet(next, rest);
      var out := ScanResult(next, Body(rest)).value;
      WithinTwice(o, next, out);
      ks := [k] + more;
      if |out| == |o| + |records| {
        FirstSets(o, records, k, x, more, out);
      }
    }
  }

  lemma FirstSets(o: map<string, string>, records: seq<Record>, k: string, x: string, more: seq<string>, out: map<string, string>)
    requires records != [] && Sets(records[0], k, x) && Within(o[k := x], out) && EachSets(o[k := x], records[1..], more, out)
    ensures EachSets(o, records, [k] + more, out)
  {
    hide Sets;
    var ks := [k] + more;
    assert k in o[k := x];
    assert forall i | 1 <= i < |ks| :: ks[i] == more[i - 1] && records[i] == records[1..][i - 1];
    forall j | j in out
      ensures j in o || j in ks
    {
      if j == k { assert ks[0] == k; }
      if j in more { assert j in ks; }
    }
  }

  // ----- Only carried records come back

  lemma {:induction false} AtMostOneEach(records: seq<Record>)
    ensures |OutputsOf(records)| <= |records|
    ensures |OutputsOf(records)| == |records| ==> Distinct(records)
    ensures forall i | 0 <= i < |records| :: records[i].key in OutputsOf(records)
    decreases |records|
  {
    if records != [] {
      var n := |records| - 1;
      var front, last, before := records[..n], records[n], OutputsOf(records[..n]);
      AtMostOneEach(front);
      assert OutputsOf(records).Keys == before.Keys + {last.key};
      assert forall i | 0 <= i < n :: records[i] == front[i];
      if last.key in before {
        assert before.Keys + {last.key} == before.Keys;
      }
    }
  }

  /** The outputs of a file are those of its records, each record having set one. */
  ghost predicate Returned(records: seq<Record>, ks: seq<string>, out: map<string, string>) {
    AllWritten(records) && EachSets(map[], records, ks, out) && HasValues(records, out) && Distinct(records)
  }

  lemma SetBySome(records: seq<Record>, ks: seq<string>, out: map<string, string>, k: string) returns (j: nat)
    requires Returned(records, ks, out) && k in out
    ensures j < |records| && Sets(records[j], k, out[k])
  {
    hide Sets, WrittenKey;
    assert k in ks;
    j :| 0 <= j < |ks| && ks[j] == k;
  }

  /** Only an object sets a key with an equals sign. */
  lemma EqualsBySomeObject(r: Record, k: string, x: string)
    requires Sets(r, k, x) && '=' in k
    ensures !r.Plain? && (r.key == k || (r == Member("key", r.value) && k == Trim(r.value) && x == ""))
  {}

  /** A plain key with an equals sign can only have been set by a member named "key". */
  lemma EqualsKeySetter(records: seq<Record>, ks: seq<string>, out: map<string, string>, i: nat) returns (j: nat)
    requires Returned(records, ks, out) && i < |records| && records[i].Plain? && '=' in records[i].key
    ensures j < |records| && records[j] == Member("key", records[j].value) && Trim(records[j].value) == records[i].key
    ensures records[i].value == ""
  {
    hide Sets, WrittenKey, Trim;
    j := SetBySome(records, ks, out, records[i].key);
    EqualsBySomeObject(records[j], records[i].key, out[records[i].key]);
  }

  /** Beside a member named "key", the output of that name has been set by a plain record
      whose own key has an equals sign. */
  lemma KeySetter(records: seq<Record>, ks: seq<string>, out: map<string, string>, j: nat) returns (i: nat)
    requires Returned(records, ks, out) && j < |records| && records[j] == Member("key", records[j].value)
    ensures i < |records| && records[i].Plain? && '=' in records[i].key && Trim(records[j].value) == records[i].key
    ensures |out["key"]| <= |records[i].key| - 3
  {
    hide WrittenKey;
    i := SetBySome(records, ks, out, "key");
    assert Trim("") == "";
    var m := EqualsKeySetter(records, ks, out, i);
    assert m == j;
  }

  lemma NoMemberKey(records: seq<Record>, ks: seq<string>, out: map<string, string>, j: nat)
    requires Returned(records, ks, out) && j < |records|
    ensures records[j] != Member("key", records[j].value)
  {
    if records[j] == Member("key", records[j].value) {
      var i := KeySetter(records, ks, out, j);
      assert out["key"] == records[j].value;
      TrimIsShorter(records[j].value);
    }
  }

  lemma OnlyCarried(records: seq<Record>, ks: seq<string>, out: map<string, string>)
    requires Returned(records, ks, out)
    ensures AllCarried(records)
  {
    forall i | 0 <= i < |records|
      ensures Carried(records[i])
    {
      var r := records[i];
      NoMemberKey(records, ks, out, i);
      assert Sets(r, ks[i], out[ks[i]]);
      if r.Plain? && '=' in r.key {
        var j := EqualsKeySetter(records, ks, out, i);
        NoMemberKey(records, ks, out, j);
      }
    }
  }

  // ----- The exact conditions

  /** The emitted outputs of a step come back exactly when every record is carried, no key
      is repeated, the lines fit and no plain value ends in white space. */
  lemma {:induction false} OutputsRoundTrip(records: seq<Record>)
    requires AllWritten(records)
    ensures FileResult(FileOf(records)) == Some(OutputsOf(records))
       <==> && AllCarried(records) && Readable(records)
            && forall i | 0 <= i < |records| :: Received(records[i]) == records[i].value
  {
    hide FileResult, FileOf, Readable, Received;
    if AllCarried(records) {
      CarriedRoundTrip(records);
    } else if FileResult(FileOf(records)) == Some(OutputsOf(records)) {
      OnlyCarriedReturn(records);
    }
  }

  lemma {:induction false} OnlyCarriedReturn(records: seq<Record>)
    requires AllWritten(records) && FileResult(FileOf(records)) == Some(OutputsOf(records))
    ensures AllCarried(records)
  {
    hide FileResult, FileOf, ScanResult, Body, Sets, Carried;
    if |records| > 1 || (|records| == 1 && records[0].Plain?) {
      ReadByLines(records);
      var ks := RecordsSet(map[], records);
      AtMostOneEach(records);
      OutputsHaveValues(records);
      OnlyCarried(records, ks, OutputsOf(records));
    } else if records != [] {
      assert records == [records[0]];
      SingleObject(records[0]);
    }
  }

  lemma SingleObject(r: Record)
    requires WrittenKey(r) && !r.Plain? && FileResult(FileOf([r])) == Some(OutputsOf([r]))
    ensures Carried(r)
  {
    hide FileResult, FileOf, Unmarshal, Pairs;
    ReadAsObject(r);
    assert OutputsOf([r]) == map[r.key := r.value] by {
      assert [r][..0] == [];
    }
    var k, x := PairsSet(r);
    assert [(k, x)][1..] == [];
    assert Trim(k) in map[r.key := r.value];
    assert Trim("") == "";
  }

  /** The outputs of a context, and the file it has written: what its step believes it
      has emitted is what the runner receives. */
  lemma ContextRoundTrip(c: Context)
    ensures c.Valid() && c.intact ==> (
              FileResult(c.file) == Some(c.outputs)
              <==> && AllCarried(c.records) && Readable(c.records)
                   && forall i | 0 <= i < |c.records| :: Received(c.records[i]) == c.records[i].value)
  {
    hide FileResult, Readable, Received;
    if c.Valid() {
      OutputsRoundTrip(c.records);
    }
  }

  /** A single plain output comes back exactly when its key has no equals sign, neither
      key nor value has a line break, the value does not end in white space, and the line
      fits. */
  lemma {:induction false} PlainRoundTrip(key: string, value: string)
    requires WrittenKey(Plain(key, value))
    ensures FileResult(FileOf([Plain(key, value)])) == Some(map[key := value])
       <==> '=' !in key && '\n' !in key && '\n' !in value && TrimRight(value) == value && |key| + 1 + |value| < MAX_LINE
  {
    hide FileResult, FileOf, TrimRight;
    var r := Plain(key, value);
    OutputsRoundTrip([r]);
    assert [r][..0] == [];
    assert OutputsOf([r]) == map[key := value];
    PlainTrims(key, value);
    assert LineOf(r) == key + "=" + value;
    assert Readable([r]) <==> |key + "=" + TrimRight(value)| < MAX_LINE;
    assert AllCarried([r]) <==> Carried(r) by { assert [r][0] == r; }
    assert Received([r][0]) == TrimRight(value);
  }

  /** A single output that is emitted comes back exactly when its value has a line break, or its
      key starts with a brace, so that it is written as an object; or when it can stand on a
      line. */
  lemma EmitRoundTrip(key: string, value: string)
    requires key != "" && Trimmed(key)
    ensures FileResult(FileOf([EmitRecord(key, value)])) == Some(map[key := value])
       <==> || '\n' in value || '\r' in value || key[0] == '{'
            || ('=' !in key && '\n' !in key && TrimRight(value) == value && |key| + 1 + |value| < MAX_LINE)
  {
    hide FileResult, FileOf, TrimRight;
    if '\n' in value || '\r' in value || key[0] == '{' {
      PairRoundTrip(key, value);
    } else {
      PlainRoundTrip(key, value);
    }
  }

  lemma PairRoundTrip(key: string, value: string)
    requires WrittenKey(Pair(key, value))
    ensures FileResult(FileOf([Pair(key, value)])) == Some(map[key := value])
  {
    hide FileResult, FileOf;
    var r := Pair(key, value);
    OutputsRoundTrip([r]);
    assert [r][..0] == [];
    assert OutputsOf([r]) == map[key := value];
    assert AllCarried([r]) && Readable([r]) by { assert [r][0] == r && Carried(r); }
    assert Received([r][0]) == value;
  }

  /** A step that only aborts: its reason comes back exactly when it has no line break and
      fits on a line. */
  lemma AbortRoundTrip(reason: string)
    requires Trimmed(reason)
    ensures FileResult(FileOf([Plain(ABORT_REASON, reason)])) == Some(map[ABORT_REASON := reason])
       <==> '\n' !in reason && |ABORT_REASON| + 1 + |reason| < MAX_LINE
  {
    hide FileResult, FileOf;
    PlainRoundTrip(ABORT_REASON, reason);
  }

  // ----- Files that cannot be read

  /** A line that can only be read as a pair, and has no equals sign. */
  predicate Bare(line: string) {
    line != "" && Trimmed(line) && line[0] != '{' && '=' !in line && '\n' !in line
  }

  lemma BareLine(o: map<string, string>, line: string, rest: string)
    requires Bare(line)
    ensures ScanResult(o, line + "\n" + rest) == None && ScanResult(o, line) == None
  {
    hide ScanResult, Trim;
    TrimOfTrimmed(line);
    assert DropCR(line) == line;
    NoCut(line);
    LineEndAt(line, rest);
    FirstLine(o, line + "\n" + rest);
    assert (line + "\n" + rest)[..|line|] == line;
    LineEndNone(line);
    FirstLine(o, line);
    assert line[..|line|] == line;
  }

  lemma {:induction false} NoCut(s: string)
    requires '=' !in s
    ensures CutAt(s) == |s|
  {
    if s != "" {
      NoCut(s[1..]);
    }
  }

  /** A key with a line break after a bare line makes its file unreadable. */
  lemma BrokenKeyIsUnreadable(first: string, second: string, value: string)
    requires Bare(first) && WrittenKey(Plain(first + "\n" + second, value))
    ensures FileResult(FileOf([Plain(first + "\n" + second, value)])) == None
  {
    hide FileResult, FileOf, ScanResult, Bare, WrittenKey;
    var key := first + "\n" + second;
    ReadByLines([Plain(key, value)]);
    PlainTrims(key, value);
    assert Body([Plain(key, value)]) == first + "\n" + (second + "=" + TrimRight(value));
    BareLine(map[], first, second + "=" + TrimRight(value));
  }

  /** So does an abort reason with a line break before a bare line. */
  lemma AbortOverLinesIsUnreadable(first: string, second: string)
    requires Bare(second)
    ensures FileResult(FileOf([Plain(ABORT_REASON, first + "\n" + second)])) == None
  {
    hide FileResult, FileOf, ScanResult;
    var reason := first + "\n" + second;
    ReadByLines([Plain(ABORT_REASON, reason)]);
    PlainTrims(ABORT_REASON, reason);
    assert reason[|reason| - 1] == second[|second| - 1];
    var line := ABORT_REASON + "=" + first;
    assert Body([Plain(ABORT_REASON, reason)]) == line + "\n" + second;
    ReadInParts(map[], line, second);
    if ScanResult(map[], line).Some? {
      BareLine(ScanResult(map[], line).value, second, "");
    }
  }

  /** Two such outputs, and an abort reason after a blank one, which repeats its key. */
  lemma UnreadableExamples()
    ensures FileResult(FileOf([Plain("a\nb", "v")])) == None
    ensures FileResult(FileOf([Plain(ABORT_REASON, "host asleep\nretry later")])) == None
    ensures FileResult(FileOf([Plain(ABORT_REASON, ""), Plain(ABORT_REASON, "x")])) == None
  {
    hide FileResult, FileOf;
    var twice := [Plain(ABORT_REASON, ""), Plain(ABORT_REASON, "x")];
    assert twice[1..] == [Plain(ABORT_REASON, "x")];
    FileIsRead(twice);
    BrokenKeyIsUnreadable("a", "b", "v") by {
      assert WrittenKey(Plain("a\nb", "v")) && "a\nb" == "a" + "\n" + "b";
    }
    assert "a\nb" == "a" + "\n" + "b";
    AbortOverLinesIsUnreadable("host asleep", "retry later");
    assert "host asleep\nretry later" == "host asleep" + "\n" + "retry later";
  }
}
