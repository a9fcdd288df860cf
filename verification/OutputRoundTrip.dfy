/** The output-file protocol as a whole: what the runner reads is what the step has
    emitted. */
module OutputRoundTrip {
  import opened Text
  import opened LineScanner
  import opened Json
  import opened OutputFile

  /** Keys and values that a line can carry. Object forms carry any value, but a single
      member named "key" is taken for a key/value pair. */
  predicate Carried(r: Record) {
    && WrittenKey(r)
    && (r.Plain? ==> '=' !in r.key && '\n' !in r.key && '\n' !in r.value)
    && (r.Member? ==> r.key != "key")
  }

  /** What the runner receives: a plain value loses its trailing white space. */
  function Received(r: Record): string {
    if r.Plain? then TrimRight(r.value) else r.value
  }

  lemma {:induction false} EscapeHasNoBreak(s: string)
    ensures '\n' !in Escape(s)
  {
    if s != "" {
      EscapeHasNoBreak(s[1..]);
      assert '\n' !in EscapeChar(s[0]);
    }
  }

  lemma LineHasNoBreak(r: Record)
    requires r.Plain? ==> '\n' !in r.key && '\n' !in r.value
    ensures '\n' !in LineOf(r)
  {
    EscapeHasNoBreak(r.key);
    EscapeHasNoBreak(r.value);
    EscapeHasNoBreak("key");
    EscapeHasNoBreak("value");
  }

  lemma LineStarts(r: Record)
    requires WrittenKey(r)
    ensures LineOf(r) != "" && !IsSpace(LineOf(r)[0])
    ensures r.Plain? <==> LineOf(r)[0] != '{'
  {
    if r.Plain? {
      assert LineOf(r)[0] == r.key[0];
    }
  }

  lemma {:induction false} CutAtEquals(key: string, value: string)
    requires '=' !in key
    ensures CutAt(key + "=" + value) == |key|
  {
    if key != "" {
      assert (key + "=" + value)[1..] == key[1..] + "=" + value;
      CutAtEquals(key[1..], value);
    } else {
      assert key + "=" + value == "=" + value;
    }
  }

  lemma PlainTrims(key: string, value: string)
    ensures TrimRight(key + "=" + value) == key + "=" + TrimRight(value)
  {
    TrimRightAppend(key + "=", value);
    if TrimRight(value) == "" {
      assert key + "=" + "" == key + "=";
    }
  }

  /** The line of a record, with or without its trailing white space, sets one output. */
  lemma RecordIsRead(outputs: map<string, string>, r: Record, scanned: string)
    requires Carried(r) && Trim(scanned) == TrimRight(LineOf(r))
    ensures LineResult(outputs, scanned) == if r.key in outputs then Setting(false, outputs) else Setting(true, outputs[r.key := Received(r)])
  {
    TrimOfTrimmed(r.key);
    if r.Plain? {
      PlainIsRead(outputs, r, scanned);
    } else {
      ObjectIsRead(outputs, r, scanned);
    }
  }

  lemma PlainIsRead(outputs: map<string, string>, r: Record, scanned: string)
    requires Carried(r) && r.Plain? && Trim(scanned) == TrimRight(LineOf(r)) && Trim(r.key) == r.key
    ensures LineResult(outputs, scanned) == if r.key in outputs then Setting(false, outputs) else Setting(true, outputs[r.key := Received(r)])
  {
    var value := TrimRight(r.value);
    var line := r.key + "=" + value;
    PlainTrims(r.key, r.value);
    CutAtEquals(r.key, value);
    assert line[0] == r.key[0];
    assert line[..|r.key|] == r.key && line[|r.key| + 1..] == value;
  }

  lemma ObjectIsRead(outputs: map<string, string>, r: Record, scanned: string)
    requires Carried(r) && !r.Plain? && Trim(scanned) == TrimRight(LineOf(r)) && Trim(r.key) == r.key
    ensures LineResult(outputs, scanned) == if r.key in outputs then Setting(false, outputs) else Setting(true, outputs[r.key := r.value])
  {
    var line := LineOf(r);
    assert line[0] == '{' && line[|line| - 1] == '}';
    PairsOfRecord(r);
    SetOne(outputs, r.key, r.value);
  }

  lemma SetOne(outputs: map<string, string>, key: string, value: string)
    requires key != "" && Trim(key) == key
    ensures SetAll(outputs, [(key, value)]) == if key in outputs then Setting(false, outputs) else Setting(true, outputs[key := value])
  {
    var pairs := [(key, value)];
    assert pairs[1..] == [];
  }

  lemma LineIsObject(r: Record)
    requires !r.Plain?
    ensures Unmarshal(LineOf(r)).Some?
  {
    if r.Pair? {
      Object2RoundTrip("key", r.key, "value", r.value);
    } else {
      Object1RoundTrip(r.key, r.value);
    }
  }

  lemma PairsOfRecord(r: Record)
    requires Carried(r) && !r.Plain?
    ensures Unmarshal(LineOf(r)).Some? && Pairs(Unmarshal(LineOf(r)).value) == [(r.key, r.value)]
  {
    if r.Pair? {
      Object2RoundTrip("key", r.key, "value", r.value);
      LookupSecond("key", r.key, "value", r.value);
    } else {
      Object1RoundTrip(r.key, r.value);
      LookupOnly(r.key, r.value, "key");
    }
  }

  lemma LookupSecond(n1: string, v1: string, n2: string, v2: string)
    requires n1 != n2
    ensures var obj := [(n1, v1), (n2, v2)]; Lookup(obj, n1) == Some(v1) && Lookup(obj, n2) == Some(v2)
  {
    assert [(n1, v1), (n2, v2)][1..] == [(n2, v2)];
  }

  lemma LookupOnly(n1: string, v1: string, name: string)
    requires n1 != name
    ensures Lookup([(n1, v1)], name) == None
  {
    assert [(n1, v1)][1..] == [];
  }

  /** The records set one after the other. */
  function SetRecords(outputs: map<string, string>, records: seq<Record>): Setting
    decreases |records|
  {
    if records == [] then Setting(true, outputs)
    else if records[0].key in outputs then Setting(false, outputs)
    else SetRecords(outputs[records[0].key := Received(records[0])], records[1..])
  }

  /** The text of a file of records without the white space at its end. */
  function Body(records: seq<Record>): string
    requires records != []
  {
    if |records| == 1 then TrimRight(LineOf(records[0]))
    else LineOf(records[0]) + "\n" + Body(records[1..])
  }

  predicate AllCarried(records: seq<Record>) {
    forall i | 0 <= i < |records| :: Carried(records[i])
  }

  predicate AllWritten(records: seq<Record>) {
    forall i | 0 <= i < |records| :: WrittenKey(records[i])
  }

  /** Every line is shorter than the scanner's buffer; the last one counts without
      the white space at its end. */
  predicate Fits(records: seq<Record>) {
    forall i | 0 <= i < |records| ::
      |if i == |records| - 1 then TrimRight(LineOf(records[i])) else LineOf(records[i])| < MAX_LINE
  }

  lemma BodyStarts(records: seq<Record>)
    requires records != [] && AllWritten(records)
    ensures Body(records) != "" && Body(records)[0] == LineOf(records[0])[0]
  {
    LineStarts(records[0]);
    TrimRightKeepsHead(LineOf(records[0]));
    TrimRightCut(LineOf(records[0]));
  }

  lemma {:induction false} FileTrims(records: seq<Record>)
    requires records != [] && AllWritten(records)
    ensures TrimRight(FileOf(records)) == Body(records)
    decreases |records|
  {
    var line, rest := LineOf(records[0]), FileOf(records[1..]);
    if |records| == 1 {
      assert rest == "" && line + "\n" + rest == line + "\n";
      TrimRightIgnoresBlank(line, "\n");
    } else {
      FileTrims(records[1..]);
      BodyStarts(records[1..]);
      TrimRightAppend(line + "\n", rest);
    }
  }

  /** Line by line, the records are read in order. */
  lemma {:induction false} LinesAreRead(outputs: map<string, string>, records: seq<Record>)
    requires records != [] && AllCarried(records)
    ensures var r := SetRecords(outputs, records);
            ScanResult(outputs, Body(records)) == if r.ok && Fits(records) then Some(r.outputs) else None
    decreases |records|
  {
    hide ScanResult, Body, Fits, LineOf, Received, TrimRight;
    var r := records[0];
    if |records| == 1 {
      LastLineIsRead(outputs, r);
      OneRecord(records);
      assert records[1..] == [];
    } else {
      BodyStarts(records[1..]);
      BodyInTwo(records);
      FirstLineIsRead(outputs, r, Body(records[1..]));
      FitsSplit(records);
      if r.key !in outputs {
        LinesAreRead(outputs[r.key := Received(r)], records[1..]);
      }
    }
  }

  lemma OneRecord(records: seq<Record>)
    requires |records| == 1
    ensures Body(records) == TrimRight(LineOf(records[0])) && (Fits(records) <==> |TrimRight(LineOf(records[0]))| < MAX_LINE)
  {}

  lemma FitsSplit(records: seq<Record>)
    requires |records| > 1
    ensures Fits(records) <==> |LineOf(records[0])| < MAX_LINE && Fits(records[1..])
  {
    var rest := records[1..];
    assert forall i | 0 <= i < |rest| :: rest[i] == records[i + 1];
    if |LineOf(records[0])| < MAX_LINE && Fits(rest) {
      forall i | 0 <= i < |records|
        ensures |if i == |records| - 1 then TrimRight(LineOf(records[i])) else LineOf(records[i])| < MAX_LINE
      {
        if i > 0 { assert rest[i - 1] == records[i]; }
      }
    }
  }

  lemma LastLineIsRead(outputs: map<string, string>, r: Record)
    requires Carried(r)
    ensures var text := TrimRight(LineOf(r));
            ScanResult(outputs, text) ==
              if r.key !in outputs && |text| < MAX_LINE then Some(outputs[r.key := Received(r)]) else None
  {
    var text := TrimRight(LineOf(r));
    LineHasNoBreak(r);
    LineStarts(r);
    TrimRightCut(LineOf(r));
    TrimRightKeepsHead(LineOf(r));
    assert '\n' !in text by { assert forall c | c in text :: c in LineOf(r); }
    LineEndNone(text);
    assert text[..|text|] == text && DropCR(text) == text;
    TrimOfTrimmed(text);
    RecordIsRead(outputs, r, text);
    hide LineResult, LineOf, Received, TrimRight, LineEnd;
    if |text| < MAX_LINE {
      assert [text] + [] == [text];
      assert ScanLines(text, MAX_LINE) == Scan([text], false);
      OneLine(outputs, text);
    }
  }

  lemma OneLine(outputs: map<string, string>, line: string)
    ensures LinesResult(outputs, [line]) == LineResult(outputs, line)
  {
    assert [line][1..] == [];
  }

  lemma FirstLineIsRead(outputs: map<string, string>, r: Record, rest: string)
    requires Carried(r) && rest != ""
    ensures var text := LineOf(r) + "\n" + rest;
            ScanResult(outputs, text) ==
              if r.key !in outputs && |LineOf(r)| < MAX_LINE then ScanResult(outputs[r.key := Received(r)], rest) else None
  {
    hide LineResult, LineOf, Trim;
    var line := LineOf(r);
    var text := line + "\n" + rest;
    LineHasNoBreak(r);
    LineStarts(r);
    LineEndAt(line, rest);
    assert text[..|line|] == line && text[|line| + 1..] == rest;
    TrimScanned(line);
    RecordIsRead(outputs, r, DropCR(line));
    if |line| < MAX_LINE {
      var scan := ScanLines(text, MAX_LINE);
      var more := ScanLines(rest, MAX_LINE);
      assert scan.lines == [DropCR(line)] + more.lines && scan.tooLong == more.tooLong;
      assert scan.lines[1..] == more.lines;
    }
  }

  /** A file that is not a single object is read line by line. */
  lemma {:induction false} ReadByLines(records: seq<Record>)
    requires AllWritten(records) && (|records| > 1 || (|records| == 1 && records[0].Plain?))
    ensures FileResult(FileOf(records)) == ScanResult(map[], Body(records))
  {
    hide ScanResult, Body, FileOf, Unmarshal, SetAll;
    var r, raw := records[0], Body(records);
    LineStarts(r);
    BodyStarts(records);
    FileTrims(records);
    FileStarts(records);
    TrimKeepsHead(FileOf(records));
    if !r.Plain? {
      BodyStarts(records[1..]);
      LineStarts(records[1]);
      NotOneObject(r, Body(records[1..]));
      BodyInTwo(records);
    }
  }

  lemma FileStarts(records: seq<Record>)
    requires records != [] && WrittenKey(records[0])
    ensures FileOf(records) != "" && FileOf(records)[0] == LineOf(records[0])[0]
  {
    LineStarts(records[0]);
  }

  lemma BodyInTwo(records: seq<Record>)
    requires |records| > 1
    ensures Body(records) == LineOf(records[0]) + "\n" + Body(records[1..])
  {}

  /** A file of one object is read as a whole. */
  lemma ReadAsObject(r: Record)
    requires WrittenKey(r) && !r.Plain?
    ensures var parsed := Unmarshal(LineOf(r));
            && parsed.Some?
            && FileResult(FileOf([r])) ==
                 if SetAll(map[], Pairs(parsed.value)).ok then Some(SetAll(map[], Pairs(parsed.value)).outputs) else None
  {
    hide Unmarshal, SetAll, Pairs, FileOf;
    var line := LineOf(r);
    LineStarts(r);
    LineIsObject(r);
    FileStarts([r]);
    FileTrims([r]);
    TrimKeepsHead(FileOf([r]));
    assert line[|line| - 1] == '}';
    assert Body([r]) == TrimRight(line) == line;
  }

  /** What the runner reads in a file of carried records: all of them, unless a key
      occurs twice or a line is too long; a file of one object has no such limit. */
  lemma FileIsRead(records: seq<Record>)
    requires AllCarried(records)
    ensures var r := SetRecords(map[], records);
            FileResult(FileOf(records)) ==
              if r.ok && (Fits(records) || (|records| == 1 && !records[0].Plain?)) then Some(r.outputs) else None
  {
    hide Fits, FileResult, ScanResult, Unmarshal, Body;
    if records == [] {
      NothingIsRead();
    } else if |records| > 1 || records[0].Plain? {
      ReadByLines(records);
      LinesAreRead(map[], records);
    } else {
      var r := records[0];
      assert records == [r] && records[1..] == [];
      ReadAsObject(r);
      PairsOfRecord(r);
      TrimOfTrimmed(r.key);
      SetOne(map[], r.key, r.value);
    }
  }

  lemma NothingIsRead()
    ensures FileResult(FileOf([])) == Some(map[]) && Fits([])
  {}

  lemma NotOneObject(r: Record, rest: string)
    requires !r.Plain? && rest != "" && !IsSpace(rest[0])
    ensures Unmarshal(LineOf(r) + "\n" + rest) == None
  {
    LineIsObject(r);
    assert ("\n" + rest)[1..] == rest;
    NoObjectInFront(LineOf(r), "\n" + rest);
    Associative(LineOf(r), "\n", rest);
  }

  predicate Distinct(records: seq<Record>) {
    forall i, j | 0 <= i < j < |records| :: records[i].key != records[j].key
  }

  /** Records can be set when their keys are new and different; then each key has the
      value received for it, and there are no other outputs. */
  lemma {:induction false} RecordsAreSet(outputs: map<string, string>, records: seq<Record>)
    ensures var r := SetRecords(outputs, records);
            && (r.ok <==> Distinct(records) && forall i | 0 <= i < |records| :: records[i].key !in outputs)
            && (r.ok ==> HasAll(outputs, records, r.outputs))
    decreases |records|
  {
    if records != [] {
      var r, rest := records[0], records[1..];
      assert forall i | 0 <= i < |rest| :: rest[i] == records[i + 1];
      if r.key !in outputs {
        var next := outputs[r.key := Received(r)];
        RecordsAreSet(next, rest);
        DistinctSplit(records);
        if SetRecords(next, rest).ok {
          HasAllMore(outputs, records, SetRecords(next, rest).outputs);
        }
      }
    }
  }

  /** out is outputs with the values received for the records. */
  ghost predicate HasAll(outputs: map<string, string>, records: seq<Record>, out: map<string, string>) {
    && (forall k | k in outputs && (forall i | 0 <= i < |records| :: records[i].key != k) :: k in out && out[k] == outputs[k])
    && (forall i | 0 <= i < |records| :: records[i].key in out && out[records[i].key] == Received(records[i]))
    && (forall k | k in out :: k in outputs || exists i :: 0 <= i < |records| && records[i].key == k)
  }

  lemma DistinctSplit(records: seq<Record>)
    requires records != []
    ensures Distinct(records) <==> Distinct(records[1..]) && forall i | 0 <= i < |records| - 1 :: records[1..][i].key != records[0].key
  {
    var rest := records[1..];
    assert forall i | 0 <= i < |rest| :: rest[i] == records[i + 1];
    if Distinct(rest) && forall i | 0 <= i < |rest| :: rest[i].key != records[0].key {
      forall i, j | 0 <= i < j < |records|
        ensures records[i].key != records[j].key
      {
        assert records[j] == rest[j - 1];
        if i > 0 { assert records[i] == rest[i - 1]; }
      }
    }
  }

  lemma HasAllMore(outputs: map<string, string>, records: seq<Record>, out: map<string, string>)
    requires records != [] && Distinct(records)
    requires HasAll(outputs[records[0].key := Received(records[0])], records[1..], out)
    ensures HasAll(outputs, records, out)
  {
    var rest := records[1..];
    assert forall i | 0 <= i < |rest| :: rest[i] == records[i + 1];
    forall k | k in out
      ensures k in outputs || exists i :: 0 <= i < |records| && records[i].key == k
    {
      if i :| 0 <= i < |rest| && rest[i].key == k {
        assert records[i + 1].key == k;
      } else if k !in outputs {
        assert records[0].key == k;
      }
    }
    forall i | 0 <= i < |records|
      ensures records[i].key in out && out[records[i].key] == Received(records[i])
    {
      if i > 0 { assert rest[i - 1] == records[i]; }
    }
  }

  predicate Readable(records: seq<Record>) {
    Distinct(records) && (Fits(records) || (|records| == 1 && !records[0].Plain?))
  }

  /** Carried outputs come back exactly when no key is repeated, the lines fit and no
      plain value ends in white space. */
  lemma {:induction false} CarriedRoundTrip(records: seq<Record>)
    requires AllCarried(records)
    ensures FileResult(FileOf(records)) == Some(OutputsOf(records))
       <==> Readable(records) && forall i | 0 <= i < |records| :: Received(records[i]) == records[i].value
  {
    hide FileResult, FileOf, SetRecords, OutputsOf, LineOf, Fits, Distinct, AllCarried;
    FileIsRead(records);
    RecordsAreSet(map[], records);
    if Readable(records) {
      SameOutputs(records, SetRecords(map[], records).outputs);
    }
  }

  lemma {:induction false} SameOutputs(records: seq<Record>, out: map<string, string>)
    requires Distinct(records) && HasAll(map[], records, out)
    ensures out == OutputsOf(records) <==> forall i | 0 <= i < |records| :: Received(records[i]) == records[i].value
  {
    OutputsHaveValues(records);
    if forall i | 0 <= i < |records| :: Received(records[i]) == records[i].value {
      SameMaps(records, out, OutputsOf(records));
    }
  }

  lemma SameMaps(records: seq<Record>, a: map<string, string>, b: map<string, string>)
    requires HasValues(records, a) && HasValues(records, b)
    ensures a == b
  {
    forall k | k in a
      ensures k in b && a[k] == b[k]
    {
      var i :| 0 <= i < |records| && records[i].key == k;
    }
    forall k | k in b
      ensures k in a
    {
      var i :| 0 <= i < |records| && records[i].key == k;
    }
  }

  /** m has the keys of the records, with their values. */
  ghost predicate HasValues(records: seq<Record>, m: map<string, string>) {
    && (forall i | 0 <= i < |records| :: records[i].key in m && m[records[i].key] == records[i].value)
    && (forall k | k in m :: exists i :: 0 <= i < |records| && records[i].key == k)
  }

  lemma {:induction false} OutputsHaveValues(records: seq<Record>)
    requires Distinct(records)
    ensures HasValues(records, OutputsOf(records))
  {
    if records != [] {
      var n := |records| - 1;
      OutputsHaveValues(records[..n]);
      OneMoreValue(records, records[..n], OutputsOf(records[..n]));
    }
  }

  lemma OneMoreValue(records: seq<Record>, front: seq<Record>, m: map<string, string>)
    requires records != [] && Distinct(records) && front == records[..|records| - 1] && HasValues(front, m)
    ensures HasValues(records, m[records[|records| - 1].key := records[|records| - 1].value])
  {
    var last := records[|records| - 1];
    var more := m[last.key := last.value];
    forall i | 0 <= i < |records|
      ensures records[i].key in more && more[records[i].key] == records[i].value
    {
      if i < |front| { assert front[i] == records[i]; }
    }
    forall k | k in more
      ensures exists i :: 0 <= i < |records| && records[i].key == k
    {
      if k == last.key {
        assert records[|records| - 1].key == k;
      } else {
        var i :| 0 <= i < |front| && front[i].key == k;
        assert records[i].key == k;
      }
    }
  }

  // ----- What a line cannot carry

  lemma TrimIsShorter(s: string)
    ensures |Trim(s)| <= |s|
  {
    TrimLeftCut(s);
    TrimRightCut(TrimLeft(s));
  }

  /** A single member named "key" never gives the output of that name its value, which is
      taken for the name of an output without a value. */
  lemma MemberNamedKey(value: string)
    ensures var r := FileResult(FileOf([Member("key", value)]));
            && r == (if Trim(value) == "" then None else Some(map[Trim(value) := ""]))
            && r != Some(map["key" := value])
  {
    var key := Trim(value);
    assert Trim("key") == "key";
    ReadAsObject(Member("key", value));
    Object1RoundTrip("key", value);
    LookupOnly("key", value, "value");
    assert [(value, "")][1..] == [];
    if key != "" {
      assert SetAll(map[], [(value, "")]) == Setting(true, map[key := ""]);
      assert value != "";
      assert key in map[key := ""] && map[key := ""][key] == "";
    }
  }
}
