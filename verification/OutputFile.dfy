/** The step output file: written line by line by the harness SDK, and read by the
    runner when the step has ended. */
module OutputFile {
  import opened Text
  import opened LineScanner
  import opened Json

  const MAX_LINE: nat := 64 * 1024
  const ABORT_REASON := "abort_reason"

  // ----- The runner's side

  /** The pairs an object stands for: one, if it has a "key" member, and otherwise its
      members. */
  function Pairs(obj: Object): Object {
    match Lookup(obj, "key")
    case None => obj
    case Some(key) =>
      var value := Lookup(obj, "value");
      [(key, if value.Some? then value.value else "")]
  }

  /** Outputs set so far, and whether the last setting worked. */
  datatype Setting = Setting(ok: bool, outputs: map<string, string>)

  method SetOutput(outputs: map<string, string>, key: string, value: string) returns (r: Setting)
    ensures r == if key == "" || key in outputs then Setting(false, outputs) else Setting(true, outputs[key := value])
  {
    if key == "" {
      return Setting(false, outputs);
    }
    if key in outputs {
      return Setting(false, outputs);
    }
    return Setting(true, outputs[key := value]);
  }

  /** Setting pairs one after the other, up to the first that cannot be set. */
  function SetAll(outputs: map<string, string>, pairs: Object): Setting
    decreases |pairs|
  {
    if pairs == [] then Setting(true, outputs)
    else
      var key := Trim(pairs[0].0);
      if key == "" || key in outputs then Setting(false, outputs)
      else SetAll(outputs[key := pairs[0].1], pairs[1..])
  }

  method MergeOutputJSON(outputs: map<string, string>, raw: string) returns (r: Setting)
    ensures r == if Unmarshal(raw).None? then Setting(false, outputs) else SetAll(outputs, Pairs(Unmarshal(raw).value))
  {
    var parsed := Unmarshal(raw);
    if parsed.None? {
      return Setting(false, outputs);
    }
    var obj := parsed.value;
    var key := Lookup(obj, "key");
    if key.Some? {
      var value := Lookup(obj, "value");
      r := SetOutput(outputs, Trim(key.value), if value.Some? then value.value else "");
      return;
    }
    r := Setting(true, outputs);
    var k := 0;
    while k < |obj|
      invariant k <= |obj| && r.ok && SetAll(r.outputs, obj[k..]) == SetAll(outputs, obj)
    {
      var member := obj[k];
      assert obj[k..][1..] == obj[k + 1..];
      r := SetOutput(r.outputs, Trim(member.0), member.1);
      if !r.ok {
        return;
      }
      k := k + 1;
    }
  }

  /** With more outputs set already, no more pairs can be set. */
  lemma {:induction false} FailsWithMore(outputs: map<string, string>, more: map<string, string>, pairs: Object)
    requires outputs.Keys <= more.Keys && !SetAll(outputs, pairs).ok
    ensures !SetAll(more, pairs).ok
    decreases |pairs|
  {
    var key := Trim(pairs[0].0);
    if key != "" && key !in more {
      FailsWithMore(outputs[key := pairs[0].1], more[key := pairs[0].1], pairs[1..]);
    }
  }

  // ----- One line

  /** strings.Cut at the first equals sign: its position, or |s|. */
  function CutAt(s: string): (n: nat)
    ensures n <= |s|
  {
    if s == "" || s[0] == '=' then 0 else CutAt(s[1..]) + 1
  }

  /** What a scanned line does to the outputs. */
  function LineResult(outputs: map<string, string>, scanned: string): Setting {
    var line := Trim(scanned);
    if line == "" then Setting(true, outputs)
    else if line[0] == '{' then
      if Unmarshal(line).None? then Setting(false, outputs) else SetAll(outputs, Pairs(Unmarshal(line).value))
    else
      var n := CutAt(line);
      var key := Trim(line[..n]);
      if n == |line| || key == "" || key in outputs then Setting(false, outputs)
      else Setting(true, outputs[key := line[n + 1..]])
  }

  function LinesResult(outputs: map<string, string>, lines: seq<string>): Setting
    decreases |lines|
  {
    if lines == [] then Setting(true, outputs)
    else
      var r := LineResult(outputs, lines[0]);
      if r.ok then LinesResult(r.outputs, lines[1..]) else r
  }

  /** The line by line reading of a text. */
  function ScanResult(outputs: map<string, string>, raw: string): Option<map<string, string>> {
    var scan := ScanLines(raw, MAX_LINE);
    var r := LinesResult(outputs, scan.lines);
    if r.ok && !scan.tooLong then Some(r.outputs) else None
  }

  /** What a file says; None is an error. A file that is one JSON object is read as a
      whole, whatever its line lengths; any other file is read line by line. */
  function FileResult(file: string): Option<map<string, string>> {
    var raw := Trim(file);
    if raw == "" then Some(map[])
    else if raw[0] == '{' && Unmarshal(raw).Some? then
      var r := SetAll(map[], Pairs(Unmarshal(raw).value));
      if r.ok then Some(r.outputs) else None
    else ScanResult(map[], raw)
  }

  /** parseOutputFile; a missing file is read as an empty one. */
  method ParseOutputFile(file: string) returns (r: Option<map<string, string>>)
    ensures r == FileResult(file)
  {
    var raw := Trim(file);
    if |raw| == 0 {
      return Some(map[]);
    }
    var outputs: map<string, string> := map[];
    if raw[0] == '{' {
      var whole := MergeOutputJSON(outputs, raw);
      if whole.ok {
        return Some(whole.outputs);
      }
      outputs := whole.outputs;
      if Unmarshal(raw).Some? {
        RejectedObject(file, raw, outputs);
      }
    }
    r := ParseLines(outputs, raw);
  }

  method ParseLines(start: map<string, string>, raw: string) returns (r: Option<map<string, string>>)
    ensures r == ScanResult(start, raw)
  {
    var scan := ScanLines(raw, MAX_LINE);
    var outputs, k := start, 0;
    while k < |scan.lines|
      invariant k <= |scan.lines|
      invariant LinesResult(outputs, scan.lines[k..]) == LinesResult(start, scan.lines)
    {
      ghost var step := LineResult(outputs, scan.lines[k]);
      var line := Trim(scan.lines[k]);
      assert scan.lines[k..][1..] == scan.lines[k + 1..];
      k := k + 1;
      if line == "" {
        continue;
      }
      if line[0] == '{' {
        var merged := MergeOutputJSON(outputs, line);
        if !merged.ok {
          return None;
        }
        outputs := merged.outputs;
        continue;
      }
      var n := CutAt(line);
      if n == |line| || Trim(line[..n]) == "" {
        return None;
      }
      var one := SetOutput(outputs, Trim(line[..n]), line[n + 1..]);
      if !one.ok {
        return None;
      }
      outputs := one.outputs;
    }
    if scan.tooLong {
      return None;
    }
    return Some(outputs);
  }

  /** A scanned line that starts with something else than white space. */
  lemma TrimScanned(s: string)
    requires s != "" && !IsSpace(s[0])
    ensures Trim(DropCR(s)) == TrimRight(s)
  {
    var line := DropCR(s);
    if line != s {
      assert line == s[..|s| - 1];
    }
    TrimKeepsHead(line);
  }

  /** An object with a pair that cannot be set is rejected by the line reading too: its
      first line either is the whole object again, or no object at all. */
  lemma RejectedObject(file: string, raw: string, outputs: map<string, string>)
    requires raw == Trim(file) && raw != "" && raw[0] == '{' && Unmarshal(raw).Some?
    requires !SetAll(map[], Pairs(Unmarshal(raw).value)).ok
    ensures ScanResult(outputs, raw) == None
  {
    TrimLeftCut(file);
    TrimRightCut(TrimLeft(file));
    hide Unmarshal, SetAll, Pairs, TrimLeft, TrimRight, LineEnd;
    var n, scan := LineEnd(raw), ScanLines(raw, MAX_LINE);
    LineEndCut(raw);
    if n < MAX_LINE {
      var first := raw[..n];
      var line := Trim(DropCR(first));
      assert first != "" && first[0] == '{';
      TrimScanned(first);
      TrimRightCut(first);
      assert line == raw[..|line|];
      if n == |raw| {
        assert line == raw;
        FailsWithMore(map[], outputs, Pairs(Unmarshal(raw).value));
      } else {
        FirstLineIsNoObject(raw, line);
      }
      assert scan.lines[0] == DropCR(first);
      assert !LineResult(outputs, scan.lines[0]).ok;
    }
  }

  lemma FirstLineIsNoObject(raw: string, line: string)
    requires |line| < |raw| && line == raw[..|line|] && !IsSpace(raw[|raw| - 1])
    ensures Unmarshal(line).Some? ==> Unmarshal(raw).None?
  {
    var rest := raw[|line|..];
    assert line + rest == raw;
    NotSkipped(rest);
    if Unmarshal(line).Some? {
      NoObjectInFront(line, rest);
    }
  }

  lemma {:induction false} NotSkipped(s: string)
    requires s != "" && !IsSpace(s[|s| - 1])
    ensures SkipSpace(s) != ""
  {
    if IsJsonSpace(s[0]) {
      NotSkipped(s[1..]);
    }
  }

  // ----- The step's side

  /** One emitted output, by the form of its line: key=value, a key/value object, or an
      object with the key as its one member. */
  datatype Record =
    | Plain(key: string, value: string)
    | Pair(key: string, value: string)
    | Member(key: string, value: string)

  function LineOf(r: Record): string {
    match r
    case Plain(key, value) => key + "=" + value
    case Pair(key, value) => Object2("key", key, "value", value)
    case Member(key, value) => Object1(key, value)
  }

  function FileOf(records: seq<Record>): string {
    if records == [] then "" else LineOf(records[0]) + "\n" + FileOf(records[1..])
  }

  lemma {:induction false} FileOfSnoc(records: seq<Record>, r: Record)
    ensures FileOf(records + [r]) == FileOf(records) + (LineOf(r) + "\n")
  {
    if records == [] {
      assert [r][1..] == [] && records + [r] == [r];
    } else {
      assert (records + [r])[1..] == records[1..] + [r];
      FileOfSnoc(records[1..], r);
      Associative(LineOf(records[0]) + "\n", FileOf(records[1..]), LineOf(r) + "\n");
    }
  }

  function OutputsOf(records: seq<Record>): map<string, string> {
    if records == [] then map[]
    else OutputsOf(records[..|records| - 1])[records[|records| - 1].key := records[|records| - 1].value]
  }

  /** As long as no append has failed, the records are the outputs; and only a blank
      abort reason has been followed by a record with its key. */
  ghost predicate Consistent(records: seq<Record>, outputs: map<string, string>, intact: bool, abortKey: string) {
    && (intact ==> outputs == OutputsOf(records))
    && Keyed(records, outputs) && Once(records, outputs, abortKey)
  }

  ghost predicate Keyed(records: seq<Record>, outputs: map<string, string>) {
    forall i | 0 <= i < |records| :: WrittenKey(records[i]) && records[i].key in outputs
  }

  ghost predicate Once(records: seq<Record>, outputs: map<string, string>, abortKey: string) {
    && (forall i, j | 0 <= i < j < |records| && records[i].key == records[j].key ::
          records[i].key == abortKey && records[i].value == "")
    && (Open(outputs, abortKey) ==> forall i | 0 <= i < |records| && records[i].key == abortKey :: records[i].value == "")
  }

  predicate WrittenKey(r: Record) {
    r.key != "" && Trimmed(r.key) && (r.Plain? ==> r.key[0] != '{')
  }

  /** No reason to abort has been given. */
  predicate Open(outputs: map<string, string>, abortKey: string) {
    abortKey in outputs ==> outputs[abortKey] == ""
  }

  /** Setting an output that is new, or the abort reason while there is none, and
      appending its record if that works. */
  lemma StaysConsistent(records: seq<Record>, outputs: map<string, string>, intact: bool, abortKey: string, r: Record)
    requires Consistent(records, outputs, intact, abortKey) && WrittenKey(r)
    requires r.key !in outputs || (r.key == abortKey && Open(outputs, abortKey))
    ensures Consistent(records + [r], outputs[r.key := r.value], intact, abortKey)
    ensures Consistent(records, outputs[r.key := r.value], false, abortKey)
  {}

  /** The results of an emit. */
  datatype Emitted = Written | Invalid | Duplicate | FileError

  /** The SDK's context of a step, with the output file it appends to. Which appends
      fail is not known. */
  class Context {
    const fails: nat -> bool
    var appends: nat
    var file: string
    var outputs: map<string, string>
    var aborted: bool
    var abortReason: string
    ghost var records: seq<Record>
    ghost var intact: bool

    ghost predicate Valid()
      reads this
    {
      file == FileOf(records) && Consistent(records, outputs, intact, ABORT_REASON)
    }

    constructor (fails: nat -> bool)
      ensures Valid() && intact && file == "" && outputs == map[] && records == [] && !aborted
    {
      this.fails := fails;
      appends, file, outputs := 0, "", map[];
      aborted, abortReason := false, "";
      records, intact := [], true;
    }

    /** Appends the line of a record to the file, or fails. */
    method AppendOutputFile(ghost r: Record, line: string) returns (ok: bool)
      requires line == LineOf(r) + "\n" && file == FileOf(records)
      modifies this`appends, this`file, this`records, this`intact
      ensures ok == !fails(old(appends)) && intact == (old(intact) && ok)
      ensures records == (if ok then old(records) + [r] else old(records)) && file == FileOf(records)
    {
      ok := !fails(appends);
      appends := appends + 1;
      if ok {
        file := file + line;
        FileOfSnoc(records, r);
        records := records + [r];
      } else {
        intact := false;
      }
    }

    /** Takes note of an output, and appends its line to the file. */
    method Store(ghost r: Record, key: string, value: string, line: string) returns (ok: bool)
      requires Valid() && WrittenKey(r) && r.key == key && r.value == value && line == LineOf(r) + "\n"
      requires key !in outputs || (key == ABORT_REASON && Open(outputs, ABORT_REASON))
      modifies this`appends, this`file, this`outputs, this`records, this`intact
      ensures Valid() && outputs == old(outputs)[key := value] && intact == (old(intact) && ok)
      ensures records == if ok then old(records) + [r] else old(records)
    {
      StaysConsistent(records, outputs, intact, ABORT_REASON, r);
      outputs := outputs[key := value];
      ok := AppendOutputFile(r, line);
    }

    /** The line form, unless the value has a line break or the key an opening brace. */
    method EmitOutput(rawKey: string, value: string) returns (e: Emitted)
      requires Valid()
      modifies this
      ensures Valid() && aborted == old(aborted) && abortReason == old(abortReason)
      ensures e.Written? || e.FileError? <==> Trim(rawKey) != "" && Trim(rawKey) !in old(outputs)
      ensures e.Invalid? <==> Trim(rawKey) == ""
      ensures e.Written? || e.FileError? ==> outputs == old(outputs)[Trim(rawKey) := value]
      ensures e.Invalid? || e.Duplicate? ==> outputs == old(outputs)
      ensures intact == (old(intact) && !e.FileError?)
      ensures e.Written? ==> records == old(records) + [EmitRecord(Trim(rawKey), value)]
      ensures !e.Written? ==> records == old(records)
    {
      hide Consistent, FileOf;
      var key := Trim(rawKey);
      if key == "" {
        return Invalid;
      }
      if key in outputs {
        return Duplicate;
      }
      TrimmedKeyIsWritten(rawKey, EmitRecord(key, value));
      var line := OutputLine(key, value);
      var ok := Store(EmitRecord(key, value), key, value, line + "\n");
      return if ok then Written else FileError;
    }

    /** compact is the compact JSON text of the value. */
    method EmitJSONOutput(rawKey: string, compact: string) returns (e: Emitted)
      requires Valid()
      modifies this
      ensures Valid() && aborted == old(aborted) && abortReason == old(abortReason)
      ensures e.Written? || e.FileError? <==> Trim(rawKey) != "" && Trim(rawKey) !in old(outputs)
      ensures e.Invalid? <==> Trim(rawKey) == ""
      ensures e.Written? || e.FileError? ==> outputs == old(outputs)[Trim(rawKey) := compact]
      ensures e.Invalid? || e.Duplicate? ==> outputs == old(outputs)
      ensures intact == (old(intact) && !e.FileError?)
      ensures e.Written? ==> records == old(records) + [Member(Trim(rawKey), compact)]
      ensures !e.Written? ==> records == old(records)
    {
      hide Consistent, FileOf;
      var key := Trim(rawKey);
      if key == "" {
        return Invalid;
      }
      if key in outputs {
        return Duplicate;
      }
      TrimmedKeyIsWritten(rawKey, Member(key, compact));
      var ok := Store(Member(key, compact), key, compact, Object1(key, compact) + "\n");
      return if ok then Written else FileError;
    }

    /** The reason is written once; a blank one does not count as written. */
    method Abort(rawReason: string) returns (ok: bool)
      requires Valid()
      modifies this
      ensures Valid() && aborted && abortReason == Trim(rawReason)
      ensures !old(Open(outputs, ABORT_REASON)) ==> ok && outputs == old(outputs) && records == old(records) && intact == old(intact)
      ensures old(Open(outputs, ABORT_REASON)) ==> outputs == old(outputs)[ABORT_REASON := Trim(rawReason)] && intact == (old(intact) && ok)
      ensures old(Open(outputs, ABORT_REASON)) && ok ==> records == old(records) + [Plain(ABORT_REASON, Trim(rawReason))]
      ensures !ok ==> records == old(records)
    {
      hide Consistent, FileOf;
      var reason := Trim(rawReason);
      aborted, abortReason := true, reason;
      var already := ABORT_REASON in outputs && outputs[ABORT_REASON] != "";
      ok := true;
      if !already {
        ok := Store(Plain(ABORT_REASON, reason), ABORT_REASON, reason, ABORT_REASON + "=" + reason + "\n");
      }
    }
  }

  /** The form of an emitted output. */
  function EmitRecord(key: string, value: string): Record {
    if '\n' in value || '\r' in value || (key != "" && key[0] == '{') then Pair(key, value) else Plain(key, value)
  }

  method OutputLine(key: string, value: string) returns (line: string)
    requires key != "" && Trimmed(key)
    ensures line == LineOf(EmitRecord(key, value))
  {
    TrimOfTrimmed(key);
    line := key + "=" + value;
    if '\n' in value || '\r' in value || Trim(key)[0] == '{' {
      line := Object2("key", key, "value", value);
    }
  }

  lemma TrimmedKeyIsWritten(rawKey: string, r: Record)
    requires r.key == Trim(rawKey) && r.key != "" && (r.Plain? ==> r.key[0] != '{')
    ensures WrittenKey(r)
  {
    TrimIsTrimmed(rawKey);
  }

  lemma TrimIsTrimmed(s: string)
    ensures Trimmed(Trim(s))
  {
    TrimLeftCut(s);
    TrimRightCut(TrimLeft(s));
  }

}
