/** streamLogs: forwarding a step's output while leaving out evidence payloads. */
module LogStream {
  import opened Text
  import opened LineScanner
  import opened Numbers

  const START := "===EVIDENCE-TAR-START==="
  const END := "===EVIDENCE-TAR-END==="
  const MAX_FORWARDED: nat := 64 * 1024
  const MAX_TOKEN: nat := 1024 * 1024

  predicate IsStart(line: string) { Trim(line) == START }
  predicate IsEnd(line: string) { Trim(line) == END }

  /** What a reader hands on, in order: a log line of the step, a notice about an
      omitted payload, or the warning that the stream could not be read on. */
  datatype Item =
    | Line(text: string)
    | Omitting
    | Omitted(count: nat)
    | Unterminated(count: nat)
    | ReadFailed

  /** The text of a forwarded line: never empty, and cut at the size limit. */
  function Sanitized(line: string): string {
    if line == "" then " "
    else if |line| <= MAX_FORWARDED then line
    else line[..MAX_FORWARDED] + "... [truncated " + Decimal(|line| - MAX_FORWARDED) + " bytes]"
  }

  /** An ordinary line is forwarded as it is, an empty one as a blank; of a longer one as much
      as is allowed, with the number of characters that are missing. */
  lemma SanitizedIs(line: string)
    ensures var text := Sanitized(line);
            && text != ""
            && (0 < |line| <= MAX_FORWARDED ==> text == line)
            && (|line| > MAX_FORWARDED ==>
                  exists number :: && Spells(number, |line| - MAX_FORWARDED, 1)
                                   && text == line[..MAX_FORWARDED] + "... [truncated " + number + " bytes]")
  {
    if |line| > MAX_FORWARDED {
      DecimalIs(|line| - MAX_FORWARDED);
    }
  }

  method StreamLogs(stream: string) returns (out: seq<Item>)
    ensures out == ItemsOfScan(ScanLines(stream, MAX_TOKEN))
  {
    var scan := ScanLines(stream, MAX_TOKEN);
    var lines := scan.lines;
    var suppress, suppressed := false, 0;
    out := [];
    for i := 0 to |lines|
      invariant out == Items(lines, i)
      invariant suppress <==> Open(lines, i)
      invariant suppressed == Count(lines, i)
    {
      var line := lines[i];
      NextItems(lines, i, line, Sanitized(line));
      if IsStart(line) {
        suppress, suppressed := true, 0;
        out := out + [Omitting];
        continue;
      }
      if IsEnd(line) && suppress {
        out := out + [Omitted(suppressed)];
        suppress, suppressed := false, 0;
        continue;
      }
      if suppress {
        suppressed := suppressed + 1;
        continue;
      }
      out := out + [Line(Sanitized(line))];
    }
    if suppress {
      out := out + [Unterminated(suppressed)];
    }
    if scan.tooLong {
      out := out + [ReadFailed];
    }
  }

  // ----- The segments of a log, by position

  /** The position of the last marker line before i, or -1. */
  function LastMarker(lines: seq<string>, i: nat): int
    requires i <= |lines|
  {
    if i == 0 then -1
    else if IsStart(lines[i - 1]) || IsEnd(lines[i - 1]) then i - 1
    else LastMarker(lines, i - 1)
  }

  lemma {:induction false} LastMarkerIs(lines: seq<string>, i: nat)
    requires i <= |lines|
    ensures var m := LastMarker(lines, i);
            && -1 <= m < i
            && (m >= 0 ==> IsStart(lines[m]) || IsEnd(lines[m]))
            && forall k | m < k < i :: !IsStart(lines[k]) && !IsEnd(lines[k])
  {
    if i > 0 && !IsStart(lines[i - 1]) && !IsEnd(lines[i - 1]) {
      LastMarkerIs(lines, i - 1);
    }
  }

  /** Position i lies in a payload: the last marker before it is a start marker. */
  predicate Open(lines: seq<string>, i: nat)
    requires i <= |lines|
  {
    var m := LastMarker(lines, i);
    0 <= m < i && IsStart(lines[m])
  }

  /** How many payload lines the open payload has had before position i. */
  function Count(lines: seq<string>, i: nat): nat
    requires i <= |lines|
  {
    if Open(lines, i) then i - 1 - LastMarker(lines, i) else 0
  }

  /** What a line adds, and where the log stands after it. */
  lemma NextItems(lines: seq<string>, i: nat, line: string, text: string)
    requires i < |lines| && line == lines[i] && text == Sanitized(line)
    ensures var open, count := Open(lines, i), Count(lines, i);
            if IsStart(line) then
              Items(lines, i + 1) == Items(lines, i) + [Omitting] && Open(lines, i + 1) && Count(lines, i + 1) == 0
            else if !open then
              Items(lines, i + 1) == Items(lines, i) + [Line(text)] && !Open(lines, i + 1)
            else if IsEnd(line) then
              Items(lines, i + 1) == Items(lines, i) + [Omitted(count)] && !Open(lines, i + 1)
            else
              Items(lines, i + 1) == Items(lines, i) && Open(lines, i + 1) && Count(lines, i + 1) == count + 1
  {
    LastMarkerIs(lines, i);
    assert START != END;
  }

  /** The items that line i causes, told from its position alone. The count of an
      end marker is the number of lines since the latest start marker. */
  function ItemsOf(lines: seq<string>, i: nat): seq<Item>
    requires i < |lines|
  {
    if IsStart(lines[i]) then [Omitting]
    else if !Open(lines, i) then [Line(Sanitized(lines[i]))]
    else if IsEnd(lines[i]) then
      var m := LastMarker(lines, i);
      [Omitted(if m < i then i - 1 - m else 0)]
    else []
  }

  function Items(lines: seq<string>, n: nat): seq<Item>
    requires n <= |lines|
  {
    if n == 0 then [] else Items(lines, n - 1) + ItemsOf(lines, n - 1)
  }

  /** A payload left open and a line over the limit are each reported at the end. */
  function ItemsOfScan(scan: Scan): seq<Item> {
    var lines := scan.lines;
    var items := Items(lines, |lines|);
    var all := if Open(lines, |lines|) then items + [Unterminated(Count(lines, |lines|))] else items;
    if scan.tooLong then all + [ReadFailed] else all
  }

  /** Line i is part of the log, not of a payload or of its frame. */
  predicate Ordinary(lines: seq<string>, i: nat)
    requires i < |lines|
  {
    !IsStart(lines[i]) && !Open(lines, i)
  }

  function OrdinaryLines(lines: seq<string>, n: nat): seq<string>
    requires n <= |lines|
  {
    if n == 0 then []
    else if Ordinary(lines, n - 1) then OrdinaryLines(lines, n - 1) + [Sanitized(lines[n - 1])]
    else OrdinaryLines(lines, n - 1)
  }

  function TextOf(items: seq<Item>): seq<string> {
    if items == [] then []
    else
      var last := items[|items| - 1];
      TextOf(items[..|items| - 1]) + if last.Line? then [last.text] else []
  }

  /** The log lines forwarded are the lines outside every payload, each once and in
      order; nothing of a payload is among them. */
  lemma {:induction false} ForwardsOrdinaryLines(lines: seq<string>, n: nat)
    requires n <= |lines|
    ensures TextOf(Items(lines, n)) == OrdinaryLines(lines, n)
  {
    hide Ordinary, ItemsOf, Sanitized;
    if n > 0 {
      ItemOfLine(lines, n - 1);
      ForwardsOrdinaryLines(lines, n - 1);
      TextOfAppend(Items(lines, n - 1), ItemsOf(lines, n - 1));
    }
  }

  lemma ItemOfLine(lines: seq<string>, i: nat)
    requires i < |lines|
    ensures if Ordinary(lines, i) then ItemsOf(lines, i) == [Line(Sanitized(lines[i]))]
            else |ItemsOf(lines, i)| <= 1 && forall item | item in ItemsOf(lines, i) :: !item.Line?
  {}

  lemma TextOfAppend(before: seq<Item>, added: seq<Item>)
    requires |added| <= 1
    ensures TextOf(before + added) == TextOf(before) + if |added| == 1 && added[0].Line? then [added[0].text] else []
  {
    if added == [] {
      assert before + added == before;
    } else {
      assert (before + added)[..|before|] == before;
    }
  }

  /** An end marker that closes a payload reports the payload's own lines: those
      after the latest start marker, none of which is a marker. */
  lemma CountIsPayload(lines: seq<string>, s: nat, e: nat)
    requires s < e < |lines| && IsStart(lines[s]) && IsEnd(lines[e])
    requires forall k | s < k < e :: !IsStart(lines[k]) && !IsEnd(lines[k])
    ensures ItemsOf(lines, e) == [Omitted(e - s - 1)]
    ensures forall k | s < k < e :: ItemsOf(lines, k) == []
  {
    forall k | s < k <= e
      ensures LastMarker(lines, k) == s
    {
      LastMarkerIs(lines, k);
    }
    assert START != END;
  }
}
