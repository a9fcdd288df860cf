/** Go's bufio.Scanner splitting a stream into lines, with its token limit. */
module LineScanner {

  /** The lines scanned, and whether the scan stopped at a line over the limit. */
  datatype Scan = Scan(lines: seq<string>, tooLong: bool)

  /** bytes.IndexByte for the newline: its first position, or |s| when there is none. */
  function LineEnd(s: string): (n: nat)
    ensures n <= |s|
  {
    if s == "" || s[0] == '\n' then 0 else LineEnd(s[1..]) + 1
  }

  lemma {:induction false} LineEndCut(s: string)
    ensures var n := LineEnd(s); '\n' !in s[..n] && (n < |s| ==> s[n] == '\n')
  {
    if s != "" && s[0] != '\n' {
      LineEndCut(s[1..]);
      var n := LineEnd(s);
      assert s[..n] == [s[0]] + s[1..][..n - 1];
    }
  }

  lemma {:induction false} LineEndAt(line: string, rest: string)
    requires '\n' !in line
    ensures LineEnd(line + "\n" + rest) == |line|
  {
    if line == "" {
      assert line + "\n" + rest == "\n" + rest;
    } else {
      assert (line + "\n" + rest)[1..] == line[1..] + "\n" + rest;
      LineEndAt(line[1..], rest);
    }
  }

  lemma {:induction false} LineEndNone(line: string)
    requires '\n' !in line
    ensures LineEnd(line) == |line|
  {
    if line != "" {
      LineEndNone(line[1..]);
    }
  }

  function DropCR(line: string): string {
    if line != "" && line[|line| - 1] == '\r' then line[..|line| - 1] else line
  }

  /** A line is delivered when it is shorter than the buffer, so that its end of
      line (or the end of the stream) is seen before the buffer is full. */
  function ScanLines(s: string, max: nat): (r: Scan)
    decreases |s|
  {
    var n := LineEnd(s);
    if s == "" then Scan([], false)
    else if n >= max then Scan([], true)
    else
      var rest := ScanLines(if n == |s| then "" else s[n + 1..], max);
      Scan([DropCR(s[..n])] + rest.lines, rest.tooLong)
  }
}
