/** The line-preserving log forwarding of the harness: lineWriter, which cuts an
    ssh stream into whole lines, and the agent's scanner loop, which it mirrors. */
module LineForwarding {
  import opened Text
  import opened LineScanner

  const AGENT_SCANNER_LIMIT: nat := 4 * 1024 * 1024

  /** An io.Writer that records each successful write. Which attempts fail is not
      known: fails is arbitrary. */
  class Sink {
    const fails: nat -> bool
    var attempts: nat
    var writes: seq<string>

    constructor (fails: nat -> bool)
      ensures this.fails == fails && attempts == 0 && writes == []
    {
      this.fails := fails;
      attempts, writes := 0, [];
    }

    method Write(p: string) returns (ok: bool)
      modifies this
      ensures attempts == old(attempts) + 1 && ok == !fails(old(attempts))
      ensures ok ==> writes == old(writes) + [p]
      ensures !ok ==> writes == old(writes)
    {
      ok := !fails(attempts);
      attempts := attempts + 1;
      if ok {
        writes := writes + [p];
      }
    }
  }

  class LineWriter {
    const w: Sink
    var buf: string

    constructor (w: Sink)
      ensures this.w == w && buf == ""
    {
      this.w, buf := w, "";
    }

    method Write(p: string) returns (n: nat, ok: bool)
      modifies this, w
      ensures n == |p|
      ensures Pending(buf, w.writes, w.attempts, ok)
           == Drain(Pending(old(buf) + p, old(w.writes), old(w.attempts), true), w.fails)
    {
      buf := buf + p;
      ghost var end := Drain(Pending(buf, w.writes, w.attempts, true), w.fails);
      while true
        invariant Drain(Pending(buf, w.writes, w.attempts, true), w.fails) == end
        decreases |buf|
      {
        var i := LineEnd(buf);
        if i == |buf| {
          break;
        }
        var line, rest := buf[..i + 1], buf[i + 1..];
        DrainStep(Pending(buf, w.writes, w.attempts, true), line, rest, w.fails);
        var sent := w.Write(line);
        if !sent {
          return |p|, false;
        }
        buf := rest;
      }
      return |p|, true;
    }

    method Flush() returns (ok: bool)
      modifies this, w
      ensures buf == ""
      ensures old(buf) == "" ==> ok && w.writes == old(w.writes) && w.attempts == old(w.attempts)
      ensures old(buf) != "" ==> ok == !w.fails(old(w.attempts)) && w.attempts == old(w.attempts) + 1
      ensures old(buf) != "" ==> w.writes == old(w.writes) + if ok then [old(buf)] else []
    {
      if |buf| == 0 {
        return true;
      }
      ok := w.Write(buf);
      buf := "";
    }
  }

  /** A line writer and its sink: what is buffered, what has been written in how
      many attempts, and whether the last call got through without a sink error. */
  datatype Pending = Pending(buf: string, writes: seq<string>, attempts: nat, ok: bool)

  /** What one Write does once the new bytes are in the buffer. */
  function Drain(s: Pending, fails: nat -> bool): Pending
    decreases |s.buf|
  {
    var i := LineEnd(s.buf);
    if i == |s.buf| then s.(ok := true)
    else if fails(s.attempts) then s.(attempts := s.attempts + 1, ok := false)
    else Drain(Pending(s.buf[i + 1..], s.writes + [s.buf[..i + 1]], s.attempts + 1, true), fails)
  }

  lemma DrainStep(s: Pending, line: string, rest: string, fails: nat -> bool)
    requires LineEnd(s.buf) < |s.buf|
    requires line == s.buf[..LineEnd(s.buf) + 1] && rest == s.buf[LineEnd(s.buf) + 1..]
    ensures Drain(s, fails) == if fails(s.attempts) then s.(attempts := s.attempts + 1, ok := false)
              else Drain(Pending(rest, s.writes + [line], s.attempts + 1, true), fails)
  {}

  function Concat(parts: seq<string>): string {
    if parts == [] then "" else parts[0] + Concat(parts[1..])
  }

  lemma {:induction false} ConcatAppend(a: seq<string>, b: seq<string>)
    ensures Concat(a + b) == Concat(a) + Concat(b)
  {
    if a == [] {
      assert a + b == b;
    } else {
      assert (a + b)[1..] == a[1..] + b;
      ConcatAppend(a[1..], b);
    }
  }

  /** Exactly one newline, at the end. */
  predicate WholeLine(p: string) {
    p != "" && p[|p| - 1] == '\n' && '\n' !in p[..|p| - 1]
  }

  /** Bytes are neither lost, repeated nor reordered, whatever the sink does: a
      failed write leaves its line in the buffer. */
  lemma {:induction false} DrainConserves(s: Pending, fails: nat -> bool)
    ensures Concat(Drain(s, fails).writes) + Drain(s, fails).buf == Concat(s.writes) + s.buf
    decreases |s.buf|
  {
    var i := LineEnd(s.buf);
    if i < |s.buf| && !fails(s.attempts) {
      var line, rest := s.buf[..i + 1], s.buf[i + 1..];
      DrainConserves(Pending(rest, s.writes + [line], s.attempts + 1, true), fails);
      DrainStep(s, line, rest, fails);
      MoveLine(s.writes, line, rest, s.buf);
    }
  }

  lemma MoveLine(writes: seq<string>, line: string, rest: string, buf: string)
    requires buf == line + rest
    ensures Concat(writes + [line]) + rest == Concat(writes) + buf
  {
    ConcatAppend(writes, [line]);
    assert Concat([line]) == line + "" == line;
    Associative(Concat(writes), line, rest);
  }

  predicate WholeLines(writes: seq<string>) {
    forall p | p in writes :: WholeLine(p)
  }

  /** Only whole lines are written, and a call succeeds exactly when no whole line
      stays behind. */
  lemma {:induction false} DrainWritesLines(s: Pending, fails: nat -> bool)
    requires WholeLines(s.writes)
    ensures WholeLines(Drain(s, fails).writes)
    ensures Drain(s, fails).ok <==> '\n' !in Drain(s, fails).buf
    decreases |s.buf|
  {
    LineEndCut(s.buf);
    var i := LineEnd(s.buf);
    if i == |s.buf| {
      assert s.buf[..i] == s.buf;
    } else if !fails(s.attempts) {
      assert s.buf[..i + 1][..i] == s.buf[..i];
      DrainWritesLines(Pending(s.buf[i + 1..], s.writes + [s.buf[..i + 1]], s.attempts + 1, true), fails);
    }
  }

  /** A stream of Write calls, which may go on after an error. */
  function Feed(chunks: seq<string>, s: Pending, fails: nat -> bool): Pending {
    if chunks == [] then s
    else Feed(chunks[1..], Drain(s.(buf := s.buf + chunks[0]), fails), fails)
  }

  /** Conservation over any sequence of writes into any sink, failures included. */
  lemma {:induction false} FeedConserves(chunks: seq<string>, s: Pending, fails: nat -> bool)
    requires WholeLines(s.writes)
    ensures Concat(Feed(chunks, s, fails).writes) + Feed(chunks, s, fails).buf
         == Concat(s.writes) + s.buf + Concat(chunks)
    ensures WholeLines(Feed(chunks, s, fails).writes)
  {
    if chunks != [] {
      var next := s.(buf := s.buf + chunks[0]);
      DrainConserves(next, fails);
      DrainWritesLines(next, fails);
      FeedConserves(chunks[1..], Drain(next, fails), fails);
      Regroup(Concat(s.writes), s.buf, chunks[0], Concat(chunks[1..]));
    }
  }

  lemma Regroup(writes: string, buf: string, chunk: string, more: string)
    ensures writes + (buf + chunk) + more == writes + buf + (chunk + more)
  {}

  const FRESH := Pending("", [], 0, true)

  /** The writes a sink has seen after the final Flush. */
  function Flushed(s: Pending): seq<string> {
    s.writes + if s.buf == "" then [] else [s.buf]
  }

  /** A stream cut after each newline: every piece but the last is a whole line,
      and the last is a whole line or a nonempty text without a newline. */
  ghost predicate CutAtNewlines(pieces: seq<string>, stream: string) {
    && Concat(pieces) == stream
    && (forall i | 0 <= i < |pieces| - 1 :: WholeLine(pieces[i]))
    && (pieces != [] ==> var p := pieces[|pieces| - 1]; WholeLine(p) || (p != "" && '\n' !in p))
  }

  /** A stream can be cut in one way only. */
  lemma {:induction false} CutIsUnique(a: seq<string>, b: seq<string>, stream: string)
    requires CutAtNewlines(a, stream) && CutAtNewlines(b, stream)
    ensures a == b
  {
    if a == [] || b == [] {
    } else {
      FirstPiece(a, stream);
      FirstPiece(b, stream);
      assert a[0] == b[0];
      assert Concat(a[1..]) == stream[|a[0]|..] == Concat(b[1..]);
      CutIsUnique(a[1..], b[1..], stream[|a[0]|..]);
      assert a == [a[0]] + a[1..] && b == [b[0]] + b[1..];
    }
  }

  lemma {:induction false} FirstPiece(a: seq<string>, stream: string)
    requires CutAtNewlines(a, stream) && a != []
    ensures var n := LineEnd(stream);
            a[0] == if n == |stream| then stream else stream[..n + 1]
  {
    var p, rest := a[0], Concat(a[1..]);
    if WholeLine(p) {
      var line := p[..|p| - 1];
      assert stream == line + "\n" + rest;
      LineEndAt(line, rest);
    } else {
      assert |a| == 1 && rest == "";
      assert stream == p;
      LineEndNone(p);
    }
  }

  ghost predicate NeverFails(fails: nat -> bool) {
    forall k :: !fails(k)
  }

  /** Whatever the chunking, a sink that does not fail sees the stream cut at its
      newlines: one write per line, and one last write for a trailing partial line. */
  lemma {:induction false} WritesAreTheCut(chunks: seq<string>, fails: nat -> bool)
    requires NeverFails(fails)
    ensures CutAtNewlines(Flushed(Feed(chunks, FRESH, fails)), Concat(chunks))
  {
    FeedConserves(chunks, FRESH, fails);
    FeedKeepsPartialLine(chunks, FRESH, fails);
    assert "" + "" + Concat(chunks) == Concat(chunks);
    FlushCuts(Feed(chunks, FRESH, fails));
  }

  lemma FlushCuts(s: Pending)
    requires WholeLines(s.writes) && '\n' !in s.buf
    ensures CutAtNewlines(Flushed(s), Concat(s.writes) + s.buf)
  {
    if s.buf == "" {
      assert Flushed(s) == s.writes;
    } else {
      MoveLine(s.writes, s.buf, "", s.buf);
    }
  }

  lemma {:induction false} FeedKeepsPartialLine(chunks: seq<string>, s: Pending, fails: nat -> bool)
    requires NeverFails(fails) && '\n' !in s.buf && WholeLines(s.writes)
    ensures '\n' !in Feed(chunks, s, fails).buf
  {
    if chunks != [] {
      var next := s.(buf := s.buf + chunks[0]);
      DrainSucceeds(next, fails);
      DrainWritesLines(next, fails);
      FeedKeepsPartialLine(chunks[1..], Drain(next, fails), fails);
    }
  }

  lemma {:induction false} DrainSucceeds(s: Pending, fails: nat -> bool)
    requires NeverFails(fails)
    ensures Drain(s, fails).ok
    decreases |s.buf|
  {
    var i := LineEnd(s.buf);
    if i != |s.buf| {
      DrainSucceeds(Pending(s.buf[i + 1..], s.writes + [s.buf[..i + 1]], s.attempts + 1, true), fails);
    }
  }

  /** The chunking of the stream cannot be observed by the sink. */
  lemma ChunkingDoesNotMatter(a: seq<string>, b: seq<string>, fails: nat -> bool)
    requires NeverFails(fails) && Concat(a) == Concat(b)
    ensures Flushed(Feed(a, FRESH, fails)) == Flushed(Feed(b, FRESH, fails))
  {
    WritesAreTheCut(a, fails);
    WritesAreTheCut(b, fails);
    CutIsUnique(Flushed(Feed(a, FRESH, fails)), Flushed(Feed(b, FRESH, fails)), Concat(a));
  }

  lemma NothingConcat()
    ensures Concat([]) == ""
  {}

  lemma ConcatSnoc(chunks: seq<string>, k: nat)
    requires k < |chunks|
    ensures Concat(chunks[..k + 1]) == Concat(chunks[..k]) + chunks[k]
  {
    assert chunks[..k + 1] == chunks[..k] + [chunks[k]];
    ConcatAppend(chunks[..k], [chunks[k]]);
    assert Concat([chunks[k]]) == chunks[k] + "" == chunks[k];
  }

  lemma GotThrough(writes: seq<string>, buf: string, chunks: seq<string>, k: nat)
    requires k <= |chunks| && Concat(writes) + buf == Concat(chunks[..k])
    ensures Concat(writes) <= Concat(chunks) && Concat(writes + [buf]) <= Concat(chunks)
  {
    assert chunks[..k] + chunks[k..] == chunks;
    ConcatAppend(chunks[..k], chunks[k..]);
    ConcatAppend(writes, [buf]);
    assert Concat([buf]) == buf + "" == buf;
    Associative(Concat(writes), buf, Concat(chunks[k..]));
  }

  /** A stream copied through a line writer into a fresh sink, up to the first error, and
      flushed. What gets through is always the beginning of the stream; without errors it
      is all of it, line by line. */
  method ForwardStream(chunks: seq<string>, sink: Sink)
    requires sink.attempts == 0 && sink.writes == []
    modifies sink
    ensures Concat(sink.writes) <= Concat(chunks)
    ensures NeverFails(sink.fails) ==> sink.writes == Flushed(Feed(chunks, FRESH, sink.fails))
    ensures NeverFails(sink.fails) ==> CutAtNewlines(sink.writes, Concat(chunks))
  {
    hide Concat, Drain, CutAtNewlines;
    NothingConcat();
    var lw := new LineWriter(sink);
    var k, copying := 0, true;
    while copying && k < |chunks|
      invariant k <= |chunks| && lw.w == sink && fresh(lw)
      invariant Concat(sink.writes) + lw.buf == Concat(chunks[..k])
      invariant NeverFails(sink.fails) ==> copying
      invariant copying ==>
                  Feed(chunks[k..], Pending(lw.buf, sink.writes, sink.attempts, true), sink.fails) == Feed(chunks, FRESH, sink.fails)
    {
      ghost var before := Pending(lw.buf + chunks[k], sink.writes, sink.attempts, true);
      DrainConserves(before, sink.fails);
      ConcatSnoc(chunks, k);
      if NeverFails(sink.fails) { DrainSucceeds(before, sink.fails); }
      assert chunks[k..][1..] == chunks[k + 1..];
      var _, ok := lw.Write(chunks[k]);
      copying, k := ok, k + 1;
    }
    GotThrough(sink.writes, lw.buf, chunks, k);
    if NeverFails(sink.fails) { WritesAreTheCut(chunks, sink.fails); }
    ghost var writes, buf := sink.writes, lw.buf;
    var _ := lw.Flush();
    assert sink.writes == writes || sink.writes == writes + [buf];
  }

  // ----- The agent's stdout loop

  /** What the loop has learnt from the lines it has read. */
  datatype Outcome = Outcome(usage: seq<real>, cost: real, lastLine: string)

  /** Each line goes out with its newline, in one write whose error is ignored. */
  function Forwarded(writes: seq<string>, attempts: nat, lines: seq<string>, fails: nat -> bool): seq<string>
    decreases |lines|
  {
    if lines == [] then writes
    else Forwarded(if fails(attempts) then writes else writes + [lines[0] + "\n"], attempts + 1, lines[1..], fails)
  }

  function Observe(out: Outcome, line: string, priced: bool, price: string -> Option<real>): Outcome {
    var next := if Trim(line) != "" then out.(lastLine := line) else out;
    var observed := if priced then price(line) else None;
    if observed.Some? then next.(usage := next.usage + [observed.value], cost := next.cost + observed.value) else next
  }

  function ObserveAll(out: Outcome, lines: seq<string>, priced: bool, price: string -> Option<real>): Outcome
    decreases |lines|
  {
    if lines == [] then out else ObserveAll(Observe(out, lines[0], priced, price), lines[1..], priced, price)
  }

  /** price gives the cost of a line that carries a priced usage observation. */
  method ForwardStdout(stream: string, sink: Sink, priced: bool, price: string -> Option<real>) returns (out: Outcome)
    modifies sink
    ensures var lines := ScanLines(stream, AGENT_SCANNER_LIMIT).lines;
            && sink.writes == Forwarded(old(sink.writes), old(sink.attempts), lines, sink.fails)
            && out == ObserveAll(Outcome([], 0.0, ""), lines, priced, price)
  {
    hide ScanLines, LineEnd, Trim;
    out := Outcome([], 0.0, "");
    var lines := ScanLines(stream, AGENT_SCANNER_LIMIT).lines;
    var k := 0;
    while k < |lines|
      invariant k <= |lines|
      invariant Forwarded(sink.writes, sink.attempts, lines[k..], sink.fails)
             == Forwarded(old(sink.writes), old(sink.attempts), lines, sink.fails)
      invariant ObserveAll(out, lines[k..], priced, price) == ObserveAll(Outcome([], 0.0, ""), lines, priced, price)
    {
      var line := lines[k];
      assert lines[k..][1..] == lines[k + 1..];
      k := k + 1;
      var _ := sink.Write(line + "\n");
      if Trim(line) != "" {
        out := out.(lastLine := line);
      }
      if !priced {
        continue;
      }
      var observed := price(line);
      if observed.Some? {
        out := out.(usage := out.usage + [observed.value], cost := out.cost + observed.value);
      }
    }
  }

  function Terminated(lines: seq<string>): (r: seq<string>)
    ensures |r| == |lines|
  {
    if lines == [] then [] else [lines[0] + "\n"] + Terminated(lines[1..])
  }

  lemma {:induction false} ForwardsEveryLine(writes: seq<string>, attempts: nat, lines: seq<string>, fails: nat -> bool)
    requires NeverFails(fails)
    ensures Forwarded(writes, attempts, lines, fails) == writes + Terminated(lines)
    decreases |lines|
  {
    if lines == [] {
      assert writes + [] == writes;
    } else {
      ForwardsEveryLine(writes + [lines[0] + "\n"], attempts + 1, lines[1..], fails);
      Associative(writes, [lines[0] + "\n"], Terminated(lines[1..]));
    }
  }

  function Sum(xs: seq<real>): real {
    if xs == [] then 0.0 else Sum(xs[..|xs| - 1]) + xs[|xs| - 1]
  }

  /** The costs of the priced lines, in order. */
  function Priced(lines: seq<string>, price: string -> Option<real>): seq<real> {
    if lines == [] then []
    else (if price(lines[0]).Some? then [price(lines[0]).value] else []) + Priced(lines[1..], price)
  }

  /** text is the last line that is not blank, if there is one. */
  ghost predicate LastNonBlank(lines: seq<string>, text: string, otherwise: string) {
    || ((forall i | 0 <= i < |lines| :: Trim(lines[i]) == "") && text == otherwise)
    || exists k :: && 0 <= k < |lines| && lines[k] == text && Trim(text) != ""
                   && forall i | k < i < |lines| :: Trim(lines[i]) == ""
  }

  /** Every priced line is counted once, the total is their sum, and the last line
      is the last one that says something. */
  lemma {:induction false} OutcomeOfLines(out: Outcome, lines: seq<string>, priced: bool, price: string -> Option<real>)
    requires out.cost == Sum(out.usage)
    ensures var r := ObserveAll(out, lines, priced, price);
            && r.usage == out.usage + (if priced then Priced(lines, price) else [])
            && r.cost == Sum(r.usage)
            && LastNonBlank(lines, r.lastLine, out.lastLine)
    decreases |lines|
  {
    hide Trim, LastNonBlank;
    if lines == [] {
      assert out.usage + [] == out.usage;
      NoneNonBlank(out.lastLine);
    } else {
      var next, r := Observe(out, lines[0], priced, price), ObserveAll(out, lines, priced, price);
      if priced && price(lines[0]).Some? {
        var cost := price(lines[0]).value;
        assert (out.usage + [cost])[..|out.usage|] == out.usage;
        Associative(out.usage, [cost], Priced(lines[1..], price));
      } else {
        assert [] + Priced(lines[1..], price) == Priced(lines[1..], price);
      }
      OutcomeOfLines(next, lines[1..], priced, price);
      LastOfTail(lines, r.lastLine, next.lastLine, out.lastLine);
    }
  }

  lemma NoneNonBlank(text: string)
    ensures LastNonBlank([], text, text)
  {}

  lemma LastOfTail(lines: seq<string>, text: string, afterHead: string, otherwise: string)
    requires lines != [] && LastNonBlank(lines[1..], text, afterHead)
    requires afterHead == if Trim(lines[0]) != "" then lines[0] else otherwise
    ensures LastNonBlank(lines, text, otherwise)
  {
    var rest := lines[1..];
    assert forall i | 1 <= i < |lines| :: lines[i] == rest[i - 1];
    if k :| 0 <= k < |rest| && rest[k] == text && Trim(text) != "" && forall i | k < i < |rest| :: Trim(rest[i]) == "" {
      assert lines[k + 1] == text;
      assert forall i | k + 1 < i < |lines| :: Trim(lines[i]) == "";
    }
  }

  /** A piece without its newline. */
  function Body(piece: string): string {
    if piece != "" && piece[|piece| - 1] == '\n' then piece[..|piece| - 1] else piece
  }

  /** The line is the piece without its newline and one carriage return before it. */
  predicate LineOf(line: string, piece: string) {
    Body(piece) == line + "\r" || (Body(piece) == line && (line == "" || line[|line| - 1] != '\r'))
  }

  /** The scanner delivers the lines of the cut stream, up to the first that is not shorter
      than its buffer. */
  lemma {:induction false} ScansTheCut(pieces: seq<string>, stream: string, max: nat)
    requires CutAtNewlines(pieces, stream)
    ensures var scan := ScanLines(stream, max);
            && |scan.lines| <= |pieces| && (scan.tooLong <==> |scan.lines| < |pieces|)
            && (forall i | 0 <= i < |scan.lines| :: LineOf(scan.lines[i], pieces[i]) && |Body(pieces[i])| < max)
            && (scan.tooLong ==> |Body(pieces[|scan.lines|])| >= max)
    decreases |pieces|
  {
    hide LineOf, Body;
    if pieces != [] {
      var n, rest := LineEnd(stream), Concat(pieces[1..]);
      FirstPiece(pieces, stream);
      FirstBody(pieces, stream);
      if n < max {
        ScansTheCut(pieces[1..], rest, max);
        var scan, more := ScanLines(stream, max), ScanLines(rest, max);
        assert scan.lines == [DropCR(stream[..n])] + more.lines && scan.tooLong == more.tooLong;
        assert forall i | 0 <= i < |more.lines| :: pieces[1..][i] == pieces[i + 1] && scan.lines[i + 1] == more.lines[i];
      }
    }
  }

  lemma FirstBody(pieces: seq<string>, stream: string)
    requires pieces != [] && CutAtNewlines(pieces, stream)
    ensures stream != "" && Body(pieces[0]) == stream[..LineEnd(stream)] && LineOf(DropCR(stream[..LineEnd(stream)]), pieces[0])
    ensures Concat(pieces[1..]) == if LineEnd(stream) == |stream| then "" else stream[LineEnd(stream) + 1..]
    ensures CutAtNewlines(pieces[1..], Concat(pieces[1..]))
  {
    FirstPiece(pieces, stream);
    LineEndCut(stream);
    hide LineOf, DropCR, LineEnd;
    var n, p := LineEnd(stream), pieces[0];
    assert stream == p + Concat(pieces[1..]);
    if n == |stream| {
      assert stream[..n] == stream && p == stream;
      assert '\n' !in stream && p[|p| - 1] in stream;
    } else {
      assert p[..n] == stream[..n];
    }
    LineOfBody(stream[..n], p);
  }

  lemma LineOfBody(line: string, piece: string)
    requires Body(piece) == line
    ensures LineOf(DropCR(line), piece)
  {
    if line != "" && line[|line| - 1] == '\r' {
      assert line == line[..|line| - 1] + "\r";
    }
  }

  /** The line writer's cut of a stream that the agent loop reproduces: every piece
      ends in a newline not preceded by a carriage return and fits the scanner. */
  predicate ScannerKeeps(piece: string, max: nat) {
    && piece != "" && piece[|piece| - 1] == '\n' && |piece| <= max
    && (|piece| >= 2 ==> piece[|piece| - 2] != '\r')
  }

  /** The two forwarders write the same sequence exactly on the streams made of
      newline-terminated lines without carriage returns at their ends and within
      the scanner's limit. */
  lemma {:induction false} ForwardersAgree(pieces: seq<string>, stream: string, max: nat)
    requires CutAtNewlines(pieces, stream)
    ensures Terminated(ScanLines(stream, max).lines) == pieces
       <==> forall p | p in pieces :: ScannerKeeps(p, max)
  {
    if pieces != [] {
      var p, rest := pieces[0], Concat(pieces[1..]);
      FirstPiece(pieces, stream);
      if LineEnd(stream) < max {
        FirstPieceAgrees(pieces, stream, max);
        ForwardersAgree(pieces[1..], rest, max);
      } else {
        OverLimit(stream, p, max);
      }
    }
  }

  lemma {:induction false} FirstPieceAgrees(pieces: seq<string>, stream: string, max: nat)
    requires pieces != [] && stream == pieces[0] + Concat(pieces[1..]) && stream != "" && LineEnd(stream) < max
    requires pieces[0] == if LineEnd(stream) == |stream| then stream else stream[..LineEnd(stream) + 1]
    ensures Terminated(ScanLines(stream, max).lines) == pieces
       <==> ScannerKeeps(pieces[0], max) && Terminated(ScanLines(Concat(pieces[1..]), max).lines) == pieces[1..]
  {
    LineEndCut(stream);
    LineKept(stream[..LineEnd(stream)], pieces[0], max);
  }

  lemma OverLimit(stream: string, p: string, max: nat)
    requires stream != "" && LineEnd(stream) >= max
    requires p == if LineEnd(stream) == |stream| then stream else stream[..LineEnd(stream) + 1]
    ensures !ScannerKeeps(p, max)
  {
    LineEndCut(stream);
    if LineEnd(stream) == |stream| {
      assert stream[..|stream|] == stream;
      assert stream[|stream| - 1] in stream;
    }
  }

  lemma LineKept(line: string, p: string, max: nat)
    requires |line| < max && '\n' !in line && p != ""
    requires p == line || p == line + "\n"
    ensures DropCR(line) + "\n" == p <==> ScannerKeeps(p, max)
  {
    var sent := DropCR(line) + "\n";
    assert sent[|sent| - 1] == '\n';
    if p == line {
      assert p[|p| - 1] in line;
    } else if line != "" && line[|line| - 1] == '\r' {
      assert |sent| < |p|;
    }
  }

  /** For any chunking of a stream: line writer and agent loop agree, or not. */
  lemma LineWriterMirrorsAgent(chunks: seq<string>, fails: nat -> bool)
    requires NeverFails(fails)
    ensures var writes := Flushed(Feed(chunks, FRESH, fails));
            var agent := Terminated(ScanLines(Concat(chunks), AGENT_SCANNER_LIMIT).lines);
            writes == agent <==> forall p | p in writes :: ScannerKeeps(p, AGENT_SCANNER_LIMIT)
  {
    WritesAreTheCut(chunks, fails);
    ForwardersAgree(Flushed(Feed(chunks, FRESH, fails)), Concat(chunks), AGENT_SCANNER_LIMIT);
  }
}
