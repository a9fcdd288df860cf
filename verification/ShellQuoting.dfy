/** The runner's shell quoting, against the quoting rules of the POSIX.1-2017
    Shell Command Language, sections 2.2 and 2.3. */
module ShellQuoting {
  import opened Text

  function ReplaceQuotes(value: string): string {
    if value == "" then ""
    else (if value[0] == '\'' then "'\"'\"'" else [value[0]]) + ReplaceQuotes(value[1..])
  }

  function ShellQuoteArg(value: string): string {
    "'" + ReplaceQuotes(value) + "'"
  }

  function Quoted(args: seq<string>): (r: seq<string>)
    ensures |r| == |args|
  {
    if args == [] then [] else [ShellQuoteArg(args[0])] + Quoted(args[1..])
  }

  lemma {:induction false} QuotedSnoc(args: seq<string>, arg: string)
    ensures Quoted(args + [arg]) == Quoted(args) + [ShellQuoteArg(arg)]
  {
    if args == [] {
      assert [arg][1..] == [];
      assert args + [arg] == [arg];
    } else {
      assert (args + [arg])[1..] == args[1..] + [arg];
      QuotedSnoc(args[1..], arg);
    }
  }

  method ShellJoin(args: seq<string>) returns (r: string)
    ensures r == Join(Quoted(args), " ")
    ensures Tokenize(r, Between, "", []) == Some(args)
  {
    var quoted := [];
    for i := 0 to |args|
      invariant quoted == Quoted(args[..i])
    {
      QuotedSnoc(args[..i], args[i]);
      assert args[..i + 1] == args[..i] + [args[i]];
      quoted := quoted + [ShellQuoteArg(args[i])];
    }
    assert args[..|args|] == args;
    JoinRoundTrip(args, []);
    assert [] + args == args;
    return Join(quoted, " ");
  }

  /** Where the tokeniser stands: between words, in an unquoted part of a word,
      or inside single (2.2.2) or double (2.2.3) quotes. */
  datatype Mode = Between | Bare | Single | Double

  /** Unquoted characters that start an operator, an expansion, a comment or a
      pattern: a text using one of them is more than a list of literal words. */
  predicate Special(c: char) {
    c in "|&;<>()$`*?[#~\n"
  }

  /** Token recognition (2.3) of one line of literal words, quotes removed; None
      when a quote is left open or an operator, expansion or pattern occurs. */
  function Tokenize(s: string, mode: Mode, word: string, words: seq<string>): Option<seq<string>>
    decreases |s|
  {
    if s == "" then
      match mode
      case Between => Some(words)
      case Bare => Some(words + [word])
      case _ => None
    else
      var c := s[0];
      match mode
      case Single =>
        if c == '\'' then Tokenize(s[1..], Bare, word, words)
        else Tokenize(s[1..], Single, word + [c], words)
      case Double =>
        if c == '"' then Tokenize(s[1..], Bare, word, words)
        else if c == '$' || c == '`' then None
        else if c == '\\' && |s| > 1 && s[1] in "$`\"\\" then Tokenize(s[2..], Double, word + [s[1]], words)
        else if c == '\\' && |s| > 1 && s[1] == '\n' then Tokenize(s[2..], Double, word, words)
        else Tokenize(s[1..], Double, word + [c], words)
      case _ =>
        if c == ' ' || c == '\t' then
          Tokenize(s[1..], Between, "", if mode == Bare then words + [word] else words)
        else if c == '\'' then Tokenize(s[1..], Single, word, words)
        else if c == '"' then Tokenize(s[1..], Double, word, words)
        else if c == '\\' then
          if |s| == 1 then None
          else if s[1] == '\n' then Tokenize(s[2..], mode, word, words)
          else Tokenize(s[2..], Bare, word + [s[1]], words)
        else if Special(c) then None
        else Tokenize(s[1..], Bare, word + [c], words)
  }

  /** A quote character moves between the modes and is itself removed. */
  lemma QuoteStep(rest: string, word: string, words: seq<string>)
    ensures Tokenize("'" + rest, Single, word, words) == Tokenize(rest, Bare, word, words)
    ensures Tokenize("'" + rest, Bare, word, words) == Tokenize(rest, Single, word, words)
    ensures Tokenize("\"" + rest, Bare, word, words) == Tokenize(rest, Double, word, words)
    ensures Tokenize("\"" + rest, Double, word, words) == Tokenize(rest, Bare, word, words)
  {
    assert ("'" + rest)[1..] == rest && ("\"" + rest)[1..] == rest;
  }

  /** A quoted single quote adds one character to the word. */
  lemma EscapeRoundTrip(tail: string, word: string, words: seq<string>)
    ensures Tokenize("'\"'\"'" + tail, Single, word, words) == Tokenize(tail, Single, word + ['\''], words)
  {
    var t1, t2, t3, t4 := "\"'\"'" + tail, "'\"'" + tail, "\"'" + tail, "'" + tail;
    assert "'\"'\"'" + tail == "'" + t1 && t1 == "\"" + t2 && t3 == "\"" + t4;
    assert t2[1..] == t3;
    QuoteStep(t1, word, words);
    QuoteStep(t2, word, words);
    assert Tokenize(t2, Double, word, words) == Tokenize(t3, Double, word + ['\''], words);
    QuoteStep(t4, word + ['\''], words);
    QuoteStep(tail, word + ['\''], words);
  }

  /** Inside the opening quote, the replaced value reads back as the value itself. */
  lemma {:induction false} BodyRoundTrip(value: string, rest: string, word: string, words: seq<string>)
    ensures Tokenize(ReplaceQuotes(value) + "'" + rest, Single, word, words)
         == Tokenize(rest, Bare, word + value, words)
  {
    if value == "" {
      assert ReplaceQuotes(value) + "'" + rest == "'" + rest;
      QuoteStep(rest, word, words);
      assert word + value == word;
    } else {
      var c, tail := value[0], ReplaceQuotes(value[1..]) + "'" + rest;
      BodyRoundTrip(value[1..], rest, word + [c], words);
      assert word + [c] + value[1..] == word + value;
      if c == '\'' {
        assert ReplaceQuotes(value) + "'" + rest == "'\"'\"'" + tail;
        EscapeRoundTrip(tail, word, words);
      } else {
        var text := [c] + tail;
        assert ReplaceQuotes(value) + "'" + rest == text && text[1..] == tail;
      }
    }
  }

  lemma {:induction false} JoinRoundTrip(args: seq<string>, words: seq<string>)
    ensures Tokenize(Join(Quoted(args), " "), Between, "", words) == Some(words + args)
  {
    if args == [] {
      assert words + args == words;
    } else {
      var body := ReplaceQuotes(args[0]);
      var tail := Join(Quoted(args[1..]), " ");
      var rest := if |args| == 1 then "" else " " + tail;
      var text := Join(Quoted(args), " ");
      assert Quoted(args)[1..] == Quoted(args[1..]);
      assert text == "'" + (body + "'" + rest);
      assert text[1..] == body + "'" + rest;
      BodyRoundTrip(args[0], rest, "", words);
      assert "" + args[0] == args[0];
      if |args| == 1 {
        assert args == [args[0]];
      } else {
        assert rest[1..] == tail;
        JoinRoundTrip(args[1..], words + [args[0]]);
        assert words + [args[0]] + args[1..] == words + args;
      }
    }
  }

  /** Tokenising the joined line gives back exactly the arguments. */
  lemma ShellJoinRoundTrip(args: seq<string>)
    ensures Tokenize(Join(Quoted(args), " "), Between, "", []) == Some(args)
  {
    JoinRoundTrip(args, []);
    assert [] + args == args;
  }
}
