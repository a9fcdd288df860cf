/** Flat JSON objects of strings: what json.Marshal writes for a map of strings, and
    what json.Unmarshal reads, with strings as in section 7 of RFC 8259. */
module Json {
  import opened Text

  // ----- Writing

  function HexDigit(n: nat): char
    requires n < 16
  {
    if n < 10 then (n + '0' as int) as char else (n - 10 + 'a' as int) as char
  }

  /** The letter of a two-character escape sequence. */
  function ShortEscape(c: char): Option<char> {
    if c == '"' || c == '\\' then Some(c)
    else if c == '\n' then Some('n')
    else if c == '\r' then Some('r')
    else if c == '\t' then Some('t')
    else if c == '\U{08}' then Some('b')
    else if c == '\U{0C}' then Some('f')
    else None
  }

  /** The digits of a longer one: for the other control characters, which JSON
      requires, and for a few more that json.Marshal escapes for HTML's sake. */
  function LongEscape(c: char): Option<string> {
    if c < ' ' || c == '<' || c == '>' || c == '&' then Some("00" + [HexDigit(c as int / 16), HexDigit(c as int % 16)])
    else if c == '\U{2028}' then Some("2028")
    else if c == '\U{2029}' then Some("2029")
    else None
  }

  function EscapeChar(c: char): string {
    if ShortEscape(c).Some? then "\\" + [ShortEscape(c).value]
    else if LongEscape(c).Some? then "\\u" + LongEscape(c).value
    else [c]
  }

  function Escape(s: string): string {
    if s == "" then "" else EscapeChar(s[0]) + Escape(s[1..])
  }

  function Quote(s: string): string {
    "\"" + Escape(s) + "\""
  }

  // ----- Reading

  /** A value read from the front of a text, and the rest of the text. */
  datatype Read<T> = Read(value: T, rest: string)

  function HexValue(c: char): int {
    if '0' <= c <= '9' then c as int - '0' as int
    else if 'a' <= c <= 'f' then c as int - 'a' as int + 10
    else if 'A' <= c <= 'F' then c as int - 'A' as int + 10
    else -1
  }

  /** The code unit of \uXXXX when s starts with its four digits, or -1. */
  function CodeUnit(s: string): (u: int)
    ensures -1 <= u < 0x10000
    ensures u >= 0 ==> |s| >= 4
  {
    if |s| < 4 || HexValue(s[0]) < 0 || HexValue(s[1]) < 0 || HexValue(s[2]) < 0 || HexValue(s[3]) < 0 then -1
    else ((HexValue(s[0]) * 16 + HexValue(s[1])) * 16 + HexValue(s[2])) * 16 + HexValue(s[3])
  }

  const REPLACEMENT := '\U{FFFD}'

  /** A \u escape, s being what follows the u: one character, from a surrogate pair if
      there is one; a lone surrogate becomes the replacement character. */
  function ReadUnicode(s: string): (r: Option<Read<char>>)
    ensures r.Some? ==> |r.value.rest| < |s|
  {
    var u := CodeUnit(s);
    if u < 0 then None
    else if u < 0xD800 || 0xE000 <= u then Some(Read(u as char, s[4..]))
    else
      var low := if |s| >= 6 && s[4] == '\\' && s[5] == 'u' then CodeUnit(s[6..]) else -1;
      if u < 0xDC00 && 0xDC00 <= low < 0xE000
      then Some(Read((0x10000 + (u - 0xD800) * 0x400 + (low - 0xDC00)) as char, s[10..]))
      else Some(Read(REPLACEMENT, s[4..]))
  }

  /** An escape sequence, s being what follows the backslash. */
  function ReadEscape(s: string): (r: Option<Read<char>>)
    ensures r.Some? ==> |r.value.rest| < |s|
  {
    if s == "" then None
    else
      var c := s[0];
      if c == '"' || c == '\\' || c == '/' then Some(Read(c, s[1..]))
      else if c == 'n' then Some(Read('\n', s[1..]))
      else if c == 'r' then Some(Read('\r', s[1..]))
      else if c == 't' then Some(Read('\t', s[1..]))
      else if c == 'b' then Some(Read('\U{08}', s[1..]))
      else if c == 'f' then Some(Read('\U{0C}', s[1..]))
      else if c == 'u' then ReadUnicode(s[1..])
      else None
  }

  /** A string literal, s being what follows the opening quote; acc is what has been
      read of it. */
  function ReadString(s: string, acc: string): (r: Option<Read<string>>)
    ensures r.Some? ==> |r.value.rest| < |s|
    decreases |s|
  {
    if s == "" then None
    else if s[0] == '"' then Some(Read(acc, s[1..]))
    else if s[0] < ' ' then None
    else if s[0] == '\\' then
      match ReadEscape(s[1..])
      case None => None
      case Some(e) => ReadString(e.rest, acc + [e.value])
    else ReadString(s[1..], acc + [s[0]])
  }

  predicate IsJsonSpace(c: char) {
    c == ' ' || c == '\t' || c == '\n' || c == '\r'
  }

  function SkipSpace(s: string): (t: string)
    ensures |t| <= |s|
  {
    if s != "" && IsJsonSpace(s[0]) then SkipSpace(s[1..]) else s
  }

  /** The character c after white space. */
  function Expect(s: string, c: char): (r: Option<string>)
    ensures r.Some? ==> |r.value| < |s|
  {
    var t := SkipSpace(s);
    if t != "" && t[0] == c then Some(t[1..]) else None
  }

  function ReadQuoted(s: string): (r: Option<Read<string>>)
    ensures r.Some? ==> |r.value.rest| < |s|
  {
    match Expect(s, '"')
    case None => None
    case Some(t) => ReadString(t, "")
  }

  /** A name and its value. */
  function ReadMember(s: string): (r: Option<Read<(string, string)>>)
    ensures r.Some? ==> |r.value.rest| < |s|
  {
    match ReadQuoted(s)
    case None => None
    case Some(name) =>
      match Expect(name.rest, ':')
      case None => None
      case Some(t) =>
        match ReadQuoted(t)
        case None => None
        case Some(value) => Some(Read((name.value, value.value), value.rest))
  }

  /** An object: its members, no two with one name. */
  type Object = seq<(string, string)>

  /** A later member replaces an earlier one of the same name. */
  function Override(obj: Object, name: string, value: string): Object {
    if obj == [] then [(name, value)]
    else if obj[0].0 == name then [(name, value)] + obj[1..]
    else [obj[0]] + Override(obj[1..], name, value)
  }

  function Lookup(obj: Object, name: string): Option<string> {
    if obj == [] then None
    else if obj[0].0 == name then Some(obj[0].1)
    else Lookup(obj[1..], name)
  }

  /** Members up to the closing brace. */
  function ReadMembers(s: string, acc: Object): Option<Read<Object>>
    decreases |s|
  {
    match ReadMember(s)
    case None => None
    case Some(m) =>
      var obj := Override(acc, m.value.0, m.value.1);
      match Expect(m.rest, ',')
      case Some(t) => ReadMembers(t, obj)
      case None =>
        match Expect(m.rest, '}')
        case Some(t) => Some(Read(obj, t))
        case None => None
  }

  function ReadObject(s: string): Option<Read<Object>> {
    match Expect(s, '{')
    case None => None
    case Some(t) =>
      match Expect(t, '}')
      case Some(u) => Some(Read([], u))
      case None => ReadMembers(t, [])
  }

  /** json.Unmarshal: one object and nothing else but white space. */
  function Unmarshal(s: string): Option<Object> {
    match ReadObject(s)
    case None => None
    case Some(o) => if SkipSpace(o.rest) == "" then Some(o.value) else None
  }

  // ----- A written string is read back

  lemma DigitsRoundTrip(c: char, rest: string)
    requires LongEscape(c).Some?
    ensures ReadUnicode(LongEscape(c).value + rest) == Some(Read(c, rest))
  {
    var digits := LongEscape(c).value;
    var s := digits + rest;
    assert s[0] == digits[0] && s[1] == digits[1] && s[2] == digits[2] && s[3] == digits[3] && s[4..] == rest;
    if c as int < 0x100 {
      assert HexValue(HexDigit(c as int / 16)) == c as int / 16;
      assert HexValue(HexDigit(c as int % 16)) == c as int % 16;
    }
    assert CodeUnit(s) == c as int;
  }

  lemma LongRoundTrip(c: char, text: string, rest: string, acc: string)
    requires ReadUnicode(text) == Some(Read(c, rest))
    ensures ReadString("\\u" + text, acc) == ReadString(rest, acc + [c])
  {
    assert ("\\u" + text)[1..] == "u" + text && ("u" + text)[1..] == text;
  }

  lemma ShortRoundTrip(c: char, e: char, rest: string, acc: string)
    requires ShortEscape(c) == Some(e)
    ensures ReadString("\\" + [e] + rest, acc) == ReadString(rest, acc + [c])
  {
    var s := "\\" + [e] + rest;
    assert s[1..] == [e] + rest && s[1..][1..] == rest;
  }

  lemma CharRoundTrip(c: char, rest: string, acc: string)
    ensures ReadString(EscapeChar(c) + rest, acc) == ReadString(rest, acc + [c])
  {
    if ShortEscape(c).Some? {
      ShortRoundTrip(c, ShortEscape(c).value, rest, acc);
    } else if LongEscape(c).Some? {
      DigitsRoundTrip(c, rest);
      LongRoundTrip(c, LongEscape(c).value + rest, rest, acc);
      Associative("\\u", LongEscape(c).value, rest);
    } else {
      assert ([c] + rest)[1..] == rest;
    }
  }

  lemma {:induction false} StringRoundTrip(v: string, rest: string, acc: string)
    ensures ReadString(Escape(v) + "\"" + rest, acc) == Some(Read(acc + v, rest))
  {
    if v == "" {
      assert Escape(v) + "\"" + rest == "\"" + rest;
      assert ("\"" + rest)[1..] == rest;
      assert acc + v == acc;
    } else {
      var tail := Escape(v[1..]) + "\"" + rest;
      assert Escape(v) + "\"" + rest == EscapeChar(v[0]) + tail;
      CharRoundTrip(v[0], tail, acc);
      StringRoundTrip(v[1..], rest, acc + [v[0]]);
      assert acc + [v[0]] + v[1..] == acc + v;
    }
  }

  lemma QuoteRoundTrip(v: string, rest: string)
    ensures ReadQuoted(Quote(v) + rest) == Some(Read(v, rest))
  {
    var s := Escape(v) + "\"" + rest;
    assert Quote(v) + rest == "\"" + s;
    assert ("\"" + s)[1..] == s;
    StringRoundTrip(v, rest, "");
    assert "" + v == v;
  }

  /** Name and value as json.Marshal writes them, before the text t. */
  lemma MemberRoundTrip(name: string, value: string, t: string)
    ensures ReadMember(Quote(name) + ":" + Quote(value) + t) == Some(Read((name, value), t))
  {
    var u := Quote(value) + t;
    assert Quote(name) + ":" + Quote(value) + t == Quote(name) + (":" + u);
    QuoteRoundTrip(name, ":" + u);
    ExpectHere(':', u, ':');
    QuoteRoundTrip(value, t);
  }

  function Object1(name: string, value: string): string {
    "{" + Quote(name) + ":" + Quote(value) + "}"
  }

  function Object2(n1: string, v1: string, n2: string, v2: string): string {
    "{" + Quote(n1) + ":" + Quote(v1) + "," + Quote(n2) + ":" + Quote(v2) + "}"
  }

  lemma ExpectHere(c: char, t: string, d: char)
    requires !IsJsonSpace(c)
    ensures Expect([c] + t, d) == if c == d then Some(t) else None
  {
    assert ([c] + t)[1..] == t;
  }

  lemma LastMember(name: string, value: string, acc: Object)
    ensures ReadMembers(Quote(name) + ":" + Quote(value) + "}", acc) == Some(Read(Override(acc, name, value), ""))
  {
    MemberRoundTrip(name, value, "}");
    ExpectHere('}', "", ',');
    ExpectHere('}', "", '}');
    assert ['}'] + "" == "}";
  }

  lemma FirstMember(name: string, value: string, u: string)
    ensures ReadMembers(Quote(name) + ":" + Quote(value) + ("," + u), []) == ReadMembers(u, [(name, value)])
  {
    MemberRoundTrip(name, value, "," + u);
    ExpectHere(',', u, ',');
  }

  lemma OpenObject(t: string)
    requires t != "" && t[0] == '"'
    ensures ReadObject("{" + t) == ReadMembers(t, [])
  {
    ExpectHere('{', t, '{');
    assert t == ['"'] + t[1..];
    ExpectHere('"', t[1..], '}');
  }

  lemma Object1RoundTrip(name: string, value: string)
    ensures ReadObject(Object1(name, value)) == Some(Read([(name, value)], ""))
  {
    var t := Quote(name) + ":" + Quote(value) + "}";
    assert Object1(name, value) == "{" + t;
    OpenObject(t);
    LastMember(name, value, []);
  }

  lemma Regroup(a: string, b: string, c: string, d: string)
    ensures "{" + a + ":" + b + "," + c + ":" + d + "}" == "{" + (a + ":" + b + ("," + (c + ":" + d + "}")))
  {}

  lemma Object2RoundTrip(n1: string, v1: string, n2: string, v2: string)
    requires n1 != n2
    ensures ReadObject(Object2(n1, v1, n2, v2)) == Some(Read([(n1, v1), (n2, v2)], ""))
  {
    var u := Quote(n2) + ":" + Quote(v2) + "}";
    Regroup(Quote(n1), Quote(v1), Quote(n2), Quote(v2));
    OpenObject(Quote(n1) + ":" + Quote(v1) + ("," + u));
    FirstMember(n1, v1, u);
    LastMember(n2, v2, [(n1, v1)]);
    assert [(n1, v1)][1..] == [];
    assert Override([(n1, v1)], n2, v2) == [(n1, v1), (n2, v2)];
  }

  // ----- Reading does not look past what it reads

  lemma CodeUnitExtends(s: string, t: string)
    requires CodeUnit(s) >= 0
    ensures CodeUnit(s + t) == CodeUnit(s)
  {}

  lemma {:induction false} SkipExtends(s: string, t: string)
    requires SkipSpace(s) != ""
    ensures SkipSpace(s + t) == SkipSpace(s) + t
  {
    if s != "" && IsJsonSpace(s[0]) {
      assert (s + t)[1..] == s[1..] + t;
      SkipExtends(s[1..], t);
    }
  }

  lemma {:induction false} SkipBlank(s: string, t: string)
    requires SkipSpace(s) == ""
    ensures SkipSpace(s + t) == SkipSpace(t)
  {
    if s == "" {
      assert s + t == t;
    } else {
      assert (s + t)[1..] == s[1..] + t;
      SkipBlank(s[1..], t);
    }
  }

  /** What Expect finds, it finds in a longer text too; and what it does not find
      where there is something else, it does not find there either. */
  lemma ExpectExtends(s: string, c: char, t: string)
    requires SkipSpace(s) != ""
    ensures Expect(s, c).Some? ==> Expect(s + t, c) == Some(Expect(s, c).value + t)
    ensures Expect(s, c).None? ==> Expect(s + t, c) == None
  {
    SkipExtends(s, t);
    var u := SkipSpace(s);
    assert (u + t)[0] == u[0] && (u + t)[1..] == u[1..] + t;
  }

  /** x follows a backslash and a u in a string that is read to its end. */
  lemma UnicodeExtends(x: string, acc: string, t: string)
    requires ReadUnicode(x).Some? && ReadString(ReadUnicode(x).value.rest, acc).Some?
    ensures ReadUnicode(x + t) == Some(Read(ReadUnicode(x).value.value, ReadUnicode(x).value.rest + t))
  {
    hide CodeUnit, HexValue;
    CodeUnitExtends(x, t);
    var rest := x[4..];
    assert (x + t)[4..] == rest + t;
    if 0xD800 <= CodeUnit(x) < 0xE000 && |x| >= 6 {
      assert (x + t)[6..] == x[6..] + t;
      if x[4] == '\\' && x[5] == 'u' {
        assert rest[1..][1..] == x[6..];
        assert CodeUnit(x[6..]) >= 0;
        CodeUnitExtends(x[6..], t);
        if |x| >= 10 { assert (x + t)[10..] == x[10..] + t; }
      }
    } else if 0xD800 <= CodeUnit(x) < 0xE000 {
      assert rest != "";
      assert |rest| == 1;
      assert rest[1..] == "";
    }
  }

  lemma EscapeExtends(s: string, acc: string, t: string)
    requires ReadEscape(s).Some? && ReadString(ReadEscape(s).value.rest, acc).Some?
    ensures ReadEscape(s + t) == Some(Read(ReadEscape(s).value.value, ReadEscape(s).value.rest + t))
  {
    assert (s + t)[1..] == s[1..] + t;
    if s[0] == 'u' {
      UnicodeExtends(s[1..], acc, t);
    }
  }

  lemma {:induction false} StringExtends(s: string, acc: string, t: string)
    requires ReadString(s, acc).Some?
    ensures ReadString(s + t, acc) == Some(Read(ReadString(s, acc).value.value, ReadString(s, acc).value.rest + t))
    decreases |s|
  {
    assert (s + t)[1..] == s[1..] + t;
    if s[0] != '"' {
      if s[0] == '\\' {
        var e := ReadEscape(s[1..]).value;
        EscapeExtends(s[1..], acc + [e.value], t);
        StringExtends(e.rest, acc + [e.value], t);
      } else {
        StringExtends(s[1..], acc + [s[0]], t);
      }
    }
  }

  lemma QuotedExtends(s: string, t: string)
    requires ReadQuoted(s).Some?
    ensures ReadQuoted(s + t) == Some(Read(ReadQuoted(s).value.value, ReadQuoted(s).value.rest + t))
  {
    ExpectExtends(s, '"', t);
    StringExtends(Expect(s, '"').value, "", t);
  }

  lemma MemberExtends(s: string, t: string)
    requires ReadMember(s).Some?
    ensures ReadMember(s + t) == Some(Read(ReadMember(s).value.value, ReadMember(s).value.rest + t))
  {
    var name := ReadQuoted(s).value;
    QuotedExtends(s, t);
    ExpectExtends(name.rest, ':', t);
    QuotedExtends(Expect(name.rest, ':').value, t);
  }

  lemma {:induction false} MembersExtend(s: string, acc: Object, t: string)
    requires ReadMembers(s, acc).Some?
    ensures ReadMembers(s + t, acc) == Some(Read(ReadMembers(s, acc).value.value, ReadMembers(s, acc).value.rest + t))
    decreases |s|
  {
    var m := ReadMember(s).value;
    MemberExtends(s, t);
    ExpectExtends(m.rest, ',', t);
    if Expect(m.rest, ',').Some? {
      MembersExtend(Expect(m.rest, ',').value, Override(acc, m.value.0, m.value.1), t);
    } else {
      ExpectExtends(m.rest, '}', t);
    }
  }

  lemma ObjectExtends(s: string, t: string)
    requires ReadObject(s).Some?
    ensures ReadObject(s + t) == Some(Read(ReadObject(s).value.value, ReadObject(s).value.rest + t))
  {
    var u := Expect(s, '{').value;
    ExpectExtends(s, '{', t);
    if SkipSpace(u) != "" {
      ExpectExtends(u, '}', t);
    }
    if Expect(u, '}').None? {
      MembersExtend(u, [], t);
    }
  }

  /** A text that goes on after an object is not an object, unless with white space. */
  lemma NoObjectInFront(s: string, t: string)
    requires Unmarshal(s).Some? && SkipSpace(t) != ""
    ensures Unmarshal(s + t) == None
  {
    ObjectExtends(s, t);
    SkipBlank(ReadObject(s).value.rest, t);
  }
}
