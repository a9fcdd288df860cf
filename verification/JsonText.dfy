/** Which texts the JSON reader takes, and for which objects: those that section 2 and the
    sections after it of RFC 8259 allow for an object of strings, with any white space and
    any spelling of characters. */
module JsonText {
  import opened Text
  import opened Json

  // ----- Characters

  /** One character of a string and how it is written. */
  datatype Spelled = Spelled(text: string, value: char)

  function HexDigitValue(c: char): int {
    if '0' <= c <= '9' then c as int - '0' as int
    else if 'a' <= c <= 'f' then 10 + (c as int - 'a' as int)
    else if 'A' <= c <= 'F' then 10 + (c as int - 'A' as int)
    else -1
  }

  /** \u and four hexadecimal digits. */
  predicate Unit(text: string, u: int) {
    && |text| == 6 && text[0] == '\\' && text[1] == 'u'
    && (forall i | 2 <= i < 6 :: HexDigitValue(text[i]) >= 0)
    && u == HexDigitValue(text[2]) * 0x1000 + HexDigitValue(text[3]) * 0x100 + HexDigitValue(text[4]) * 0x10 + HexDigitValue(text[5])
  }

  /** The letter after a backslash and what it means. */
  predicate Letter(letter: char, value: char) {
    || (letter == value && (letter == '"' || letter == '\\' || letter == '/'))
    || (letter == 'b' && value == '\U{08}') || (letter == 'f' && value == '\U{0C}')
    || (letter == 'n' && value == '\n') || (letter == 'r' && value == '\r') || (letter == 't' && value == '\t')
  }

  /** A character as it is, after a backslash, as one code unit or as a surrogate pair. */
  ghost predicate Proper(x: Spelled) {
    || (x.text == [x.value] && x.value >= ' ' && x.value != '"' && x.value != '\\')
    || (|x.text| == 2 && x.text[0] == '\\' && Letter(x.text[1], x.value))
    || Unit(x.text, x.value as int)
    || (|x.text| == 12 && exists high, low ::
          && Unit(x.text[..6], high) && Unit(x.text[6..], low) && 0xD800 <= high < 0xDC00 <= low < 0xE000
          && x.value as int == 0x10000 + (high - 0xD800) * 0x400 + (low - 0xDC00))
  }

  /** Half of a surrogate pair, which stands for no character. */
  ghost predicate Lone(x: Spelled) {
    x.value == REPLACEMENT && exists u :: Unit(x.text, u) && 0xD800 <= u < 0xE000
  }

  function TextOf(xs: seq<Spelled>): string {
    if xs == [] then "" else xs[0].text + TextOf(xs[1..])
  }

  function ValueOf(xs: seq<Spelled>): string {
    seq(|xs|, i requires 0 <= i < |xs| => xs[i].value)
  }

  ghost predicate AllProper(xs: seq<Spelled>) {
    forall x | x in xs :: Proper(x)
  }

  ghost predicate AllSpelled(xs: seq<Spelled>) {
    forall x | x in xs :: Proper(x) || Lone(x)
  }

  lemma UnitIsRead(text: string, u: int, rest: string)
    requires Unit(text, u)
    ensures (text + rest)[2..] == text[2..] + rest && CodeUnit(text[2..] + rest) == u && (text[2..] + rest)[4..] == rest
  {
    var s := text[2..] + rest;
    assert s[0] == text[2] && s[1] == text[3] && s[2] == text[4] && s[3] == text[5];
  }

  lemma PairIsRead(text: string, high: int, low: int, c: char, rest: string)
    requires |text| == 12 && Unit(text[..6], high) && Unit(text[6..], low) && 0xD800 <= high < 0xDC00 <= low < 0xE000
    requires c as int == 0x10000 + (high - 0xD800) * 0x400 + (low - 0xDC00)
    ensures ReadUnicode(text[2..] + rest) == Some(Read(c, rest))
  {
    var a, b := text[..6], text[6..];
    var s := text[2..] + rest;
    UnitIsRead(a, high, b + rest);
    UnitIsRead(b, low, rest);
    assert s == a[2..] + (b + rest);
    assert s[4] == b[0] && s[5] == b[1] && s[6..] == b[2..] + rest && s[10..] == rest;
  }

  /** A character in any of its spellings is read. */
  lemma ProperIsRead(x: Spelled, rest: string, acc: string)
    requires Proper(x)
    ensures ReadString(x.text + rest, acc) == ReadString(rest, acc + [x.value])
  {
    var s := x.text + rest;
    if x.text == [x.value] && x.value >= ' ' && x.value != '"' && x.value != '\\' {
      assert s[0] == x.value && s[1..] == rest;
    } else {
      assert s[0] == '\\' && s[1..] == x.text[1..] + rest;
      EscapeIsRead(x, rest);
    }
  }

  lemma EscapeIsRead(x: Spelled, rest: string)
    requires Proper(x) && !(x.text == [x.value] && x.value >= ' ' && x.value != '"' && x.value != '\\')
    ensures x.text[0] == '\\' && ReadEscape(x.text[1..] + rest) == Some(Read(x.value, rest))
  {
    hide ReadUnicode;
    var t := x.text[1..] + rest;
    assert t[0] == x.text[1];
    if |x.text| == 2 {
      assert t[1..] == rest;
    } else {
      assert t[1..] == x.text[2..] + rest;
      LongIsRead(x, rest);
    }
  }

  lemma LongIsRead(x: Spelled, rest: string)
    requires Proper(x) && |x.text| > 2
    ensures x.text[0] == '\\' && x.text[1] == 'u' && ReadUnicode(x.text[2..] + rest) == Some(Read(x.value, rest))
  {
    if Unit(x.text, x.value as int) {
      UnitIsRead(x.text, x.value as int, rest);
    } else {
      var high, low :| && Unit(x.text[..6], high) && Unit(x.text[6..], low) && 0xD800 <= high < 0xDC00 <= low < 0xE000
                       && x.value as int == 0x10000 + (high - 0xD800) * 0x400 + (low - 0xDC00);
      PairIsRead(x.text, high, low, x.value, rest);
      assert x.text[0] == x.text[..6][0] && x.text[1] == x.text[..6][1];
    }
  }

  lemma {:induction false} CharsAreRead(xs: seq<Spelled>, rest: string, acc: string)
    requires AllProper(xs)
    ensures ReadString(TextOf(xs) + ("\"" + rest), acc) == Some(Read(acc + ValueOf(xs), rest))
    decreases |xs|
  {
    hide ReadString, Proper;
    if xs == [] {
      EndIsRead(rest, acc);
      assert acc + ValueOf(xs) == acc;
    } else {
      var tail := TextOf(xs[1..]) + ("\"" + rest);
      ProperIsRead(xs[0], tail, acc);
      CharsAreRead(xs[1..], rest, acc + [xs[0].value]);
      assert TextOf(xs) + ("\"" + rest) == xs[0].text + tail;
      assert acc + [xs[0].value] + ValueOf(xs[1..]) == acc + ValueOf(xs);
    }
  }

  lemma EndIsRead(rest: string, acc: string)
    ensures ReadString("" + ("\"" + rest), acc) == Some(Read(acc, rest))
  {
    var s := "" + ("\"" + rest);
    assert s[0] == '"' && s[1..] == rest;
  }

  // ----- Objects

  predicate Space(s: string) {
    forall c | c in s :: c == ' ' || c == '\t' || c == '\n' || c == '\r'
  }

  /** A name and a value, with the white space before, between and after. */
  datatype MemberText = MemberText(before: string, name: seq<Spelled>, afterName: string, beforeValue: string, value: seq<Spelled>, after: string)

  function Quoted(xs: seq<Spelled>): string {
    "\"" + (TextOf(xs) + "\"")
  }

  function TextOfMember(m: MemberText): string {
    m.before + Quoted(m.name) + m.afterName + ":" + m.beforeValue + Quoted(m.value) + m.after
  }

  predicate Spaced(m: MemberText) {
    Space(m.before) && Space(m.afterName) && Space(m.beforeValue) && Space(m.after)
  }

  ghost predicate ProperMember(m: MemberText) {
    Spaced(m) && AllProper(m.name) && AllProper(m.value)
  }

  ghost predicate SpelledMember(m: MemberText) {
    Spaced(m) && AllSpelled(m.name) && AllSpelled(m.value)
  }

  function TextOfMembers(ms: seq<MemberText>): string
    requires ms != []
  {
    if |ms| == 1 then TextOfMember(ms[0]) else TextOfMember(ms[0]) + "," + TextOfMembers(ms[1..])
  }

  /** The text of an object; inside is the white space between the braces if it is empty. */
  function TextOfObject(before: string, inside: string, ms: seq<MemberText>): string {
    before + "{" + (if ms == [] then inside else TextOfMembers(ms)) + "}"
  }

  /** The members, a later one replacing an earlier one of the same name. */
  function ObjectOf(acc: Object, ms: seq<MemberText>): Object
    decreases |ms|
  {
    if ms == [] then acc else ObjectOf(Override(acc, ValueOf(ms[0].name), ValueOf(ms[0].value)), ms[1..])
  }

  lemma {:induction false} SpaceIsSkipped(w: string, t: string)
    requires Space(w) && (t == "" || !Space(t[..1]))
    ensures SkipSpace(w + t) == t
    decreases |w|
  {
    if w == "" {
      assert w + t == t;
      if t != "" { assert t[0] in t[..1]; }
    } else {
      assert w[0] in w && (w + t)[1..] == w[1..] + t;
      assert forall c | c in w[1..] :: c in w;
      SpaceIsSkipped(w[1..], t);
    }
  }

  lemma Expected(w: string, c: char, t: string, d: char)
    requires Space(w) && !Space([c])
    ensures Expect(w + ([c] + t), d) == if c == d then Some(t) else None
  {
    var u := [c] + t;
    assert u[..1] == [c] && u[1..] == t;
    SpaceIsSkipped(w, u);
  }

  lemma NotSpace()
    ensures !Space("\"") && !Space(":") && !Space(",") && !Space("{") && !Space("}")
  {
    assert '"' in "\"" && ':' in ":" && ',' in "," && '{' in "{" && '}' in "}";
  }

  lemma QuotedIsRead(w: string, xs: seq<Spelled>, rest: string)
    requires Space(w) && AllProper(xs)
    ensures ReadQuoted(w + Quoted(xs) + rest) == Some(Read(ValueOf(xs), rest))
  {
    hide Space, AllProper, ReadString, Expect;
    NotSpace();
    var t := TextOf(xs) + ("\"" + rest);
    assert w + Quoted(xs) + rest == w + (['"'] + t);
    assert ['"'] == "\"";
    Expected(w, '"', t, '"');
    CharsAreRead(xs, rest, "");
    assert "" + ValueOf(xs) == ValueOf(xs);
  }

  lemma MemberIsRead(m: MemberText, rest: string)
    requires ProperMember(m)
    ensures ReadMember(m.before + Quoted(m.name) + m.afterName + ":" + m.beforeValue + Quoted(m.value) + rest)
         == Some(Read((ValueOf(m.name), ValueOf(m.value)), rest))
  {
    hide Space, AllProper, ReadQuoted, Expect, Quoted;
    NotSpace();
    var value := m.beforeValue + Quoted(m.value) + rest;
    var colon := m.afterName + ([':'] + value);
    assert [':'] == ":";
    assert m.before + Quoted(m.name) + m.afterName + ":" + m.beforeValue + Quoted(m.value) + rest == m.before + Quoted(m.name) + colon;
    QuotedIsRead(m.before, m.name, colon);
    Expected(m.afterName, ':', value, ':');
    QuotedIsRead(m.beforeValue, m.value, rest);
  }

  lemma {:induction false} MembersAreRead(ms: seq<MemberText>, acc: Object, rest: string)
    requires ms != [] && forall m | m in ms :: ProperMember(m)
    ensures ReadMembers(TextOfMembers(ms) + "}" + rest, acc) == Some(Read(ObjectOf(acc, ms), rest))
    decreases |ms|
  {
    hide ReadMember, Expect, Quoted, Override;
    NotSpace();
    var m, s := ms[0], TextOfMembers(ms) + "}" + rest;
    var obj := Override(acc, ValueOf(m.name), ValueOf(m.value));
    assert m in ms && Space(m.after);
    if |ms| == 1 {
      assert ms[1..] == [] && ['}'] == "}";
      var tail := m.after + (['}'] + rest);
      MemberIsRead(m, tail);
      TextBefore(m, "}" + rest);
      assert s == TextOfMember(m) + ("}" + rest);
      Expected(m.after, '}', rest, ',');
      Expected(m.after, '}', rest, '}');
    } else {
      var more := TextOfMembers(ms[1..]) + "}" + rest;
      assert [','] == ",";
      MemberIsRead(m, m.after + ([','] + more));
      TextBefore(m, "," + more);
      MoreMembers(ms, rest);
      Expected(m.after, ',', more, ',');
      assert forall x | x in ms[1..] :: x in ms;
      MembersAreRead(ms[1..], obj, rest);
    }
  }

  lemma TextBefore(m: MemberText, t: string)
    ensures TextOfMember(m) + t == m.before + Quoted(m.name) + m.afterName + ":" + m.beforeValue + Quoted(m.value) + (m.after + t)
  {}

  lemma MoreMembers(ms: seq<MemberText>, rest: string)
    requires |ms| > 1
    ensures TextOfMembers(ms) + "}" + rest == TextOfMember(ms[0]) + ("," + (TextOfMembers(ms[1..]) + "}" + rest))
  {
    hide TextOfMember;
    RegroupList(TextOfMember(ms[0]), TextOfMembers(ms[1..]), rest);
  }

  lemma RegroupList(a: string, b: string, rest: string)
    ensures a + "," + b + "}" + rest == a + ("," + (b + "}" + rest))
  {}

  /** Every text of an object of strings is read, with the members that it spells. */
  lemma ObjectIsRead(before: string, inside: string, ms: seq<MemberText>, after: string)
    requires Space(before) && Space(inside) && Space(after) && forall m | m in ms :: ProperMember(m)
    ensures Unmarshal(TextOfObject(before, inside, ms) + after) == Some(ObjectOf([], ms))
  {
    hide Space, ProperMember, ReadMembers, Expect, SkipSpace;
    NotSpace();
    EndOfText(after);
    var s := TextOfObject(before, inside, ms) + after;
    assert ['{'] == "{" && ['}'] == "}";
    if ms == [] {
      var t := inside + (['}'] + after);
      assert s == before + (['{'] + t);
      Expected(before, '{', t, '{');
      Expected(inside, '}', after, '}');
    } else {
      var t := TextOfMembers(ms) + "}" + after;
      assert s == before + (['{'] + t);
      Expected(before, '{', t, '{');
      StartsWithQuote(ms, after);
      MembersAreRead(ms, [], after);
    }
  }

  lemma EndOfText(after: string)
    requires Space(after)
    ensures SkipSpace(after) == ""
  {
    SpaceIsSkipped(after, "");
    assert after + "" == after;
  }

  lemma StartsWithQuote(ms: seq<MemberText>, rest: string)
    requires ms != [] && ProperMember(ms[0])
    ensures Expect(TextOfMembers(ms) + "}" + rest, '}') == None
  {
    hide Expect;
    NotSpace();
    var s, m := TextOfMembers(ms) + "}" + rest, ms[0];
    var u := s[|m.before| + 1..];
    assert ['"'] == "\"";
    assert s == m.before + (['"'] + u) by {
      TextBefore(m, "");
      assert TextOfMember(m)[..|m.before| + 1] == m.before + "\"";
      assert TextOfMember(m) <= s;
    }
    Expected(m.before, '"', u, '}');
  }

  // ----- Nothing else is read

  lemma {:induction false} SkippedIsSpace(s: string) returns (w: string)
    ensures s == w + SkipSpace(s) && Space(w)
  {
    if s != "" && IsJsonSpace(s[0]) {
      var rest := SkippedIsSpace(s[1..]);
      w := [s[0]] + rest;
      assert s == [s[0]] + s[1..];
    } else {
      w := "";
    }
  }

  lemma ExpectedAfterSpace(s: string, c: char) returns (w: string)
    requires Expect(s, c).Some?
    ensures s == w + ([c] + Expect(s, c).value) && Space(w)
  {
    w := SkippedIsSpace(s);
    var t := SkipSpace(s);
    assert t == [c] + t[1..];
  }

  lemma UnitOf(s: string)
    requires |s| >= 2 && s[0] == '\\' && s[1] == 'u' && CodeUnit(s[2..]) >= 0
    ensures |s| >= 6 && Unit(s[..6], CodeUnit(s[2..])) && s[2..][4..] == s[6..]
  {
    var t, unit := s[2..], s[..6];
    assert t[0] == unit[2] && t[1] == unit[3] && t[2] == unit[4] && t[3] == unit[5];
    SameHex(t[0]);
    SameHex(t[1]);
    SameHex(t[2]);
    SameHex(t[3]);
    hide HexValue, HexDigitValue;
  }

  lemma SameHex(c: char)
    ensures HexValue(c) == HexDigitValue(c)
  {}

  /** An escape sequence spells what it is read as. */
  lemma EscapeIsSpelled(s: string) returns (x: Spelled)
    requires s != "" && s[0] == '\\' && ReadEscape(s[1..]).Some?
    ensures s == x.text + ReadEscape(s[1..]).value.rest && x.value == ReadEscape(s[1..]).value.value
    ensures Proper(x) || Lone(x)
  {
    var e := ReadEscape(s[1..]).value;
    if s[1] != 'u' {
      x := Spelled(s[..2], e.value);
      assert s[1..][1..] == s[2..] && s == s[..2] + s[2..];
    } else {
      assert s[1..][1..] == s[2..];
      UnitOf(s);
      x := UnicodeIsSpelled(s);
    }
  }

  lemma UnicodeIsSpelled(s: string) returns (x: Spelled)
    requires |s| >= 6 && s[0] == '\\' && s[1] == 'u' && Unit(s[..6], CodeUnit(s[2..])) && ReadUnicode(s[2..]).Some?
    ensures s == x.text + ReadUnicode(s[2..]).value.rest && x.value == ReadUnicode(s[2..]).value.value
    ensures Proper(x) || Lone(x)
  {
    hide Unit, CodeUnit;
    var u, t := CodeUnit(s[2..]), s[6..];
    assert s == s[..6] + t && s[2..][4..] == t;
    assert |t| >= 2 ==> s[2..][4] == t[0] && s[2..][5] == t[1] && s[2..][6..] == t[2..];
    x := Spelled(s[..6], ReadUnicode(s[2..]).value.value);
    if 0xD800 <= u < 0xDC00 && |t| >= 2 && t[0] == '\\' && t[1] == 'u' && 0xDC00 <= CodeUnit(t[2..]) < 0xE000 {
      UnitOf(t);
      PairOf(s, t);
      x := Spelled(s[..12], x.value);
    }
  }

  lemma PairOf(s: string, t: string)
    requires |s| >= 12 && t == s[6..]
    ensures s[2..][10..] == t[6..] && s[..12][..6] == s[..6] && s[..12][6..] == t[..6] && s == s[..12] + t[6..]
  {}

  lemma {:induction false} StringIsSpelled(s: string, acc: string) returns (xs: seq<Spelled>)
    requires ReadString(s, acc).Some?
    ensures s == TextOf(xs) + ("\"" + ReadString(s, acc).value.rest) && ReadString(s, acc).value.value == acc + ValueOf(xs)
    ensures AllSpelled(xs)
    decreases |s|
  {
    hide Proper, Lone;
    if s[0] == '"' {
      xs := [];
      assert s == "\"" + s[1..] && acc + ValueOf(xs) == acc;
    } else {
      var x, rest := FirstIsSpelled(s, acc);
      var more := StringIsSpelled(rest, acc + [x.value]);
      xs := [x] + more;
      assert xs[1..] == more;
      assert acc + [x.value] + ValueOf(more) == acc + ValueOf(xs);
      assert x.text + (TextOf(more) + ("\"" + ReadString(s, acc).value.rest)) == TextOf(xs) + ("\"" + ReadString(s, acc).value.rest);
    }
  }

  lemma FirstIsSpelled(s: string, acc: string) returns (x: Spelled, rest: string)
    requires ReadString(s, acc).Some? && s[0] != '"'
    ensures s == x.text + rest && |rest| < |s| && (Proper(x) || Lone(x))
    ensures ReadString(s, acc) == ReadString(rest, acc + [x.value])
  {
    if s[0] == '\\' {
      x := EscapeIsSpelled(s);
      rest := ReadEscape(s[1..]).value.rest;
    } else {
      x, rest := Spelled([s[0]], s[0]), s[1..];
    }
  }

  lemma QuotedIsSpelled(s: string) returns (w: string, xs: seq<Spelled>)
    requires ReadQuoted(s).Some?
    ensures s == w + Quoted(xs) + ReadQuoted(s).value.rest && Space(w) && AllSpelled(xs) && ReadQuoted(s).value.value == ValueOf(xs)
  {
    hide Space, AllSpelled, ReadString, Expect;
    w := ExpectedAfterSpace(s, '"');
    var t := Expect(s, '"').value;
    xs := StringIsSpelled(t, "");
    assert "" + ValueOf(xs) == ValueOf(xs) && ['"'] == "\"";
    assert "\"" + (TextOf(xs) + ("\"" + ReadQuoted(s).value.rest)) == Quoted(xs) + ReadQuoted(s).value.rest;
  }

  /** A member up to what follows its value. */
  lemma MemberIsSpelled(s: string, after: string) returns (m: MemberText)
    requires ReadMember(s).Some? && Space(after)
    ensures s == m.before + Quoted(m.name) + m.afterName + ":" + m.beforeValue + Quoted(m.value) + ReadMember(s).value.rest
    ensures SpelledMember(m) && m.after == after && ReadMember(s).value.value == (ValueOf(m.name), ValueOf(m.value))
  {
    hide Space, AllSpelled, ReadQuoted, Expect, Quoted;
    var before, name := QuotedIsSpelled(s);
    var afterName := ExpectedAfterSpace(ReadQuoted(s).value.rest, ':');
    var t := Expect(ReadQuoted(s).value.rest, ':').value;
    var beforeValue, value := QuotedIsSpelled(t);
    m := MemberText(before, name, afterName, beforeValue, value, after);
    assert [':'] == ":";
    assert before + Quoted(name) + (afterName + (":" + (beforeValue + Quoted(value) + ReadQuoted(t).value.rest)))
        == before + Quoted(name) + afterName + ":" + beforeValue + Quoted(value) + ReadQuoted(t).value.rest;
  }

  ghost predicate AllMembers(ms: seq<MemberText>) {
    forall m | m in ms :: SpelledMember(m)
  }

  lemma {:induction false} MembersAreSpelled(s: string, acc: Object) returns (ms: seq<MemberText>)
    requires ReadMembers(s, acc).Some?
    ensures ms != [] && AllMembers(ms) && ReadMembers(s, acc).value.value == ObjectOf(acc, ms)
    ensures s == TextOfMembers(ms) + "}" + ReadMembers(s, acc).value.rest
    decreases |s|
  {
    hide ReadMember, Expect, Quoted, Override, SpelledMember, Space;
    var read := ReadMember(s).value;
    var obj := Override(acc, read.value.0, read.value.1);
    if Expect(read.rest, ',').Some? {
      var t := Expect(read.rest, ',').value;
      var after := ExpectedAfterSpace(read.rest, ',');
      var m := MemberIsSpelled(s, after);
      var more := MembersAreSpelled(t, obj);
      ms := [m] + more;
      assert ms[1..] == more && [','] == ",";
      TextBefore(m, "," + t);
      MoreMembers(ms, ReadMembers(s, acc).value.rest);
    } else {
      var t := Expect(read.rest, '}').value;
      var after := ExpectedAfterSpace(read.rest, '}');
      var m := MemberIsSpelled(s, after);
      ms := [m];
      assert ms[1..] == [] && ['}'] == "}";
      TextBefore(m, "}" + t);
      assert TextOfMember(m) + ("}" + t) == TextOfMembers(ms) + "}" + t;
    }
  }

  /** Whatever is read as an object is the text of one; the only liberty taken is that half of
      a surrogate pair counts as a character. */
  lemma ObjectIsSpelled(s: string) returns (before: string, inside: string, ms: seq<MemberText>, after: string)
    requires Unmarshal(s).Some?
    ensures s == TextOfObject(before, inside, ms) + after && Unmarshal(s) == Some(ObjectOf([], ms))
    ensures Space(before) && Space(inside) && Space(after) && AllMembers(ms)
  {
    hide Space, AllMembers, ReadMembers, Expect, SkipSpace, TextOfMembers;
    var t := Expect(s, '{').value;
    before := ExpectedAfterSpace(s, '{');
    after := SkippedIsSpace(ReadObject(s).value.rest);
    assert ['{'] == "{" && ['}'] == "}" && after + "" == after;
    inside, ms := "", [];
    if Expect(t, '}').Some? {
      inside := ExpectedAfterSpace(t, '}');
      NoMembers();
    } else {
      ms := MembersAreSpelled(t, []);
      NoSpace();
    }
  }

  lemma NoMembers()
    ensures AllMembers([])
  {}

  lemma NoSpace()
    ensures Space("")
  {}

  // ----- The members of an object

  /** The value of the last member of a name. */
  function LastValue(ms: seq<MemberText>, name: string): Option<string> {
    if ms == [] then None
    else if ValueOf(ms[|ms| - 1].name) == name then Some(ValueOf(ms[|ms| - 1].value))
    else LastValue(ms[..|ms| - 1], name)
  }

  lemma {:induction false} LastValueCons(m: MemberText, rest: seq<MemberText>, name: string)
    ensures LastValue([m] + rest, name) ==
              if LastValue(rest, name).Some? then LastValue(rest, name)
              else if ValueOf(m.name) == name then Some(ValueOf(m.value)) else None
    decreases |rest|
  {
    var all := [m] + rest;
    if rest == [] {
      assert all[..0] == [];
    } else {
      var n := |rest| - 1;
      assert all[..|all| - 1] == [m] + rest[..n] && all[|all| - 1] == rest[n];
      LastValueCons(m, rest[..n], name);
    }
  }

  /** An object gives each name the value of the last member of that name. */
  lemma {:induction false} ObjectHasLast(acc: Object, ms: seq<MemberText>, name: string)
    ensures Lookup(ObjectOf(acc, ms), name) == if LastValue(ms, name).Some? then LastValue(ms, name) else Lookup(acc, name)
    decreases |ms|
  {
    hide LastValue, Lookup, ValueOf;
    if ms == [] {
      NoLastValue(name);
    } else {
      var first, rest := ms[0], ms[1..];
      assert ms == [first] + rest;
      ObjectHasLast(Override(acc, ValueOf(first.name), ValueOf(first.value)), rest, name);
      OverrideIs(acc, ValueOf(first.name), ValueOf(first.value), name);
      LastValueCons(first, rest, name);
    }
  }

  lemma NoLastValue(name: string)
    ensures LastValue([], name) == None
  {}

  predicate DistinctNames(obj: Object) {
    forall i, j | 0 <= i < j < |obj| :: obj[i].0 != obj[j].0
  }

  /** And it has each name once. */
  lemma {:induction false} NamesAreDistinct(acc: Object, ms: seq<MemberText>)
    requires DistinctNames(acc)
    ensures DistinctNames(ObjectOf(acc, ms))
    decreases |ms|
  {
    if ms != [] {
      OverrideIsDistinct(acc, ValueOf(ms[0].name), ValueOf(ms[0].value));
      NamesAreDistinct(Override(acc, ValueOf(ms[0].name), ValueOf(ms[0].value)), ms[1..]);
    }
  }

  lemma {:induction false} OverrideIsDistinct(obj: Object, name: string, value: string)
    requires DistinctNames(obj)
    ensures DistinctNames(Override(obj, name, value))
    ensures forall m | m in Override(obj, name, value) :: m.0 == name || m in obj
  {
    if obj != [] && obj[0].0 != name {
      OverrideIsDistinct(obj[1..], name, value);
      var rest := Override(obj[1..], name, value);
      forall i | 0 <= i < |rest|
        ensures rest[i].0 != obj[0].0
      {
        if rest[i].0 != name {
          assert rest[i] in obj[1..];
        }
      }
    }
  }

  lemma {:induction false} OverrideIs(obj: Object, name: string, value: string, other: string)
    ensures Lookup(Override(obj, name, value), other) == if other == name then Some(value) else Lookup(obj, other)
  {
    if obj != [] && obj[0].0 != name {
      OverrideIs(obj[1..], name, value, other);
    }
  }
}
