/** Strings as the modelled programs see them: trimming, joining, and byte order. */
module Text {

  datatype Option<+T> = None | Some(value: T)

  /** The ASCII white space that strings.TrimSpace removes. */
  predicate IsSpace(c: char) {
    c == ' ' || c == '\t' || c == '\n' || c == '\r' || c == '\U{0B}' || c == '\U{0C}'
  }

  predicate Blank(s: string) {
    forall i | 0 <= i < |s| :: IsSpace(s[i])
  }

  function TrimLeft(s: string): string {
    if s != "" && IsSpace(s[0]) then TrimLeft(s[1..]) else s
  }

  function TrimRight(s: string): string {
    if s != "" && IsSpace(s[|s| - 1]) then TrimRight(s[..|s| - 1]) else s
  }

  function Trim(s: string): string {
    TrimRight(TrimLeft(s))
  }

  lemma {:induction false} TrimLeftCut(s: string)
    ensures var t := TrimLeft(s);
            && (t == "" || !IsSpace(t[0]))
            && |t| <= |s| && t == s[|s| - |t|..] && Blank(s[..|s| - |t|])
  {
    if s != "" && IsSpace(s[0]) {
      TrimLeftCut(s[1..]);
      var t := TrimLeft(s);
      assert s[..|s| - |t|] == [s[0]] + s[1..][..|s| - 1 - |t|];
    }
  }

  lemma {:induction false} TrimRightCut(s: string)
    ensures var t := TrimRight(s);
            && (t == "" || !IsSpace(t[|t| - 1]))
            && t <= s && Blank(s[|t|..])
  {
    if s != "" && IsSpace(s[|s| - 1]) {
      TrimRightCut(s[..|s| - 1]);
      var t := TrimRight(s);
      assert s[|t|..] == s[..|s| - 1][|t|..] + [s[|s| - 1]];
    }
  }

  /** No white space at either end. */
  predicate Trimmed(s: string) {
    s == "" || (!IsSpace(s[0]) && !IsSpace(s[|s| - 1]))
  }

  lemma TrimOfTrimmed(s: string)
    requires Trimmed(s)
    ensures Trim(s) == s
  {}

  lemma TrimWithin(s: string, c: char)
    ensures c in Trim(s) ==> c in s
  {
    TrimLeftCut(s);
    TrimRightCut(TrimLeft(s));
  }

  /** Trimming a text that starts with a non-space character only cuts its end. */
  lemma TrimKeepsHead(s: string)
    requires s != "" && !IsSpace(s[0])
    ensures Trim(s) == TrimRight(s)
  {}

  lemma TrimBlank(s: string)
    ensures Trim(s) == "" <==> Blank(s)
  {
    TrimLeftCut(s);
    var t := TrimLeft(s);
    var n := |s| - |t|;
    if t == "" {
      assert s[..n] == s;
    } else {
      assert s[n] == t[0];
      TrimRightKeepsHead(t);
    }
  }

  lemma {:induction false} TrimRightKeepsHead(s: string)
    requires s != "" && !IsSpace(s[0])
    ensures TrimRight(s) != ""
  {
    if IsSpace(s[|s| - 1]) {
      TrimRightKeepsHead(s[..|s| - 1]);
    }
  }

  /** Blank characters at the end do not matter to TrimRight. */
  lemma {:induction false} TrimRightIgnoresBlank(s: string, w: string)
    requires Blank(w)
    ensures TrimRight(s + w) == TrimRight(s)
    decreases |w|
  {
    if w == "" {
      assert s + w == s;
    } else {
      var v := w[..|w| - 1];
      assert (s + w)[..|s + w| - 1] == s + v;
      TrimRightIgnoresBlank(s, v);
    }
  }

  /** TrimRight cuts inside the last part that is not blank. */
  lemma {:induction false} TrimRightAppend(a: string, b: string)
    ensures TrimRight(a + b) == if TrimRight(b) == "" then TrimRight(a) else a + TrimRight(b)
    decreases |b|
  {
    if b == "" {
      assert a + b == a;
    } else {
      var front := b[..|b| - 1];
      assert (a + b)[..|a + b| - 1] == a + front;
      if IsSpace(b[|b| - 1]) {
        TrimRightAppend(a, front);
      }
    }
  }

  lemma Associative<T>(a: seq<T>, b: seq<T>, c: seq<T>)
    ensures (a + b) + c == a + (b + c)
  {}

  function Join(parts: seq<string>, sep: string): string {
    if |parts| == 0 then ""
    else if |parts| == 1 then parts[0]
    else parts[0] + sep + Join(parts[1..], sep)
  }

  /** Lexicographic order on characters, as sort.Strings uses it. */
  predicate AtMost(a: string, b: string) {
    a == "" || (b != "" && (a[0] < b[0] || (a[0] == b[0] && AtMost(a[1..], b[1..]))))
  }

  lemma {:induction false} AtMostTotal(a: string, b: string)
    ensures AtMost(a, b) || AtMost(b, a)
  {
    if a != "" && b != "" && a[0] == b[0] {
      AtMostTotal(a[1..], b[1..]);
    }
  }

  lemma {:induction false} AtMostAntisymmetric(a: string, b: string)
    requires AtMost(a, b) && AtMost(b, a)
    ensures a == b
  {
    if a != "" && b != "" {
      AtMostAntisymmetric(a[1..], b[1..]);
      assert a == [a[0]] + a[1..] && b == [b[0]] + b[1..];
    }
  }

  lemma {:induction false} AtMostTransitive(a: string, b: string, c: string)
    requires AtMost(a, b) && AtMost(b, c)
    ensures AtMost(a, c)
  {
    if a != "" && a[0] == b[0] && b[0] == c[0] {
      AtMostTransitive(a[1..], b[1..], c[1..]);
    }
  }

  /** Every nonempty finite set of strings has a least element. */
  lemma {:induction false} LeastExists(keys: set<string>)
    requires keys != {}
    ensures exists k :: k in keys && forall x | x in keys :: AtMost(k, x)
    decreases |keys|
  {
    var a :| a in keys;
    AtMostTotal(a, a);
    var rest := keys - {a};
    if rest != {} {
      LeastExists(rest);
      var b :| b in rest && forall x | x in rest :: AtMost(b, x);
      AtMostTotal(a, b);
      if AtMost(a, b) {
        forall x | x in keys
          ensures AtMost(a, x)
        {
          if x != a { AtMostTransitive(a, b, x); }
        }
      } else {
        assert forall x | x in keys :: x == a || x in rest;
      }
    }
  }
}
