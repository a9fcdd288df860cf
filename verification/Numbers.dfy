/** Decimal numbers as Go's strconv writes and reads them, in 64 bits. */
module Numbers {
  import opened Text

  const MAX_INT: int := 0x7FFF_FFFF_FFFF_FFFF

  /** Go's int. */
  type Int64 = x: int | -MAX_INT - 1 <= x <= MAX_INT

  function Decimal(n: nat): string {
    (if n < 10 then "" else Decimal(n / 10)) + [Digit(n % 10)]
  }

  function Digit(d: nat): char
    requires d < 10
  {
    (d + '0' as int) as char
  }

  /** strconv.Itoa. */
  function Itoa(n: int): string {
    if n < 0 then "-" + Decimal(-n) else Decimal(n)
  }

  /** %02d. */
  function Decimal2(n: nat): string {
    if n < 10 then "0" + Decimal(n) else Decimal(n)
  }

  predicate IsDigit(c: char) { '0' <= c <= '9' }

  predicate AllDigits(s: string) {
    forall i | 0 <= i < |s| :: IsDigit(s[i])
  }

  function DigitValue(c: char): nat
    requires IsDigit(c)
  {
    c as int - '0' as int
  }

  /** The value of a string of digits after acc. */
  function DigitsValue(s: string, acc: nat): nat
    requires AllDigits(s)
  {
    if s == "" then acc else DigitsValue(s[1..], acc * 10 + DigitValue(s[0]))
  }

  datatype Parsed = Parsed(value: int, ok: bool)

  /** strconv.Atoi: a number that is out of range is reported as an error, but its value
      is the nearest one in range. */
  function Atoi(s: string): Parsed {
    var signed := s != "" && (s[0] == '-' || s[0] == '+');
    var digits := if signed then s[1..] else s;
    if digits == "" || !AllDigits(digits) then Parsed(0, false)
    else
      var n: int := DigitsValue(digits, 0);
      if signed && s[0] == '-' then
        if n > MAX_INT + 1 then Parsed(-MAX_INT - 1, false) else Parsed(-n, true)
      else if n > MAX_INT then Parsed(MAX_INT, false)
      else Parsed(n, true)
  }

  /** Only 0 and the ends of the range are values of errors. */
  lemma AtoiRange(s: string)
    ensures var p := Atoi(s);
            && -MAX_INT - 1 <= p.value <= MAX_INT
            && (p.ok || p.value == 0 || p.value == MAX_INT || p.value == -MAX_INT - 1)
  {
    var signed := s != "" && (s[0] == '-' || s[0] == '+');
    var digits := if signed then s[1..] else s;
    if digits != "" && AllDigits(digits) {
      var n := DigitsValue(digits, 0);
    }
  }

  lemma {:induction false} DecimalDigits(n: nat)
    ensures Decimal(n) != "" && AllDigits(Decimal(n))
  {
    if n >= 10 {
      DecimalDigits(n / 10);
    }
  }

  lemma {:induction false} DigitsSnoc(s: string, c: char, acc: nat)
    requires IsDigit(c) && AllDigits(s)
    ensures DigitsValue(s + [c], acc) == DigitsValue(s, acc) * 10 + DigitValue(c)
  {
    if s == "" {
      assert s + [c] == [c] && [c][1..] == "";
    } else {
      assert (s + [c])[1..] == s[1..] + [c];
      DigitsSnoc(s[1..], c, acc * 10 + DigitValue(s[0]));
    }
  }

  lemma {:induction false} DecimalValue(n: nat)
    ensures AllDigits(Decimal(n))
    ensures DigitsValue(Decimal(n), 0) == n
  {
    DecimalDigits(n);
    if n >= 10 {
      DecimalValue(n / 10);
      DigitsSnoc(Decimal(n / 10), Digit(n % 10), 0);
    } else {
      assert Decimal(n) == [Digit(n)] && [Digit(n)][1..] == "";
    }
  }

  /** A written number is read back, through strings.TrimSpace. */
  lemma AtoiOfDecimal(n: nat)
    requires n <= MAX_INT
    ensures Trim(Decimal(n)) == Decimal(n) && Atoi(Decimal(n)) == Parsed(n, true)
  {
    DecimalValue(n);
    DecimalDigits(n);
    var s := Decimal(n);
    assert IsDigit(s[0]) && IsDigit(s[|s| - 1]);
    TrimOfTrimmed(s);
  }

  /** text is n in at least width digits, and in no more than needed. */
  predicate Spells(text: string, n: nat, width: nat) {
    && |text| >= width && text != "" && AllDigits(text) && DigitsValue(text, 0) == n
    && (|text| > width && |text| > 1 ==> text[0] != '0')
  }

  lemma {:induction false} DecimalIs(n: nat)
    ensures Spells(Decimal(n), n, 1) && (n >= 10 ==> |Decimal(n)| >= 2)
  {
    DecimalDigits(n);
    DecimalValue(n);
    if n >= 10 {
      DecimalIs(n / 10);
      var front := Decimal(n / 10);
      assert Decimal(n)[0] == front[0];
      assert |front| == 1 ==> front[0] == Digit(n / 10);
    }
  }

  /** %02d. */
  lemma Decimal2Is(n: nat)
    ensures Spells(Decimal2(n), n, 2)
  {
    DecimalIs(n);
    if n < 10 {
      assert ("0" + Decimal(n))[1..] == Decimal(n);
    }
  }

  lemma {:induction false} AtLeast(s: string, acc: nat)
    requires AllDigits(s)
    ensures DigitsValue(s, acc) >= acc
  {
    if s != "" {
      AtLeast(s[1..], acc * 10 + DigitValue(s[0]));
    }
  }

  lemma TwoDigitsOrMore(s: string)
    requires AllDigits(s) && |s| >= 2 && s[0] != '0'
    ensures DigitsValue(s, 0) >= 10
  {
    AtLeast(s[1..], DigitValue(s[0]));
    AtLeast(s[1..][1..], DigitValue(s[0]) * 10 + DigitValue(s[1]));
  }

  /** A number is written in one way only. */
  lemma {:induction false} SpellsDecimal(text: string, n: nat)
    requires Spells(text, n, 1)
    ensures text == Decimal(n)
    decreases |text|
  {
    var front, c := text[..|text| - 1], text[|text| - 1];
    assert text == front + [c] && DigitsValue("", 0) == 0;
    DigitsSnoc(front, c, 0);
    if |text| > 1 {
      TwoDigitsOrMore(text);
      SpellsDecimal(front, n / 10);
    }
  }

  lemma SpellsDecimal2(text: string, n: nat)
    requires Spells(text, n, 2)
    ensures text == Decimal2(n)
  {
    if text[0] == '0' {
      var digit := text[1..];
      assert text == "0" + digit && digit == [text[1]] && digit[1..] == "";
      SpellsDecimal(digit, n);
    } else {
      TwoDigitsOrMore(text);
      SpellsDecimal(text, n);
    }
  }

  /** Any written number in range is read, with leading zeros or not. */
  lemma AtoiOfSpelled(text: string, n: nat, width: nat)
    requires Spells(text, n, width)
    ensures Trim(text) == text
    ensures Atoi(text) == if n <= MAX_INT then Parsed(n, true) else Parsed(MAX_INT, false)
  {
    assert IsDigit(text[0]) && IsDigit(text[|text| - 1]);
    TrimOfTrimmed(text);
  }

  /** An integer is read back with its sign; one out of range is an error, with the value of
      the end of the range that it lies beyond. */
  lemma AtoiOfItoa(n: int)
    ensures Atoi(Itoa(n)) ==
              if n > MAX_INT then Parsed(MAX_INT, false)
              else if n < -MAX_INT - 1 then Parsed(-MAX_INT - 1, false)
              else Parsed(n, true)
  {
    if n >= 0 {
      DecimalIs(n);
      AtoiOfSpelled(Decimal(n), n, 1);
    } else {
      DecimalIs(-n);
      assert Itoa(n)[1..] == Decimal(-n);
    }
  }

  /** A text is a number exactly if it is an optional sign before digits, which are in range. */
  lemma AtoiReads(s: string)
    ensures Atoi(s).ok <==>
              exists sign, digits :: s == sign + digits && IsNumber(sign, digits)
  {
    if Atoi(s).ok {
      var signed := s[0] == '-' || s[0] == '+';
      var sign, digits := if signed then s[..1] else "", if signed then s[1..] else s;
      assert s == sign + digits && IsNumber(sign, digits);
    }
    if sign, digits :| s == sign + digits && IsNumber(sign, digits) {
      SignedReads(sign, digits);
    }
  }

  lemma SignedReads(sign: string, digits: string)
    requires IsNumber(sign, digits)
    ensures Atoi(sign + digits).ok
  {
    if sign == "" {
      assert sign + digits == digits && IsDigit(digits[0]);
    } else {
      assert (sign + digits)[1..] == digits;
    }
  }

  predicate IsNumber(sign: string, digits: string) {
    && (sign == "" || sign == "+" || sign == "-") && digits != "" && AllDigits(digits)
    && DigitsValue(digits, 0) <= if sign == "-" then MAX_INT + 1 else MAX_INT
  }
}
