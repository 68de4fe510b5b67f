/** Decimal rendering and reading of integers: `Number.prototype.toString()`
    for integral values and the `Number(text)` conversion for decimal text. */
module Numbers {
  import opened Strings

  predicate IsDigit(c: char) {
    '0' <= c <= '9'
  }

  predicate AllDigits(s: string) {
    forall i :: 0 <= i < |s| ==> IsDigit(s[i])
  }

  function DigitChar(d: nat): (c: char)
    requires d < 10
    ensures IsDigit(c)
  {
    (48 + d) as char
  }

  function DigitValue(c: char): (d: nat)
    requires IsDigit(c)
    ensures d < 10
  {
    c as int - 48
  }

  /** Decimal rendering of a natural number, without leading zeros. */
  function NatToString(n: nat): (s: string)
    ensures |s| > 0 && AllDigits(s)
    ensures s[0] != '0' || n == 0
  {
    if n < 10 then [DigitChar(n)] else NatToString(n / 10) + [DigitChar(n % 10)]
  }

  /** Value of a string of decimal digits; the empty string reads as 0. */
  function ParseNat(s: string): nat
    requires AllDigits(s)
  {
    if |s| == 0 then 0 else ParseNat(s[..|s| - 1]) * 10 + DigitValue(s[|s| - 1])
  }

  /** Reading back a rendered natural number gives the number. */
  lemma {:induction false} ParseNatToString(n: nat)
    ensures ParseNat(NatToString(n)) == n
    decreases n
  {
    var s := NatToString(n);
    if n >= 10 {
      ParseNatToString(n / 10);
      assert s[..|s| - 1] == NatToString(n / 10);
      assert DigitValue(s[|s| - 1]) == n % 10;
    }
  }

  /** `n.toString()` for an integral JavaScript number. */
  function IntToString(i: int): (s: string)
    ensures |s| > 0 && (s[0] == '-' || IsDigit(s[0])) && IsDigit(s[|s| - 1])
    ensures ' ' !in s && ':' !in s
  {
    if i < 0 then "-" + NatToString(-i) else NatToString(i)
  }

  /** The value of `Number(text)`, restricted to integers: anything that is not
      decimal integer text reads as `NaN` here. */
  datatype JsNumber = Num(value: int) | NaN {
    /** JavaScript truthiness: `0` and `NaN` are falsy. */
    predicate Truthy() {
      Num? && value != 0
    }
  }

  /** The value of already trimmed text: blank text is 0, and an optional
      sign may precede the digits. */
  function TrimmedNumber(t: string): JsNumber
  {
    if |t| == 0 then Num(0)
    else if t[0] == '-' && |t| > 1 && AllDigits(t[1..]) then Num(-(ParseNat(t[1..]) as int))
    else if t[0] == '+' && |t| > 1 && AllDigits(t[1..]) then Num(ParseNat(t[1..]))
    else if AllDigits(t) then Num(ParseNat(t))
    else NaN
  }

  /** Text without whitespace at either end is its own trimmed form. */
  lemma TrimPlain(text: string)
    requires |text| > 0 && (text[0] == '-' || IsDigit(text[0])) && IsDigit(text[|text| - 1])
    ensures Trim(text) == text
  {
    TrimNoEdgeSpace(text);
  }

  /** `Number(text)`: surrounding whitespace is ignored, blank text is 0, an
      optional sign may precede the digits. */
  function ToNumber(text: string): (r: JsNumber)
    ensures AllDigits(text) && |text| > 0 ==> r == Num(ParseNat(text))
  {
    if AllDigits(text) && |text| > 0 then
      TrimPlain(text);
      TrimmedNumber(text)
    else TrimmedNumber(Trim(text))
  }

  lemma ToNumberNegative(i: int)
    requires i < 0
    ensures ToNumber(IntToString(i)) == Num(i)
  {
    var n: nat := -i;
    var s := "-" + NatToString(n);
    assert IntToString(i) == s;
    TrimPlain(s);
    assert !AllDigits(s) by { assert !IsDigit(s[0]); }
    assert s[1..] == NatToString(n);
    ParseNatToString(n);
  }

  lemma ToNumberNatural(i: int)
    requires i >= 0
    ensures ToNumber(IntToString(i)) == Num(i)
  {
    ParseNatToString(i);
  }

  /** `Number(String(i)) === i` for every integer. */
  lemma ToNumberIntToString(i: int)
    ensures ToNumber(IntToString(i)) == Num(i)
  {
    if i < 0 {
      ToNumberNegative(i);
    } else {
      ToNumberNatural(i);
    }
  }
}
