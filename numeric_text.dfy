/**
 * The text of the position fields: how an `i32` is displayed and how a text
 * field's contents are parsed back into one.
 */
module NumericText {
  import opened Options

  const I32Min: int := -0x8000_0000
  const I32Max: int := 0x7FFF_FFFF

  predicate IsDigit(c: char) {
    '0' <= c <= '9'
  }

  predicate AllDigits(s: string) {
    forall k :: 0 <= k < |s| ==> IsDigit(s[k])
  }

  function DigitValue(c: char): (d: nat)
    requires IsDigit(c)
    ensures d < 10
  {
    (c as int - '0' as int) as nat
  }

  function DigitChar(d: nat): (c: char)
    requires d < 10
    ensures IsDigit(c) && DigitValue(c) == d
  {
    ('0' as int + d) as char
  }

  /** The decimal digits of `n`, most significant first, without leading zeros. */
  function NatToDigits(n: nat): (s: string)
    ensures |s| > 0 && (forall k :: 0 <= k < |s| ==> IsDigit(s[k]))
    ensures |s| > 1 ==> s[0] != '0'
  {
    if n < 10 then [DigitChar(n)] else NatToDigits(n / 10) + [DigitChar(n % 10)]
  }

  /** The value of a string of decimal digits, read most significant first. */
  function DigitsValue(s: string): (v: nat)
    requires forall k :: 0 <= k < |s| ==> IsDigit(s[k])
  {
    if s == [] then 0 else DigitsValue(s[..|s| - 1]) * 10 + DigitValue(s[|s| - 1])
  }

  /**
   * The text an integer is displayed as: a minus sign exactly for a
   * negative number, then the decimal digits of its magnitude without
   * leading zeros.
   */
  function IntToString(n: int): (s: string)
    ensures |s| > 0 && (s[0] == '-' <==> n < 0)
    ensures var d := if n < 0 then s[1..] else s;
      && d != [] && AllDigits(d)
      && DigitsValue(d) == (if n < 0 then -n else n)
      && (|d| > 1 ==> d[0] != '0')
  {
    var m: nat := if n < 0 then -n else n;
    DigitsRoundTrip(m);
    var d := NatToDigits(m);
    assert DigitChar(0) != '-';
    if n < 0 then
      assert ("-" + d)[1..] == d;
      "-" + d
    else d
  }

  /**
   * Parsing a text field as an `i32`: an optional `+` or `-`, then one or
   * more decimal digits and nothing else, with a value in the `i32` range.
   * Anything else (the empty text, a lone sign, a space, an overflow) fails.
   */
  function ParseI32(s: string): (r: Option<int>)
    ensures r.Some? ==> I32Min <= r.value <= I32Max
    ensures r.Some? ==> exists k :: 0 <= k < |s| && IsDigit(s[k])
  {
    if s == [] then None
    else
      var negative := s[0] == '-';
      var digits := if s[0] == '+' || s[0] == '-' then s[1..] else s;
      if digits == [] || !AllDigits(digits) then None
      else
        var magnitude: int := DigitsValue(digits);
        var v := if negative then -magnitude else magnitude;
        assert IsDigit(digits[0]) && (digits == s || digits == s[1..]);
        assert digits == s ==> IsDigit(s[0]);
        assert digits == s[1..] ==> IsDigit(s[1]);
        if I32Min <= v <= I32Max then Some(v) else None
  }

  /** Reading back the digits of `n` gives `n`. */
  lemma {:induction false} DigitsRoundTrip(n: nat)
    ensures DigitsValue(NatToDigits(n)) == n
  {
    if n >= 10 {
      var s := NatToDigits(n);
      assert s[..|s| - 1] == NatToDigits(n / 10);
      DigitsRoundTrip(n / 10);
    }
  }

  /** Every `i32` parses back from the text it is displayed as. */
  lemma ParseDisplayedI32(n: int)
    requires I32Min <= n <= I32Max
    ensures ParseI32(IntToString(n)) == Some(n)
  {
    var s := IntToString(n);
    if n < 0 {
      assert s[1..] == NatToDigits(-n);
      DigitsRoundTrip(-n);
    } else {
      DigitsRoundTrip(n);
    }
  }

  /** Examples of texts a position field rejects. */
  lemma RejectedTexts()
    ensures ParseI32("") == None && ParseI32("-") == None && ParseI32("+") == None
    ensures ParseI32(" 5") == None && ParseI32("5a") == None
  {
    var space, letter := " 5", "5a";
    assert !IsDigit(space[0]) && !AllDigits(space);
    assert !IsDigit(letter[1]) && !AllDigits(letter);
  }
}
