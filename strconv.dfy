/**
 * The parts of Go's `strconv` and `fmt` that the provider relies on: decimal
 * rendering of integers (`%d`, `Itoa`) and `strconv.Atoi` on a 64-bit platform.
 */
module Strconv {
  import opened Wrappers

  const MinInt: int := -0x8000_0000_0000_0000
  const MaxInt: int := 0x7fff_ffff_ffff_ffff

  predicate IsDigit(c: char) { '0' <= c <= '9' }

  predicate AllDigits(s: string) { forall i :: 0 <= i < |s| ==> IsDigit(s[i]) }

  function DigitChar(d: nat): (c: char)
    requires d < 10
    ensures IsDigit(c) && c as int - '0' as int == d
  {
    ('0' as int + d) as char
  }

  /** The decimal digits of `n`, without leading zeros. */
  function NatToDecimal(n: nat): (r: string)
    ensures |r| >= 1 && AllDigits(r)
    ensures r[0] == '0' ==> n == 0
    decreases n
  {
    if n < 10 then [DigitChar(n)] else NatToDecimal(n / 10) + [DigitChar(n % 10)]
  }

  /** `%d` and strconv.Itoa: a minus sign for negative numbers, then the digits. */
  function FormatInt(i: int): (r: string)
    ensures |r| >= 1 && (r[0] == '-' <==> i < 0)
    ensures forall k :: 0 <= k < |r| ==> IsDigit(r[k]) || (k == 0 && r[k] == '-')
  {
    if i < 0 then "-" + NatToDecimal(-i) else NatToDecimal(i)
  }

  /** The number a string of decimal digits denotes. */
  function DigitsValue(s: string): nat
    requires AllDigits(s)
  {
    if s == [] then 0
    else DigitsValue(s[..|s| - 1]) * 10 + (s[|s| - 1] as int - '0' as int)
  }

  /**
   * strconv.Atoi: an optional `+` or `-`, then at least one decimal digit,
   * and the value must fit a 64-bit int; anything else is an error (None).
   */
  function Atoi(s: string): (r: Option<int>)
    ensures r.Some? ==> MinInt <= r.value <= MaxInt
    ensures r.Some? ==> |s| >= 1 && (IsDigit(s[0]) || s[0] == '+' || s[0] == '-')
  {
    var signed := |s| > 0 && (s[0] == '+' || s[0] == '-');
    var digits := if signed then s[1..] else s;
    if |digits| == 0 || !AllDigits(digits) then None
    else
      var v: int := if signed && s[0] == '-' then -(DigitsValue(digits) as int) else DigitsValue(digits);
      if MinInt <= v <= MaxInt then Some(v) else None
  }

  lemma {:induction false} DigitsValueOfDecimal(n: nat)
    ensures DigitsValue(NatToDecimal(n)) == n
    decreases n
  {
    if n >= 10 {
      var d := NatToDecimal(n / 10) + [DigitChar(n % 10)];
      assert d[..|d| - 1] == NatToDecimal(n / 10);
      DigitsValueOfDecimal(n / 10);
    }
  }

  /** Atoi reads back every int that `%d` prints. */
  lemma AtoiFormatInt(i: int)
    requires MinInt <= i <= MaxInt
    ensures Atoi(FormatInt(i)) == Some(i)
  {
    if i < 0 {
      DigitsValueOfDecimal(-i);
      assert FormatInt(i)[1..] == NatToDecimal(-i);
    } else {
      DigitsValueOfDecimal(i);
    }
  }

  /** Leading zeros and a plus sign are accepted, so `%d` of the result can differ from the input. */
  lemma AtoiAcceptsNonCanonical()
    ensures Atoi("007") == Some(7) && FormatInt(7) == "7"
    ensures Atoi("+5") == Some(5)
  {
    assert "007"[1..] == "07";
    assert AllDigits("007");
    assert "007"[..2] == "00" && "00"[..1] == "0" && "0"[..0] == "";
    assert "+5"[1..] == "5";
    assert "5"[..0] == "";
  }

  // ---------------------------------------------------------------------
  // `%v` of a float64 that holds a whole number
  // ---------------------------------------------------------------------

  function Pow10(k: nat): (r: nat)
    ensures r >= 1
  {
    if k == 0 then 1 else 10 * Pow10(k - 1)
  }

  const Million: int := 1_000_000

  /** 2^53: every whole number of at most this size is exactly a float64. */
  const ExactFloatLimit: int := 0x20_0000_0000_0000

  lemma {:induction false} ShortDecimal(n: nat, k: nat)
    requires 1 <= k && n < Pow10(k)
    ensures |NatToDecimal(n)| <= k
    decreases k
  {
    if n >= 10 {
      assert k >= 2;
      ShortDecimal(n / 10, k - 1);
    }
  }

  lemma {:induction false} LongDecimal(n: nat, k: nat)
    requires Pow10(k) <= n
    ensures |NatToDecimal(n)| > k
    decreases k
  {
    if k > 0 {
      LongDecimal(n / 10, k - 1);
    }
  }

  /** `s` without its trailing zeros. */
  function TrimZeros(s: string): (r: string)
    ensures |r| <= |s| && r == s[..|r|]
    ensures r == [] || r[|r| - 1] != '0'
    ensures forall k :: |r| <= k < |s| ==> s[k] == '0'
  {
    if |s| > 0 && s[|s| - 1] == '0' then TrimZeros(s[..|s| - 1]) else s
  }

  /** The exponent of the `%e` form: at least two digits. */
  function ExponentText(e: nat): string
  {
    if e < 10 then ['0', DigitChar(e)] else NatToDecimal(e)
  }

  /**
   * `%v` of a float64 that holds the whole number `i` exactly. Go prints the
   * shortest decimal that reads back as the same float64, which for an exact
   * whole number is its own digits; `%v` writes them plainly while the
   * decimal exponent is below 6, and otherwise in the `%e` form: one digit,
   * the remaining digits without trailing zeros after a point, and the
   * exponent.
   */
  function WholeFloatText(i: int): string
  {
    var digits := NatToDecimal(if i < 0 then -i else i);
    if |digits| <= 6 then FormatInt(i) else (if i < 0 then "-" else "") + ExponentForm(digits)
  }

  /** The `%e` form of a whole number's digits. */
  function ExponentForm(digits: string): string
    requires |digits| >= 1
  {
    var fraction := TrimZeros(digits[1..]);
    [digits[0]] + (if fraction == [] then "" else "." + fraction) + "e+" + ExponentText(|digits| - 1)
  }

  /** Below a million in size, `%v` of the float64 prints the number as `%d` does. */
  lemma WholeFloatPlain(i: int)
    requires -Million < i < Million
    ensures WholeFloatText(i) == FormatInt(i)
  {
    assert Pow10(6) == Million;
    ShortDecimal(if i < 0 then -i else i, 6);
  }

  /** The `%e` form holds an `e`. */
  lemma ExponentFormHasExponent(digits: string)
    requires |digits| >= 1
    ensures 'e' in ExponentForm(digits)
  {
    var fraction := TrimZeros(digits[1..]);
    var head := [digits[0]] + (if fraction == [] then "" else "." + fraction);
    assert ExponentForm(digits) == head + "e+" + ExponentText(|digits| - 1);
    assert ExponentForm(digits)[|head|] == 'e';
  }

  /** From a million on, `%v` of the float64 holds an exponent, which `%d` never prints. */
  lemma WholeFloatExponent(i: int)
    requires i <= -Million || Million <= i
    ensures 'e' in WholeFloatText(i)
    ensures 'e' !in FormatInt(i)
  {
    assert Pow10(6) == Million;
    var digits := NatToDecimal(if i < 0 then -i else i);
    LongDecimal(if i < 0 then -i else i, 6);
    var sign := if i < 0 then "-" else "";
    assert WholeFloatText(i) == sign + ExponentForm(digits);
    ExponentFormHasExponent(digits);
    var k :| 0 <= k < |ExponentForm(digits)| && ExponentForm(digits)[k] == 'e';
    assert WholeFloatText(i)[|sign| + k] == 'e';
    var f := FormatInt(i);
    forall k | 0 <= k < |f| ensures f[k] != 'e' {
    }
  }

  lemma MillionDecimal()
    ensures NatToDecimal(1_000_000) == "1000000"
  {
    assert NatToDecimal(1) == "1";
    assert NatToDecimal(10) == "10";
    assert NatToDecimal(100) == "100";
    assert NatToDecimal(1_000) == "1000";
    assert NatToDecimal(10_000) == "10000";
    assert NatToDecimal(100_000) == "100000";
    assert NatToDecimal(1_000_000) == NatToDecimal(100_000) + [DigitChar(0)];
  }

  lemma MillionForm()
    ensures ExponentForm("1000000") == "1e+06"
  {
    assert "1000000"[1..] == "000000";
    assert TrimZeros("000000") == "" by {
      assert "000000"[..5] == "00000" && "00000"[..4] == "0000" && "0000"[..3] == "000";
      assert "000"[..2] == "00" && "00"[..1] == "0" && "0"[..0] == "";
    }
    assert ExponentText(6) == "06";
  }

  /** A million prints as "1e+06". */
  lemma MillionText()
    ensures FormatInt(1_000_000) == "1000000"
    ensures WholeFloatText(1_000_000) == "1e+06"
  {
    MillionDecimal();
    MillionForm();
  }

  lemma SevenDigitDecimal()
    ensures NatToDecimal(1_234_567) == "1234567"
  {
    assert NatToDecimal(1) == "1";
    assert NatToDecimal(12) == "12";
    assert NatToDecimal(123) == "123";
    assert NatToDecimal(1_234) == "1234";
    assert NatToDecimal(12_345) == "12345";
    assert NatToDecimal(123_456) == "123456";
    assert NatToDecimal(1_234_567) == NatToDecimal(123_456) + [DigitChar(7)];
  }

  lemma SevenDigitForm()
    ensures ExponentForm("1234567") == "1.234567e+06"
  {
    var digits := "1234567";
    assert digits[1..] == "234567";
    assert TrimZeros(digits[1..]) == "234567" by {
      assert digits[1..][|digits[1..]| - 1] == '7';
    }
    assert ExponentText(|digits| - 1) == "06";
  }

  /** 1234567 prints as "1.234567e+06". */
  lemma SevenDigitText()
    ensures WholeFloatText(1_234_567) == "1.234567e+06"
  {
    SevenDigitDecimal();
    SevenDigitForm();
  }
}
