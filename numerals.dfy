/** Digit strings and their values: the arithmetic shared by Go's strconv and Rust's from_str_radix. */
module Numerals {

  /** One more than the largest u64 / uint64 value. */
  const U64Limit: nat := 0x1_0000_0000_0000_0000

  type Uint64 = x: int | 0 <= x < U64Limit

  /** The value of c as a digit: '0'-'9' are 0-9 and letters of either case are 10-35; anything else is -1. */
  function DigitValue(c: char): (r: int)
    ensures -1 <= r < 36
    ensures r == -1 <==> !(('0' <= c <= '9') || ('a' <= c <= 'z') || ('A' <= c <= 'Z'))
  {
    if '0' <= c <= '9' then c as int - '0' as int
    else if 'a' <= c <= 'z' then c as int - 'a' as int + 10
    else if 'A' <= c <= 'Z' then c as int - 'A' as int + 10
    else -1
  }

  predicate IsDigitIn(c: char, radix: nat) {
    0 <= DigitValue(c) < radix
  }

  predicate AllDigits(s: string, radix: nat) {
    forall i :: 0 <= i < |s| ==> IsDigitIn(s[i], radix)
  }

  /** The value of a digit string, most significant digit first. */
  function DigitsValue(s: string, radix: nat): nat
    requires AllDigits(s, radix)
  {
    if s == [] then 0 else DigitsValue(s[..|s| - 1], radix) * radix + DigitValue(s[|s| - 1])
  }

  /** The digit character for d < 10. */
  function DecimalDigit(d: nat): (c: char)
    requires d < 10
    ensures '0' <= c <= '9' && DigitValue(c) == d
  {
    ('0' as int + d) as char
  }

  /** Base-10 rendering of a natural number, without leading zeros. */
  function NatToDecimal(n: nat): (r: string)
    ensures |r| >= 1 && AllDigits(r, 10)
    ensures r[0] == '0' ==> n == 0
  {
    if n < 10 then [DecimalDigit(n)] else NatToDecimal(n / 10) + [DecimalDigit(n % 10)]
  }

  /** Reading back the rendering of n gives n. */
  lemma {:induction false} NatToDecimalValue(n: nat)
    ensures DigitsValue(NatToDecimal(n), 10) == n
  {
    var r := NatToDecimal(n);
    if n >= 10 {
      NatToDecimalValue(n / 10);
      assert r[..|r| - 1] == NatToDecimal(n / 10);
    }
  }

  lemma NatToDecimalInjective(m: nat, n: nat)
    requires NatToDecimal(m) == NatToDecimal(n)
    ensures m == n
  {
    NatToDecimalValue(m);
    NatToDecimalValue(n);
  }

  /** A longer all-digit prefix never has a smaller value. */
  lemma {:induction false} DigitsValuePrefix(s: string, k: nat, radix: nat)
    requires AllDigits(s, radix) && k <= |s| && radix >= 1
    ensures AllDigits(s[..k], radix)
    ensures DigitsValue(s[..k], radix) <= DigitsValue(s, radix)
  {
    if k < |s| {
      var init := s[..|s| - 1];
      DigitsValuePrefix(init, k, radix);
      assert init[..k] == s[..k];
      var v := DigitsValue(init, radix);
      assert DigitsValue(s, radix) == v * radix + DigitValue(s[|s| - 1]);
      assert v * radix >= v by { MulMonotone(v, radix); }
    } else {
      assert s[..k] == s;
    }
  }

  lemma MulMonotone(v: nat, radix: nat)
    requires radix >= 1
    ensures v * radix >= v
  {
  }

  /** Extending an all-digit prefix by one digit multiplies by the radix and adds that digit. */
  lemma DigitsValueSnoc(s: string, k: nat, radix: nat)
    requires k < |s| && AllDigits(s[..k], radix) && IsDigitIn(s[k], radix)
    ensures AllDigits(s[..k + 1], radix)
    ensures DigitsValue(s[..k + 1], radix) == DigitsValue(s[..k], radix) * radix + DigitValue(s[k])
  {
    assert s[..k + 1][..k] == s[..k];
  }
}
