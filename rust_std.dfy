/** The parts of Rust's standard library that src/main.rs calls: char::is_whitespace, char::is_alphanumeric,
    char::is_digit(10), and u64::from_str_radix with the Display text of its error. */
module RustStd {
  import opened Wrappers
  import opened Numerals

  /** char::is_whitespace: the characters with the Unicode White_Space property. */
  predicate IsWhitespace(c: char) {
    ('\t' <= c <= '\r') || c == ' ' || c == '\U{85}' || c == '\U{A0}' || c == '\U{1680}'
    || ('\U{2000}' <= c <= '\U{200A}') || c == '\U{2028}' || c == '\U{2029}' || c == '\U{202F}'
    || c == '\U{205F}' || c == '\U{3000}'
  }

  /** char::is_alphanumeric, restricted to ASCII letters and digits. */
  predicate IsAlphanumeric(c: char) {
    ('a' <= c <= 'z') || ('A' <= c <= 'Z') || ('0' <= c <= '9')
  }

  /** char::is_digit(10). */
  predicate IsDecimalDigit(c: char) {
    '0' <= c <= '9'
  }

  /** The kinds of ParseIntError that an unsigned from_str_radix can return. */
  datatype IntErrorKind = Empty | InvalidDigit | PosOverflow

  /** ParseIntError's Display text, which to_string returns. */
  function Describe(kind: IntErrorKind): string {
    match kind
    case Empty => "cannot parse integer from empty string"
    case InvalidDigit => "invalid digit found in string"
    case PosOverflow => "number too large to fit in target type"
  }

  /** The digits from_str_radix reads: all of src, or what follows a leading '+' when there is more. */
  function Digits(src: string): string {
    if |src| >= 2 && src[0] == '+' then src[1..] else src
  }

  /** The all-digit prefix s[..k] already has a value that does not fit in a u64. */
  ghost predicate OverflowsAt(s: string, k: nat, radix: nat) {
    k <= |s| && AllDigits(s[..k], radix) && DigitsValue(s[..k], radix) >= U64Limit
  }

  /** u64::from_str_radix(src, radix): an empty string, a lone sign, a character that is not a digit of the
      radix and a value past 2^64 - 1 are errors; the digits are read left to right, and the first problem
      met decides, a bad digit before an overflow at the same digit. */
  function FromStrRadix(src: string, radix: nat): (r: Result<Uint64, IntErrorKind>)
    requires 2 <= radix <= 36
    ensures r == Failure(Empty) <==> src == []
    ensures r.Success? <==> src != [] && AllDigits(Digits(src), radix) && DigitsValue(Digits(src), radix) < U64Limit
    ensures r.Success? ==> r.value == DigitsValue(Digits(src), radix)
    ensures r == Failure(PosOverflow) <==> exists k :: OverflowsAt(Digits(src), k, radix)
  {
    if src == [] then Failure(Empty)
    else if |src| == 1 && (src[0] == '+' || src[0] == '-') then
      assert forall k :: 0 < k <= |src| ==> src[..k] == src;
      assert !IsDigitIn(src[0], radix);
      Failure(InvalidDigit)
    else
      var digits := Digits(src);
      assert digits[..0] == [];
      Accumulate(digits, radix, 0, 0)
  }

  /** The digit loop of from_str_radix, with acc the value of the digits s[..i] read so far. */
  function Accumulate(s: string, radix: nat, i: nat, acc: Uint64): (r: Result<Uint64, IntErrorKind>)
    requires 2 <= radix <= 36 && i <= |s| && AllDigits(s[..i], radix) && acc == DigitsValue(s[..i], radix)
    ensures r != Failure(Empty)
    ensures r.Success? <==> AllDigits(s, radix) && DigitsValue(s, radix) < U64Limit
    ensures r.Success? ==> r.value == DigitsValue(s, radix)
    ensures r == Failure(PosOverflow) <==> exists k :: i < k && OverflowsAt(s, k, radix)
    decreases |s| - i
  {
    if i == |s| then
      assert s[..i] == s;
      assert forall k :: i < k ==> !OverflowsAt(s, k, radix);
      Success(acc)
    else if !IsDigitIn(s[i], radix) then
      assert forall k :: i < k && k <= |s| ==> s[..k][i] == s[i];
      Failure(InvalidDigit)
    else
      var d := DigitValue(s[i]);
      DigitsValueSnoc(s, i, radix);
      if acc * radix >= U64Limit || acc * radix + d >= U64Limit then
        assert OverflowsAt(s, i + 1, radix);
        assert AllDigits(s, radix) ==> DigitsValue(s, radix) >= U64Limit by {
          if AllDigits(s, radix) { DigitsValuePrefix(s, i + 1, radix); }
        }
        Failure(PosOverflow)
      else
        Accumulate(s, radix, i + 1, acc * radix + d)
  }

  /** Reading back the decimal rendering of a u64 gives it back. */
  lemma FromStrRadixDecimal(n: Uint64)
    ensures FromStrRadix(NatToDecimal(n), 10) == Success(n)
  {
    var s := NatToDecimal(n);
    NatToDecimalValue(n);
    assert Digits(s) == s;
  }

  /** One leading '+' is accepted and changes nothing; a leading '-' is a bad digit. */
  lemma FromStrRadixSign(digits: string, radix: nat)
    requires 2 <= radix <= 36 && digits != [] && digits[0] != '+'
    ensures FromStrRadix(['+'] + digits, radix) == FromStrRadix(digits, radix)
    ensures FromStrRadix(['-'] + digits, radix) == Failure(InvalidDigit)
  {
    assert Digits(['+'] + digits) == digits;
    var minus := ['-'] + digits;
    assert Digits(minus) == minus;
    assert !IsDigitIn(minus[0], radix);
    assert forall k :: 0 < k <= |minus| ==> minus[..k][0] == '-';
  }
}
