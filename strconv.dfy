/** The parts of Go's strconv package that the front end calls: Itoa, ParseUint (base 10, 64 bits),
    Quote, and the NumError value that ParseUint returns. */
module Strconv {
  import opened Wrappers
  import opened Numerals

  // ---------------------------------------------------------------- Itoa

  /** strconv.Itoa: base-10 text of n, with a leading '-' when n is negative. */
  function Itoa(n: int): (r: string)
    ensures |r| >= 1
    ensures forall i :: 0 <= i < |r| ==> r[i] == '-' || '0' <= r[i] <= '9'
  {
    if n < 0 then "-" + NatToDecimal(-n) else NatToDecimal(n)
  }

  /** Reads an optionally negative decimal numeral; the partner of Itoa. */
  function DecimalToInt(s: string): Option<int> {
    if |s| >= 2 && s[0] == '-' && AllDigits(s[1..], 10) then Some(-(DigitsValue(s[1..], 10) as int))
    else if |s| >= 1 && AllDigits(s, 10) then Some(DigitsValue(s, 10))
    else None
  }

  lemma ItoaRoundTrip(n: int)
    ensures DecimalToInt(Itoa(n)) == Some(n)
  {
    var r := Itoa(n);
    if n < 0 {
      assert r[1..] == NatToDecimal(-n);
      NatToDecimalValue(-n);
    } else {
      NatToDecimalValue(n);
    }
  }

  lemma ItoaInjective(m: int, n: int)
    requires Itoa(m) == Itoa(n)
    ensures m == n
  {
    ItoaRoundTrip(m);
    ItoaRoundTrip(n);
  }

  // ---------------------------------------------------------------- ParseUint

  datatype NumErrorKind = ErrSyntax | ErrRange

  /** strconv.NumError: the function that failed, its input, and why. */
  datatype NumError = NumError(func: string, num: string, err: NumErrorKind) {
    /** NumError.Error(): strconv.<Func>: parsing <quoted input>: <reason> */
    function Error(): string {
      "strconv." + func + ": parsing " + Quote(num) + ": "
      + (match err case ErrSyntax => "invalid syntax" case ErrRange => "value out of range")
    }
  }

  const MaxUint64: nat := U64Limit - 1
  /** ParseUint's early overflow test: at or above this value, n * 10 no longer fits. */
  const Cutoff10: nat := MaxUint64 / 10 + 1

  /** The all-digit prefix s[..k] already has a value that does not fit in 64 bits. */
  predicate OverflowsAt(s: string, k: nat) {
    k <= |s| && AllDigits(s[..k], 10) && DigitsValue(s[..k], 10) >= U64Limit
  }

  /** strconv.ParseUint(s, 10, 64). Empty input and a non-digit are syntax errors, a value past 2^64 - 1 a
      range error; digits are read left to right and the first problem met decides. */
  function ParseUint(s: string): (r: Result<Uint64, NumError>)
    ensures r.Success? <==> |s| > 0 && AllDigits(s, 10) && DigitsValue(s, 10) < U64Limit
    ensures r.Success? ==> r.value == DigitsValue(s, 10)
    ensures r.Failure? ==> r.error.func == "ParseUint" && r.error.num == s
    ensures r.Failure? ==> (r.error.err == ErrRange <==> exists k :: OverflowsAt(s, k))
  {
    if s == [] then Failure(NumError("ParseUint", s, ErrSyntax))
    else
      assert s[..0] == [];
      ScanUint(s, 0, 0)
  }

  /** The digit loop of ParseUint, with n the value of the digits s[..i] read so far. */
  function ScanUint(s: string, i: nat, n: nat): (r: Result<Uint64, NumError>)
    requires i <= |s| && AllDigits(s[..i], 10) && n == DigitsValue(s[..i], 10) && n < U64Limit
    ensures r.Success? <==> AllDigits(s, 10) && DigitsValue(s, 10) < U64Limit
    ensures r.Success? ==> r.value == DigitsValue(s, 10)
    ensures r.Failure? ==> r.error.func == "ParseUint" && r.error.num == s
    ensures r.Failure? ==> (r.error.err == ErrRange <==> exists k :: i < k && OverflowsAt(s, k))
    decreases |s| - i
  {
    if i == |s| then
      assert s[..i] == s;
      assert forall k :: i < k ==> !OverflowsAt(s, k);
      Success(n)
    else if !IsDigitIn(s[i], 10) then
      assert forall k :: i < k && k <= |s| ==> s[..k][i] == s[i];
      Failure(NumError("ParseUint", s, ErrSyntax))
    else
      var d := DigitValue(s[i]);
      DigitsValueSnoc(s, i, 10);
      if n >= Cutoff10 || n * 10 + d > MaxUint64 then
        assert OverflowsAt(s, i + 1);
        assert AllDigits(s, 10) ==> DigitsValue(s, 10) >= U64Limit by {
          if AllDigits(s, 10) { DigitsValuePrefix(s, i + 1, 10); }
        }
        Failure(NumError("ParseUint", s, ErrRange))
      else
        ScanUint(s, i + 1, n * 10 + d)
  }

  // ---------------------------------------------------------------- Quote

  const LowerHex: string := "0123456789abcdef"

  /** strconv.Quote's escape of one rune. Quotes and backslashes are escaped; ASCII controls use the seven
      named escapes or \xNN; printable ASCII and every rune above 0x7F are copied. */
  function QuoteRune(c: char): (r: string)
    ensures |r| >= 1
  {
    if c == '"' || c == '\\' then ['\\', c]
    else if ' ' <= c <= '~' || c as int > 0x7F then [c]
    else if c as int == 7 then "\\a"
    else if c as int == 8 then "\\b"
    else if c as int == 12 then "\\f"
    else if c == '\n' then "\\n"
    else if c == '\r' then "\\r"
    else if c == '\t' then "\\t"
    else if c as int == 11 then "\\v"
    else ['\\', 'x', LowerHex[c as int / 16], LowerHex[c as int % 16]]
  }

  function QuoteBody(s: string): string {
    if s == [] then [] else QuoteRune(s[0]) + QuoteBody(s[1..])
  }

  /** strconv.Quote: s in double quotes, each rune escaped as Go source would write it. */
  function Quote(s: string): (r: string)
    ensures |r| >= 2 && r[0] == '"' && r[|r| - 1] == '"'
  {
    "\"" + QuoteBody(s) + "\""
  }

  /** The value of a lower-case hex digit, or -1. */
  function HexValue(c: char): int {
    if '0' <= c <= '9' then c as int - '0' as int
    else if 'a' <= c <= 'f' then c as int - 'a' as int + 10
    else -1
  }

  /** Decodes what QuoteBody produces; None on text QuoteBody never produces. */
  function UnquoteBody(q: string): Option<string> {
    if q == [] then Some([])
    else if q[0] == '"' then None
    else if q[0] != '\\' then Prepend(q[0], UnquoteBody(q[1..]))
    else if |q| < 2 then None
    else if q[1] == '"' || q[1] == '\\' then Prepend(q[1], UnquoteBody(q[2..]))
    else if q[1] == 'a' then Prepend(7 as char, UnquoteBody(q[2..]))
    else if q[1] == 'b' then Prepend(8 as char, UnquoteBody(q[2..]))
    else if q[1] == 'f' then Prepend(12 as char, UnquoteBody(q[2..]))
    else if q[1] == 'n' then Prepend('\n', UnquoteBody(q[2..]))
    else if q[1] == 'r' then Prepend('\r', UnquoteBody(q[2..]))
    else if q[1] == 't' then Prepend('\t', UnquoteBody(q[2..]))
    else if q[1] == 'v' then Prepend(11 as char, UnquoteBody(q[2..]))
    else if q[1] == 'x' && |q| >= 4 && HexValue(q[2]) >= 0 && HexValue(q[3]) >= 0 then
      Prepend((HexValue(q[2]) * 16 + HexValue(q[3])) as char, UnquoteBody(q[4..]))
    else None
  }

  function Prepend(c: char, rest: Option<string>): Option<string> {
    match rest
    case None => None
    case Some(t) => Some([c] + t)
  }

  /** The inverse of Quote on its range. */
  function Unquote(q: string): Option<string> {
    if |q| >= 2 && q[0] == '"' && q[|q| - 1] == '"' then UnquoteBody(q[1..|q| - 1]) else None
  }

  lemma QuoteRuneDecodes(c: char, rest: string)
    ensures UnquoteBody(QuoteRune(c) + rest) == Prepend(c, UnquoteBody(rest))
  {
    var q := QuoteRune(c) + rest;
    if c == '"' || c == '\\' || (' ' <= c <= '~') || c as int > 0x7F {
      assert q[1..] == rest || q[2..] == rest;
      if c == '"' || c == '\\' { assert q[2..] == rest; } else { assert q[1..] == rest; }
    } else if c as int == 7 || c as int == 8 || c as int == 12 || c == '\n' || c == '\r' || c == '\t' || c as int == 11 {
      assert q[2..] == rest;
    } else {
      var n := c as int;
      assert n < 0x20 || n == 0x7F;
      assert HexValue(LowerHex[n / 16]) == n / 16;
      assert HexValue(LowerHex[n % 16]) == n % 16;
      assert q[4..] == rest;
      assert (n / 16 * 16 + n % 16) as char == c;
    }
  }

  lemma {:induction false} QuoteBodyRoundTrip(s: string)
    ensures UnquoteBody(QuoteBody(s)) == Some(s)
  {
    if s != [] {
      QuoteRuneDecodes(s[0], QuoteBody(s[1..]));
      QuoteBodyRoundTrip(s[1..]);
      assert [s[0]] + s[1..] == s;
    }
  }

  /** Quote loses nothing: unquoting its output gives the input back. */
  lemma QuoteRoundTrip(s: string)
    ensures Unquote(Quote(s)) == Some(s)
  {
    var q := Quote(s);
    assert q[1..|q| - 1] == QuoteBody(s);
    QuoteBodyRoundTrip(s);
  }

  lemma QuoteInjective(s: string, t: string)
    requires Quote(s) == Quote(t)
    ensures s == t
  {
    QuoteRoundTrip(s);
    QuoteRoundTrip(t);
  }
}
