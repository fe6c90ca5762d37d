/** _parse_number of src/main.rs: the pass over the lexer's tokens that turns the identifiers that spell
    numbers into Number tokens. */
module RustNumbers {
  import opened Wrappers
  import opened Numerals
  import opened RustStd
  import opened RustScan

  /** x starts with '0' followed by the radix letter r, as starts_with("0x") and starts_with("0b") test. */
  predicate HasPrefix(x: string, r: char) {
    |x| >= 2 && x[0] == '0' && x[1] == r
  }

  /** The Number token that replaces t, or the Display text of the from_str_radix error. */
  function NumberToken(t: Token, n: Result<Uint64, IntErrorKind>): (r: Result<Option<Token>, string>)
    ensures n.Success? ==> r == Success(Some(Token(Number(n.value), t.line, t.column, t.index)))
    ensures n.Failure? ==> r == Failure(Describe(n.error))
  {
    match n
    case Success(v) => Success(Some(Token(Number(v), t.line, t.column, t.index)))
    case Failure(kind) => Failure(Describe(kind))
  }

  /** One iteration of the loop of _parse_number: "0x" and "0b" identifiers are read in radix 16 and 2
      after the prefix, other identifiers that start with a decimal digit in radix 10; other identifiers
      are kept, the empty one is dropped, and every other token is kept as it is. */
  function Convert(t: Token): Result<Option<Token>, string> {
    match t.tokenType
    case Identifier(x) =>
      if HasPrefix(x, 'x') then NumberToken(t, FromStrRadix(x[2..], 16))
      else if HasPrefix(x, 'b') then NumberToken(t, FromStrRadix(x[2..], 2))
      else if x == [] then Success(None)
      else if IsDecimalDigit(x[0]) then NumberToken(t, FromStrRadix(x, 10))
      else Success(Some(t))
    case _ => Success(Some(t))
  }

  /** _parse_number as a function of the tokens: the converted tokens in order, or the error of the first
      token that fails. */
  function ParseNumbers(ts: seq<Token>): Result<seq<Token>, string> {
    if ts == [] then Success([])
    else
      match ParseNumbers(ts[..|ts| - 1])
      case Failure(e) => Failure(e)
      case Success(out) =>
        match Convert(ts[|ts| - 1])
        case Failure(e) => Failure(e)
        case Success(o) => Success(if o.Some? then out + [o.value] else out)
  }

  /** _parse_number: the loop over the tokens, returning at the first conversion that fails. */
  method ParseNumber(tokens: seq<Token>) returns (r: Result<seq<Token>, string>)
    ensures r == ParseNumbers(tokens)
  {
    var parsedTokens: seq<Token> := [];
    for i := 0 to |tokens|
      invariant ParseNumbers(tokens[..i]) == Success(parsedTokens)
    {
      var token := tokens[i];
      ParseNumbersStep(tokens, i, parsedTokens);
      match token.tokenType {
        case Identifier(x) =>
          if HasPrefix(x, 'x') {
            var num := FromStrRadix(x[2..], 16);
            if num.Failure? {
              FailureSticks(tokens, i + 1);
              return Failure(Describe(num.error));
            }
            parsedTokens := parsedTokens + [Token(Number(num.value), token.line, token.column, token.index)];
          } else if HasPrefix(x, 'b') {
            var num := FromStrRadix(x[2..], 2);
            if num.Failure? {
              FailureSticks(tokens, i + 1);
              return Failure(Describe(num.error));
            }
            parsedTokens := parsedTokens + [Token(Number(num.value), token.line, token.column, token.index)];
          } else if |x| > 0 {
            if IsDecimalDigit(x[0]) {
              var num := FromStrRadix(x, 10);
              if num.Failure? {
                FailureSticks(tokens, i + 1);
                return Failure(Describe(num.error));
              }
              parsedTokens := parsedTokens + [Token(Number(num.value), token.line, token.column, token.index)];
            } else {
              parsedTokens := parsedTokens + [Token(Identifier(x), token.line, token.column, token.index)];
            }
          }
        case _ =>
          parsedTokens := parsedTokens + [token];
      }
    }
    assert tokens[..|tokens|] == tokens;
    return Success(parsedTokens);
  }

  /** One more token: the result grows by its conversion, or fails with its error. */
  lemma ParseNumbersStep(ts: seq<Token>, i: nat, out: seq<Token>)
    requires i < |ts| && ParseNumbers(ts[..i]) == Success(out)
    ensures ParseNumbers(ts[..i + 1]) == match Convert(ts[i])
      case Failure(e) => Failure(e)
      case Success(o) => Success(if o.Some? then out + [o.value] else out)
  {
    assert ts[..i + 1][..i] == ts[..i];
  }

  /** Once a prefix fails, the whole list fails with the same error. */
  lemma {:induction false} FailureSticks(ts: seq<Token>, i: nat)
    requires i <= |ts| && ParseNumbers(ts[..i]).Failure?
    ensures ParseNumbers(ts) == ParseNumbers(ts[..i])
    decreases |ts| - i
  {
    if i < |ts| {
      assert ts[..i + 1][..i] == ts[..i];
      FailureSticks(ts, i + 1);
    } else {
      assert ts[..i] == ts;
    }
  }

  // ---------------------------------------------------------------- properties

  /** The tokens _parse_number drops: identifiers with empty text. */
  function EmptyIdentifiers(ts: seq<Token>): nat {
    if ts == [] then 0
    else EmptyIdentifiers(ts[..|ts| - 1]) + if ts[|ts| - 1].tokenType == Identifier([]) then 1 else 0
  }

  /** A conversion that succeeds keeps the token's line, column and index, and drops exactly the empty
      identifier. */
  lemma ConvertKeepsPlace(t: Token)
    requires Convert(t).Success?
    ensures Convert(t).value.None? <==> t.tokenType == Identifier([])
    ensures Convert(t).value.Some? ==>
      var u := Convert(t).value.value; u.line == t.line && u.column == t.column && u.index == t.index
  {
  }

  /** Only identifiers are converted, and a conversion fails exactly when from_str_radix fails, with the
      Display text of its error. */
  lemma ConvertFails(t: Token)
    ensures Convert(t).Failure? ==> t.tokenType.Identifier? && t.tokenType.text != []
    ensures Convert(t).Failure? <==>
      t.tokenType.Identifier? && var x := t.tokenType.text;
      (HasPrefix(x, 'x') && FromStrRadix(x[2..], 16).Failure?)
      || (HasPrefix(x, 'b') && !HasPrefix(x, 'x') && FromStrRadix(x[2..], 2).Failure?)
      || (!HasPrefix(x, 'x') && !HasPrefix(x, 'b') && x != [] && IsDecimalDigit(x[0]) && FromStrRadix(x, 10).Failure?)
  {
  }

  /** A hexadecimal identifier becomes the Number token of its digits' value, when they are all hexadecimal
      digits and the value fits in a u64. */
  lemma ConvertHex(t: Token, digits: string)
    requires t.tokenType == Identifier("0x" + digits) && digits != []
    requires AllDigits(digits, 16) && DigitsValue(digits, 16) < U64Limit
    ensures Convert(t) == Success(Some(Token(Number(DigitsValue(digits, 16)), t.line, t.column, t.index)))
  {
    assert ("0x" + digits)[2..] == digits;
    assert IsDigitIn(digits[0], 16);
    assert Digits(digits) == digits;
  }

  /** A binary identifier becomes the Number token of its digits' value, when they are all binary digits
      and the value fits in a u64. */
  lemma ConvertBinary(t: Token, digits: string)
    requires t.tokenType == Identifier("0b" + digits) && digits != []
    requires AllDigits(digits, 2) && DigitsValue(digits, 2) < U64Limit
    ensures Convert(t) == Success(Some(Token(Number(DigitsValue(digits, 2)), t.line, t.column, t.index)))
  {
    assert ("0b" + digits)[2..] == digits;
    assert IsDigitIn(digits[0], 2);
    assert Digits(digits) == digits;
  }

  /** A decimal identifier, leading zeros allowed, becomes the Number token of its digits' value, when they
      are all decimal digits and the value fits in a u64. */
  lemma ConvertDecimalDigits(t: Token, digits: string)
    requires t.tokenType == Identifier(digits) && digits != []
    requires AllDigits(digits, 10) && DigitsValue(digits, 10) < U64Limit
    ensures Convert(t) == Success(Some(Token(Number(DigitsValue(digits, 10)), t.line, t.column, t.index)))
  {
    assert IsDigitIn(digits[0], 10);
    assert !HasPrefix(digits, 'x') && !HasPrefix(digits, 'b') by {
      if |digits| >= 2 {
        assert IsDigitIn(digits[1], 10);
      }
    }
    assert Digits(digits) == digits;
  }

  /** The decimal rendering of a u64 is converted back to that number. */
  lemma ConvertDecimal(t: Token, n: Uint64)
    requires t.tokenType == Identifier(NatToDecimal(n))
    ensures Convert(t) == Success(Some(Token(Number(n), t.line, t.column, t.index)))
  {
    var x := NatToDecimal(n);
    FromStrRadixDecimal(n);
    NatToDecimalValue(n);
    assert AllDigits(x, 10) && x != [];
    assert IsDigitIn(x[0], 10);
    assert !HasPrefix(x, 'x') && !HasPrefix(x, 'b');
  }

  /** On success, the result has one token for each input token except the dropped empty identifiers. */
  lemma {:induction false} ParseNumbersLength(ts: seq<Token>)
    requires ParseNumbers(ts).Success?
    ensures |ParseNumbers(ts).value| == |ts| - EmptyIdentifiers(ts)
  {
    if ts != [] {
      ParseNumbersLength(ts[..|ts| - 1]);
      ConvertKeepsPlace(ts[|ts| - 1]);
    }
  }

  /** _parse_number fails exactly when some token's conversion fails, and then with the error of the first
      such token. */
  lemma {:induction false} ParseNumbersFailure(ts: seq<Token>)
    ensures ParseNumbers(ts).Failure? <==> exists i :: 0 <= i < |ts| && Convert(ts[i]).Failure?
    ensures ParseNumbers(ts).Failure? ==>
      exists i :: 0 <= i < |ts| && Convert(ts[i]).Failure? && ParseNumbers(ts).error == Convert(ts[i]).error
                  && forall j :: 0 <= j < i ==> Convert(ts[j]).Success?
  {
    if ts != [] {
      var init := ts[..|ts| - 1];
      ParseNumbersFailure(init);
      assert forall i :: 0 <= i < |init| ==> init[i] == ts[i];
      if ParseNumbers(init).Failure? {
        var i :| 0 <= i < |init| && Convert(init[i]).Failure? && ParseNumbers(init).error == Convert(init[i]).error
                 && forall j :: 0 <= j < i ==> Convert(init[j]).Success?;
        assert Convert(ts[i]).Failure?;
      } else if Convert(ts[|ts| - 1]).Failure? {
        assert forall j :: 0 <= j < |ts| - 1 ==> Convert(ts[j]).Success?;
      }
    }
  }

  /** A list with no identifiers comes back unchanged. */
  lemma {:induction false} ParseNumbersIdentity(ts: seq<Token>)
    requires forall i :: 0 <= i < |ts| ==> !ts[i].tokenType.Identifier?
    ensures ParseNumbers(ts) == Success(ts)
  {
    if ts != [] {
      ParseNumbersIdentity(ts[..|ts| - 1]);
      assert ts[..|ts| - 1] + [ts[|ts| - 1]] == ts;
    }
  }

  /** No identifier in the result is empty or starts with a decimal digit: those were dropped or became
      numbers. */
  lemma {:induction false} ParseNumbersIdentifiers(ts: seq<Token>)
    requires ParseNumbers(ts).Success?
    ensures forall u :: u in ParseNumbers(ts).value && u.tokenType.Identifier? ==>
      u.tokenType.text != [] && !IsDecimalDigit(u.tokenType.text[0])
  {
    if ts != [] {
      ParseNumbersIdentifiers(ts[..|ts| - 1]);
    }
  }
}
