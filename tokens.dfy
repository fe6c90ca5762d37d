/** The token model of token/token.go: token kinds, source positions, and their text renderings. */
module Tokens {
  import opened Wrappers
  import opened Strconv
  import opened Strs

  /** A token kind; Go's TType is a uint8. */
  newtype TType = x: int | 0 <= x < 256

  // The kinds are consecutive from 0, in this order.
  const Identifier: TType := 0
  const Boolean: TType := 1
  const Number: TType := 2
  const Operator: TType := 3
  const Delimiter: TType := 4
  const Keyword: TType := 5
  const Comment: TType := 6
  const EOF: TType := 7

  /** TType.String: the kind's name, or "Unknown" for a value that names no kind. */
  function KindName(t: TType): (r: string)
    ensures r == "Unknown" <==> t > EOF
    ensures '<' !in r
  {
    if t == Identifier then "Identifier"
    else if t == Boolean then "Boolean"
    else if t == Number then "Number"
    else if t == Operator then "Operator"
    else if t == Delimiter then "Delimiter"
    else if t == Keyword then "Keyword"
    else if t == Comment then "Comment"
    else if t == EOF then "EOF"
    else "Unknown"
  }

  /** The kind a name stands for; the partner of KindName. */
  function KindNamed(name: string): Option<TType> {
    if name == "Identifier" then Some(Identifier)
    else if name == "Boolean" then Some(Boolean)
    else if name == "Number" then Some(Number)
    else if name == "Operator" then Some(Operator)
    else if name == "Delimiter" then Some(Delimiter)
    else if name == "Keyword" then Some(Keyword)
    else if name == "Comment" then Some(Comment)
    else if name == "EOF" then Some(EOF)
    else None
  }

  /** The eight kinds 0..7 have eight distinct names, and every other value reads as "Unknown". */
  lemma KindNameRoundTrip(t: TType)
    ensures KindNamed(KindName(t)) == if t <= EOF then Some(t) else None
  {
  }

  /** A source location: file name, 1-based line and column. */
  datatype Position = Position(file: string, line: int, col: int) {
    /** Position.String: File:Line:Col. */
    function String(): string {
      file + ":" + Itoa(line) + ":" + Itoa(col)
    }
  }

  /** A kind with the token's text. */
  datatype TokenType = TokenType(ttype: TType, value: string) {
    /** TokenType.String: Kind<"quoted text">. */
    function String(): string {
      KindName(ttype) + "<" + Quote(value) + ">"
    }
  }

  /** A token: TokenType and Position, both embedded, so their fields read as the token's own. */
  datatype Token = Token(tokenType: TokenType, position: Position) {
    function Type(): TType { tokenType.ttype }
    function Value(): string { tokenType.value }

    /** Token.String renders the TokenType alone. */
    function String(): string {
      tokenType.String()
    }
  }

  /** NewToken builds the token from exactly the kind, text and position it is given. */
  function NewToken(t: TType, v: string, p: Position): (r: Token)
    ensures r.Type() == t && r.Value() == v && r.position == p
  {
    Token(TokenType(t, v), p)
  }

  lemma {:induction false} IndexOfSeparator(x: string, y: string, d: char)
    requires d !in x
    ensures IndexOf(x + [d] + y, d) == |x|
  {
    if x != [] {
      assert (x + [d] + y)[1..] == x[1..] + [d] + y;
      IndexOfSeparator(x[1..], y, d);
    }
  }

  lemma {:induction false} TrailingRunSeparator(x: string, y: string, d: char)
    requires d !in y
    ensures TrailingRun(x + [d] + y, d) == |y|
  {
    var s := x + [d] + y;
    if y != [] {
      assert s[..|s| - 1] == x + [d] + y[..|y| - 1];
      TrailingRunSeparator(x, y[..|y| - 1], d);
    }
  }

  /** Splitting at the first occurrence of a separator character is unambiguous. */
  lemma SplitAtFirst(x: string, y: string, x': string, y': string, d: char)
    requires d !in x && d !in x'
    requires x + [d] + y == x' + [d] + y'
    ensures x == x' && y == y'
  {
    var s, s' := x + [d] + y, x' + [d] + y';
    IndexOfSeparator(x, y, d);
    IndexOfSeparator(x', y', d);
    assert x == s[..|x|] && x' == s'[..|x'|];
    assert y == s[|x| + 1..] && y' == s'[|x'| + 1..];
  }

  /** Splitting at the last occurrence of a separator character is unambiguous. */
  lemma SplitAtLast(x: string, y: string, x': string, y': string, d: char)
    requires d !in y && d !in y'
    requires x + [d] + y == x' + [d] + y'
    ensures x == x' && y == y'
  {
    var s, s' := x + [d] + y, x' + [d] + y';
    TrailingRunSeparator(x, y, d);
    TrailingRunSeparator(x', y', d);
    assert x == s[..|x|] && x' == s'[..|x'|];
    assert y == s[|x| + 1..] && y' == s'[|x'| + 1..];
  }

  lemma ItoaHasNoColon(n: int)
    ensures ':' !in Itoa(n)
  {
  }

  /** Position.String loses nothing: different positions render differently, even when the file name
      itself contains ':' (the line and column are read from the right). */
  lemma PositionStringInjective(p: Position, q: Position)
    requires p.String() == q.String()
    ensures p == q
  {
    ItoaHasNoColon(p.line);
    ItoaHasNoColon(p.col);
    ItoaHasNoColon(q.line);
    ItoaHasNoColon(q.col);
    SplitAtLast(p.file + ":" + Itoa(p.line), Itoa(p.col), q.file + ":" + Itoa(q.line), Itoa(q.col), ':');
    SplitAtLast(p.file, Itoa(p.line), q.file, Itoa(q.line), ':');
    ItoaInjective(p.line, q.line);
    ItoaInjective(p.col, q.col);
  }

  /** For the eight real kinds, TokenType.String determines the kind and the text. */
  lemma TokenTypeStringInjective(a: TokenType, b: TokenType)
    requires a.ttype <= EOF && b.ttype <= EOF
    requires a.String() == b.String()
    ensures a == b
  {
    var qa, qb := Quote(a.value) + ">", Quote(b.value) + ">";
    assert a.String() == KindName(a.ttype) + ['<'] + qa;
    assert b.String() == KindName(b.ttype) + ['<'] + qb;
    SplitAtFirst(KindName(a.ttype), qa, KindName(b.ttype), qb, '<');
    assert Quote(a.value) == qa[..|qa| - 1] && Quote(b.value) == qb[..|qb| - 1];
    QuoteInjective(a.value, b.value);
    KindNameRoundTrip(a.ttype);
    KindNameRoundTrip(b.ttype);
  }

  /** Token.String depends on the TokenType only: two tokens of a real kind render alike exactly when their
      kind and text agree, wherever they stand. */
  lemma TokenStringIgnoresPosition(s: Token, t: Token)
    requires s.Type() <= EOF && t.Type() <= EOF
    ensures s.String() == t.String() <==> s.tokenType == t.tokenType
  {
    if s.String() == t.String() {
      TokenTypeStringInjective(s.tokenType, t.tokenType);
    }
  }
}
