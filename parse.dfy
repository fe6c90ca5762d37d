/** The recursive-descent parser of parse.go. Pure functions (SkipCommentsFrom, NumberAt, ValuesAt,
    EnumAt, TypeAt, ParseFrom) say what each parser method does from a token index, including the
    index-out-of-range panics the Go code runs into; the Parser class walks the token slice with its
    index and is proved to follow them. The accepted language is then characterised without indices:
    a run that finishes has read exactly a sequence of enum declarations, comments aside, and every such
    sequence is read to the end. */
module Parse {
  import opened Wrappers
  import opened Numerals
  import opened Strconv
  import opened Tokens
  import opened Ast
  import opened Grammar

  // ---------------------------------------------------------------- errors

  /** The messages the parser formats, kept as their kind and the value or token they name; Text renders
      one as the parser's fmt.Sprintf call does, a token through Token.String. */
  datatype Message =
    | UnexpectedNumber(value: string)
    | UnexpectedIdentifier(value: string)
    | UnexpectedKeyword(value: string)
    | UnexpectedKeywordToken(got: Token)
    | ExpectedEnum(got: Token)
    | ExpectedIdentifier(got: Token)
    | ExpectedType(got: Token)
    | ExpectedBrace(got: Token)
    | ExpectedEquals(got: Token)
    | ExpectedKeyword(got: Token)
  {
    function Text(): string {
      match this
      case UnexpectedNumber(v) => "unexpected numberLiteral " + v
      case UnexpectedIdentifier(v) => "unexpected identifier " + v
      case UnexpectedKeyword(v) => "unexpected keyword " + v
      case UnexpectedKeywordToken(t) => "unexpected keyword " + t.String()
      case ExpectedEnum(t) => "expected \"enum\" but got " + t.String()
      case ExpectedIdentifier(t) => "expected identifier but got " + t.String()
      case ExpectedType(t) => "expected type but got " + t.String()
      case ExpectedBrace(t) => "expected '{' but got " + t.String()
      case ExpectedEquals(t) => "expected '=' but got " + t.String()
      case ExpectedKeyword(t) => "expected keyword but got " + t.String()
    }
  }

  /** ParserError: the token slice, the index of the offending token, the message and that token's position. */
  datatype ParserError = ParserError(tokens: seq<Token>, pos: int, message: Message, position: Position) {
    /** File:Line:Col: Message. */
    function Error(): string {
      position.file + ":" + Itoa(position.line) + ":" + Itoa(position.col) + ": " + message.Text()
    }
  }

  /** newParserError: the error records the slice, the index and the position of the token at that index. */
  function NewParserError(tkns: seq<Token>, pos: int, msg: Message): (r: ParserError)
    requires 0 <= pos < |tkns|
    ensures r.tokens == tkns && r.pos == pos && r.message == msg && r.position == tkns[pos].position
  {
    ParserError(tkns, pos, msg, tkns[pos].position)
  }

  /** Error() renders the position as Position.String would, then ": " and the message, so the message can
      be read back from the text. */
  lemma {:induction false} ErrorEndsWithMessage(e: ParserError)
    ensures e.Error() == e.position.String() + ": " + e.message.Text()
    ensures var m := e.message.Text(); var n := |e.Error()| - |m|; n >= 2 && e.Error()[n..] == m && e.Error()[n - 2..n] == ": "
  {
    var s := e.position.String() + ": ";
    var m := e.message.Text();
    assert e.Error() == s + m;
    assert (s + m)[|s|..] == m;
  }

  /** What a parser method returns as its error: a ParserError, or the *strconv.NumError of parseNumber,
      passed on unwrapped. */
  datatype ParseError = Syntax(syntax: ParserError) | Conversion(conversion: NumError) {
    function Error(): string {
      match this
      case Syntax(e) => e.Error()
      case Conversion(e) => e.Error()
    }
  }

  /** One parser method run from a token index: a value and the index after it, an error and the index the
      parser stands at, or an index-out-of-range panic at the index it tried to read. */
  datatype Outcome<T> = Ok(value: T, next: nat) | Fail(error: ParseError, at: nat) | Crash(at: nat)

  function FailAt<T>(ts: seq<Token>, i: nat, msg: Message): Outcome<T>
    requires i < |ts|
  {
    Fail(Syntax(NewParserError(ts, i, msg)), i)
  }

  // ---------------------------------------------------------------- the parser methods as functions

  /** skipComments: the end of the run of Comment tokens starting at i. */
  function SkipCommentsFrom(ts: seq<Token>, i: nat): (r: nat)
    requires i <= |ts|
    ensures i <= r <= |ts|

    ensures r < |ts| ==> ts[r].Type() != Comment
    decreases |ts| - i
  {
    if i == |ts| || ts[i].Type() != Comment then i else SkipCommentsFrom(ts, i + 1)
  }

  /** Every token skipComments passes over is a comment. */
  lemma {:induction false} SkippedAreComments(ts: seq<Token>, i: nat)
    requires i <= |ts|
    ensures forall k :: i <= k < SkipCommentsFrom(ts, i) ==> ts[k].Type() == Comment
    decreases |ts| - i
  {
    if i < |ts| && ts[i].Type() == Comment {
      SkippedAreComments(ts, i + 1);
    }
  }

  /** parseNumber: the token's text as a base-10 uint64, or the conversion error at the same index. */
  function NumberAt(ts: seq<Token>, i: nat): (r: Outcome<Node>)
    requires i < |ts|
    ensures r.Ok? <==> IsNumberToken(ts[i])
    ensures r.Ok? ==> r == Ok(NumberNode(ts[i]), i + 1)
    ensures r.Fail? ==> r.at == i && r.error.Conversion? && r.error.conversion.num == ts[i].Value()
    ensures !r.Crash?
  {
    match ParseUint(ts[i].Value())
    case Success(v) => Ok(NumberLiteralType(ts[i].position, v), i + 1)
    case Failure(e) => Fail(Conversion(e), i)
  }

  /** An outcome of the entry loop with values read before it put in front. */
  function PrependValues(values: seq<EnumerationValue>, o: Outcome<seq<EnumerationValue>>): (r: Outcome<seq<EnumerationValue>>)
    ensures values == [] ==> r == o
    ensures r.Ok? <==> o.Ok?
  {
    match o
    case Ok(rest, q) => assert values == [] ==> values + rest == rest; Ok(values + rest, q)
    case _ => o
  }

  lemma PrependTwice(a: seq<EnumerationValue>, b: seq<EnumerationValue>, o: Outcome<seq<EnumerationValue>>)
    ensures PrependValues(a, PrependValues(b, o)) == PrependValues(a + b, o)
  {
    if o.Ok? {
      assert a + (b + o.value) == (a + b) + o.value;
    }
  }

  /** One round of parseEnum's entry loop that starts at the key at index j: `= Number` must follow. */
  function EntryAt(ts: seq<Token>, j: nat): (r: Outcome<EnumerationValue>)
    requires j < |ts| && ts[j].Type() == Identifier
    ensures r.Ok? ==> j < r.next <= |ts| && r.value.key == ts[j].Value()
    ensures r.Fail? ==> j < r.at < |ts|
    ensures r.Crash? ==> r.at == |ts|
  {
    var k := SkipCommentsFrom(ts, j + 1);
    if k == |ts| then Crash(k)
    else if !IsDelim(ts[k], "=") then FailAt(ts, k, ExpectedEquals(ts[k]))
    else
      var n := SkipCommentsFrom(ts, k + 1);
      if n == |ts| then Crash(n)
      else match NumberAt(ts, n)
        case Ok(num, after) => Ok(EnumerationValue(ts[j].Value(), num), after)
        case Fail(e, at) => Fail(e, at)
        case Crash(at) => Crash(at)
  }

  /** The labelled loop of parseEnum from index p: entries `Key = Number` up to the closing "}". */
  function ValuesAt(ts: seq<Token>, p: nat): (r: Outcome<seq<EnumerationValue>>)
    requires p <= |ts|
    ensures r.Ok? ==> p < r.next <= |ts| && IsDelim(ts[r.next - 1], "}")
    ensures r.Fail? ==> p <= r.at < |ts|
    ensures r.Crash? ==> r.at == |ts|
    decreases |ts| - p
  {
    var j := SkipCommentsFrom(ts, p);
    if j == |ts| then Crash(j)
    else if IsDelim(ts[j], "}") then Ok([], j + 1)
    else if ts[j].Type() == Identifier then
      match EntryAt(ts, j)
      case Ok(v, after) => PrependValues([v], ValuesAt(ts, after))
      case Fail(e, at) => Fail(e, at)
      case Crash(at) => Crash(at)
    else FailAt(ts, j, ExpectedIdentifier(ts[j]))
  }

  /** The header of parseEnum after its "enum" token at i: the name, the return type and "{". The
      messages render the "enum" token, not the token that failed, as the Go code does. */
  function HeaderAt(ts: seq<Token>, i: nat): (r: Outcome<(string, string)>)
    requires i < |ts|
    ensures r.Ok? ==> i < r.next <= |ts|
    ensures r.Fail? ==> i < r.at < |ts|
    ensures r.Crash? ==> r.at == |ts|
  {
    var tkn := ts[i];
    var j := SkipCommentsFrom(ts, i + 1);
    if j == |ts| then Crash(j)
    else if ts[j].Type() != Identifier then FailAt(ts, j, ExpectedIdentifier(tkn))
    else
      var k := SkipCommentsFrom(ts, j + 1);
      if k == |ts| then Crash(k)
      else if ts[k].Type() != Keyword && ts[k].Type() != Identifier then FailAt(ts, k, ExpectedType(tkn))
      else
        var m := SkipCommentsFrom(ts, k + 1);
        if m == |ts| then Crash(m)
        else if !IsDelim(ts[m], "{") then FailAt(ts, m, ExpectedBrace(tkn))
        else Ok((ts[j].Value(), ts[k].Value()), m + 1)
  }

  /** parseEnum from index i; the node is stamped with the position of the closing "}". */
  function EnumAt(ts: seq<Token>, i: nat): (r: Outcome<Node>)
    requires i < |ts|
    ensures r.Ok? ==> (i < r.next <= |ts| && IsDelim(ts[r.next - 1], "}") && r.value.EnumerationType?
                       && r.value.Pos() == ts[r.next - 1].position)
    ensures r.Fail? ==> i <= r.at < |ts|
    ensures r.Crash? ==> r.at == |ts|
  {
    if !IsKeyword(ts[i], "enum") then FailAt(ts, i, ExpectedEnum(ts[i]))
    else match HeaderAt(ts, i)
      case Ok(header, p) =>
        (match ValuesAt(ts, p)
         case Ok(values, q) => Ok(EnumerationType(ts[q - 1].position, header.0, IdentifierType(header.1), values), q)
         case Fail(e, at) => Fail(e, at)
         case Crash(at) => Crash(at))
      case Fail(e, at) => Fail(e, at)
      case Crash(at) => Crash(at)
  }

  /** parseType from index i: only the keyword "enum" leads anywhere. */
  function TypeAt(ts: seq<Token>, i: nat): (r: Outcome<Node>)
    requires i <= |ts|
    ensures var j := SkipCommentsFrom(ts, i);
      (r.Ok? ==> j < |ts| && IsKeyword(ts[j], "enum") && r == EnumAt(ts, j))
      && (r.Fail? ==> j <= r.at < |ts|)
      && (r.Crash? ==> r.at == |ts|)
  {
    var j := SkipCommentsFrom(ts, i);
    if j == |ts| then Crash(j)
    else
      var tkn := ts[j];
      if tkn.Type() != Keyword then FailAt(ts, j, ExpectedKeyword(tkn))
      else if tkn.Value() == "enum" then EnumAt(ts, j)
      else FailAt(ts, j, UnexpectedKeywordToken(tkn))
  }

  /** How the loop of Parse ends: it returns nil or an error, loops forever on a token it neither consumes
      nor rejects, or panics on an index out of range. */
  datatype ParseEnd = Finished | Failed(error: ParseError) | Spins | Crashes

  /** The declarations appended to Out.Nodes, how the loop ends, and the index it ends at. */
  datatype Run = Run(nodes: seq<Node>, end: ParseEnd, at: nat)

  /** The loop of Parse from index i. */
  function ParseFrom(ts: seq<Token>, i: nat): (r: Run)
    requires i <= |ts|
    ensures i <= r.at <= |ts|
    ensures r.end == Finished || r.end == Crashes ==> r.at == |ts|
    ensures r.end == Spins ==> r.at < |ts| && ts[r.at].Type() !in {Number, Identifier, Keyword, Comment}
    ensures forall k :: 0 <= k < |r.nodes| ==> r.nodes[k].EnumerationType?
    decreases |ts| - i
  {
    if i == |ts| then Run([], Finished, i)
    else
      var j := SkipCommentsFrom(ts, i);
      if j == |ts| then Run([], Crashes, j)
      else
        var tkn := ts[j];
        if tkn.Type() == Number then
          Run([], Failed(Syntax(NewParserError(ts, j, UnexpectedNumber(tkn.Value())))), j)
        else if tkn.Type() == Identifier then
          Run([], Failed(Syntax(NewParserError(ts, j, UnexpectedIdentifier(tkn.Value())))), j)
        else if tkn.Type() == Keyword then
          if tkn.Value() in {"enum", "packet", "protocol"} then
            match TypeAt(ts, j)
            case Ok(n, k) =>
              var rest := ParseFrom(ts, k);
              Run([n] + rest.nodes, rest.end, rest.at)
            case Fail(e, at) => Run([], Failed(e), at)
            case Crash(at) => Run([], Crashes, at)
          else Run([], Failed(Syntax(NewParserError(ts, j, UnexpectedKeyword(tkn.Value())))), j)
        else Run([], Spins, j)
  }

  // ---------------------------------------------------------------- one step of each function

  /** The successful path of one round of the entry loop, in both directions. */
  lemma {:induction false} EntryShape(ts: seq<Token>, j: nat)
    requires j < |ts| && ts[j].Type() == Identifier
    ensures var k := SkipCommentsFrom(ts, j + 1);
      EntryAt(ts, j).Ok? <==> (k < |ts| && IsDelim(ts[k], "=")
        && var n := SkipCommentsFrom(ts, k + 1); n < |ts| && IsNumberToken(ts[n]))
    ensures var k := SkipCommentsFrom(ts, j + 1);
      EntryAt(ts, j).Ok? ==> (k < |ts| && var n := SkipCommentsFrom(ts, k + 1);
        n < |ts| && IsNumberToken(ts[n]) && EntryAt(ts, j) == Ok(EnumerationValue(ts[j].Value(), NumberNode(ts[n])), n + 1))
  {
  }

  /** The successful path of the header part of parseEnum, in both directions. */
  lemma {:induction false} HeaderShape(ts: seq<Token>, i: nat)
    requires i < |ts|
    ensures var j := SkipCommentsFrom(ts, i + 1);
      HeaderAt(ts, i).Ok? <==> (j < |ts| && ts[j].Type() == Identifier
        && var k := SkipCommentsFrom(ts, j + 1);
        k < |ts| && (ts[k].Type() == Keyword || ts[k].Type() == Identifier)
        && var m := SkipCommentsFrom(ts, k + 1);
        m < |ts| && IsDelim(ts[m], "{"))
    ensures var j := SkipCommentsFrom(ts, i + 1);
      HeaderAt(ts, i).Ok? ==> (j < |ts| && var k := SkipCommentsFrom(ts, j + 1);
        k < |ts| && var m := SkipCommentsFrom(ts, k + 1);
        m < |ts| && HeaderAt(ts, i) == Ok((ts[j].Value(), ts[k].Value()), m + 1))
  {
  }

  /** The successful path of the entry loop: a closing brace, or one entry and the loop again. */
  lemma {:induction false} ValuesShape(ts: seq<Token>, p: nat)
    requires p <= |ts| && ValuesAt(ts, p).Ok?
    ensures var j := SkipCommentsFrom(ts, p);
      j < |ts|
      && (IsDelim(ts[j], "}") ==> ValuesAt(ts, p) == Ok([], j + 1))
      && (!IsDelim(ts[j], "}") ==>
            ts[j].Type() == Identifier && EntryAt(ts, j).Ok?
            && ValuesAt(ts, EntryAt(ts, j).next).Ok?
            && ValuesAt(ts, p) == Ok([EntryAt(ts, j).value] + ValuesAt(ts, EntryAt(ts, j).next).value,
                                     ValuesAt(ts, EntryAt(ts, j).next).next))
  {
  }

  /** One entry read by the loop, from p where comments lead to the key at j. */
  lemma {:induction false} ValuesStep(ts: seq<Token>, p: nat, j: nat)
    requires p <= j < |ts| && j == SkipCommentsFrom(ts, p) && ts[j].Type() == Identifier && EntryAt(ts, j).Ok?
    ensures ValuesAt(ts, p) == PrependValues([EntryAt(ts, j).value], ValuesAt(ts, EntryAt(ts, j).next))
  {
  }

  /** One round of the entry loop over a key at j, "=" at k and a number at n, with comments between. */
  lemma {:induction false} EntryOk(ts: seq<Token>, j: nat, k: nat, n: nat)
    requires j < |ts| && ts[j].Type() == Identifier
    requires k == SkipCommentsFrom(ts, j + 1) && k < |ts| && IsDelim(ts[k], "=")
    requires n == SkipCommentsFrom(ts, k + 1) && n < |ts| && IsNumberToken(ts[n])
    ensures EntryAt(ts, j) == Ok(EnumerationValue(ts[j].Value(), NumberNode(ts[n])), n + 1)
  {
  }

  /** The header part of parseEnum over a name at j, a type at k and "{" at m, with comments between. */
  lemma {:induction false} HeaderOk(ts: seq<Token>, i: nat, j: nat, k: nat, m: nat)
    requires i < |ts| && j == SkipCommentsFrom(ts, i + 1) && j < |ts| && ts[j].Type() == Identifier
    requires k == SkipCommentsFrom(ts, j + 1) && k < |ts| && (ts[k].Type() == Keyword || ts[k].Type() == Identifier)
    requires m == SkipCommentsFrom(ts, k + 1) && m < |ts| && IsDelim(ts[m], "{")
    ensures HeaderAt(ts, i) == Ok((ts[j].Value(), ts[k].Value()), m + 1)
  {
  }

  /** The entry loop from p, where comments lead to the key of an entry at j that it reads. */
  lemma {:induction false} ValuesCons(ts: seq<Token>, p: nat, j: nat, e: nat, values: seq<EnumerationValue>, q: nat)
    requires p <= j < |ts| && j == SkipCommentsFrom(ts, p) && ts[j].Type() == Identifier && values != []
    requires EntryAt(ts, j) == Ok(values[0], e) && ValuesAt(ts, e) == Ok(values[1..], q)
    ensures ValuesAt(ts, p) == Ok(values, q)
  {
    assert [values[0]] + values[1..] == values;
  }

  /** The entry loop from p, where comments lead to the closing brace at j. */
  lemma {:induction false} ValuesClose(ts: seq<Token>, p: nat, j: nat)
    requires p <= j < |ts| && j == SkipCommentsFrom(ts, p) && IsDelim(ts[j], "}")
    ensures ValuesAt(ts, p) == Ok([], j + 1)
  {
  }

  /** The successful path of parseEnum: the keyword, the header and the entry loop. */
  lemma {:induction false} EnumShape(ts: seq<Token>, i: nat)
    requires i < |ts|
    ensures EnumAt(ts, i).Ok? <==>
      IsKeyword(ts[i], "enum") && HeaderAt(ts, i).Ok? && ValuesAt(ts, HeaderAt(ts, i).next).Ok?
    ensures EnumAt(ts, i).Ok? ==>
      var h := HeaderAt(ts, i);
      var v := ValuesAt(ts, h.next);
      EnumAt(ts, i) == Ok(EnumerationType(ts[v.next - 1].position, h.value.0, IdentifierType(h.value.1), v.value), v.next)
  {
  }

  /** One declaration read by the loop of Parse, from i where comments lead to the "enum" at j. */
  lemma {:induction false} ParseStep(ts: seq<Token>, i: nat, j: nat)
    requires i <= j < |ts| && j == SkipCommentsFrom(ts, i) && IsKeyword(ts[j], "enum") && EnumAt(ts, j).Ok?
    ensures var r := EnumAt(ts, j);
      var rest := ParseFrom(ts, r.next);
      ParseFrom(ts, i) == Run([r.value] + rest.nodes, rest.end, rest.at)
  {
    assert SkipCommentsFrom(ts, j) == j;
    assert TypeAt(ts, j) == EnumAt(ts, j);
  }

  /** The loop of Parse at a declaration keyword: parseType's outcome decides the rest. */
  lemma {:induction false} ParseDeclStep(ts: seq<Token>, p: nat, j: nat)
    requires p < |ts| && j == SkipCommentsFrom(ts, p) && j < |ts| && ts[j].Type() == Keyword
    requires ts[j].Value() in {"enum", "packet", "protocol"}
    ensures ParseFrom(ts, p) == match TypeAt(ts, j)
      case Ok(n, k) => Run([n] + ParseFrom(ts, k).nodes, ParseFrom(ts, k).end, ParseFrom(ts, k).at)
      case Fail(e, at) => Run([], Failed(e), at)
      case Crash(at) => Run([], Crashes, at)
  {
  }

  /** The loop of Parse at any other token: it stops there, with an error or spinning. */
  lemma {:induction false} ParseStopStep(ts: seq<Token>, p: nat, j: nat)
    requires p < |ts| && j == SkipCommentsFrom(ts, p) && j < |ts|
    requires !(ts[j].Type() == Keyword && ts[j].Value() in {"enum", "packet", "protocol"})
    ensures var t := ts[j];
      ParseFrom(ts, p) == Run([], if t.Type() == Number then Failed(Syntax(NewParserError(ts, j, UnexpectedNumber(t.Value()))))
        else if t.Type() == Identifier then Failed(Syntax(NewParserError(ts, j, UnexpectedIdentifier(t.Value()))))
        else if t.Type() == Keyword then Failed(Syntax(NewParserError(ts, j, UnexpectedKeyword(t.Value()))))
        else Spins, j)
  {
  }

  /** parseType by the first non-comment token: past the end of the slice Go indexes out of range; a token
      that is no keyword fails there with "expected keyword but got"; "enum" is parseEnum there, whatever it
      returns; any other keyword, "packet" and "protocol" included, fails there with "unexpected keyword". */
  lemma TypeShape(ts: seq<Token>, i: nat)
    requires i <= |ts|
    ensures var j, r := SkipCommentsFrom(ts, i), TypeAt(ts, i);
      (j == |ts| ==> r == Crash(j))
      && (j < |ts| && ts[j].Type() != Keyword ==>
            r == FailAt(ts, j, ExpectedKeyword(ts[j]))
            && r.error.syntax.message.Text() == "expected keyword but got " + ts[j].String())
      && (j < |ts| && IsKeyword(ts[j], "enum") ==> r == EnumAt(ts, j))
      && (j < |ts| && ts[j].Type() == Keyword && ts[j].Value() != "enum" ==>
            r == FailAt(ts, j, UnexpectedKeywordToken(ts[j]))
            && r.error.syntax.message.Text() == "unexpected keyword " + ts[j].String())
  {
  }

  // ---------------------------------------------------------------- the accepted language

  /** skipComments passes over no non-comment: the first non-comment from p is the token it stops at. */
  lemma {:induction false} SkipSplits(ts: seq<Token>, p: nat)
    requires p <= |ts|
    ensures var j := SkipCommentsFrom(ts, p);
      NonComments(ts, p) == NonComments(ts, j)
      && (j < |ts| ==> NonComments(ts, p) == Cons(ts[j], NonComments(ts, j + 1)))
      && (j == |ts| ==> NonComments(ts, p) == Nil)
    decreases |ts| - p
  {
    if p < |ts| && ts[p].Type() == Comment {
      SkipSplits(ts, p + 1);
    }
  }


  /** What one round of the entry loop reads is one entry, comments aside. */
  lemma {:induction false} EntrySound(ts: seq<Token>, j: nat)
    requires j < |ts| && ts[j].Type() == Identifier && EntryAt(ts, j).Ok?
    ensures var l, r := NonComments(ts, j), EntryAt(ts, j);
      l.Cons? && l.tail.Cons? && l.tail.tail.Cons? && IsEntry(l.head, l.tail.head, l.tail.tail.head, r.value)
      && l.tail.tail.tail == NonComments(ts, r.next)
  {
    EntryShape(ts, j);
    var k := SkipCommentsFrom(ts, j + 1);
    SkipSplits(ts, j + 1);
    SkipSplits(ts, k + 1);
  }

  /** An entry at the head of entries and a closing brace is read by one round of the loop, which stops
      where the remaining entries start. */
  lemma {:induction false} EntryComplete(ts: seq<Token>, j: nat, values: seq<EnumerationValue>, close: Position, rest: List<Token>)
    returns (e: nat)
    requires j < |ts| && ts[j].Type() != Comment && values != []
    requires EntriesThenClose(NonComments(ts, j), values, close, rest)
    ensures EntryAt(ts, j) == Ok(values[0], e) && EntriesThenClose(NonComments(ts, e), values[1..], close, rest)
  {
    var k := SkipCommentsFrom(ts, j + 1);
    SkipSplits(ts, j + 1);
    var n := SkipCommentsFrom(ts, k + 1);
    SkipSplits(ts, k + 1);
    EntryOk(ts, j, k, n);
    e := n + 1;
  }

  /** What the entry loop reads is the entries and the closing brace, comments aside. */
  lemma {:induction false} ValuesSound(ts: seq<Token>, p: nat)
    requires p <= |ts| && ValuesAt(ts, p).Ok?
    ensures var r := ValuesAt(ts, p);
      EntriesThenClose(NonComments(ts, p), r.value, ts[r.next - 1].position, NonComments(ts, r.next))
    decreases |ts| - p
  {
    var j := SkipCommentsFrom(ts, p);
    ValuesShape(ts, p);
    SkipSplits(ts, p);
    if !IsDelim(ts[j], "}") {
      var entry := EntryAt(ts, j);
      var rest := ValuesAt(ts, entry.next);
      EntrySound(ts, j);
      ValuesSound(ts, entry.next);
      EntriesCons(NonComments(ts, j), entry.value, rest.value, ts[rest.next - 1].position, NonComments(ts, rest.next));
    }
  }

  /** Entries and a closing brace at the head of the non-comments are read by the entry loop, which stops
      just past the brace. */
  lemma {:induction false} ValuesComplete(ts: seq<Token>, p: nat, values: seq<EnumerationValue>, close: Position, rest: List<Token>)
    returns (q: nat)
    requires p <= |ts| && EntriesThenClose(NonComments(ts, p), values, close, rest)
    ensures ValuesAt(ts, p) == Ok(values, q) && close == ts[q - 1].position && NonComments(ts, q) == rest
    decreases |values|
  {
    var j := SkipCommentsFrom(ts, p);
    SkipSplits(ts, p);
    if values == [] {
      q := j + 1;
      ValuesClose(ts, p, j);
    } else {
      var e := EntryComplete(ts, j, values, close, rest);
      q := ValuesComplete(ts, e, values[1..], close, rest);
      ValuesCons(ts, p, j, e, values, q);
    }
  }

  /** What the header part of parseEnum reads is a header, comments aside. */
  lemma {:induction false} HeaderSound(ts: seq<Token>, i: nat)
    requires i < |ts| && IsKeyword(ts[i], "enum") && HeaderAt(ts, i).Ok?
    ensures var l, r := NonComments(ts, i), HeaderAt(ts, i);
      l.Cons? && l.tail.Cons? && l.tail.tail.Cons? && l.tail.tail.tail.Cons?
      && IsHeader(l.head, l.tail.head, l.tail.tail.head, l.tail.tail.tail.head, r.value.0, IdentifierType(r.value.1))
      && l.tail.tail.tail.tail == NonComments(ts, r.next)
  {
    HeaderShape(ts, i);
    var j := SkipCommentsFrom(ts, i + 1);
    SkipSplits(ts, i + 1);
    var k := SkipCommentsFrom(ts, j + 1);
    SkipSplits(ts, j + 1);
    SkipSplits(ts, k + 1);
  }

  /** The header of an enum declaration at the head of the non-comments is read by the header part of
      parseEnum, which stops where the entries start. */
  lemma {:induction false} HeaderComplete(ts: seq<Token>, i: nat, node: Node, rest: List<Token>) returns (e: nat)
    requires i < |ts| && ts[i].Type() != Comment && EnumDecl(NonComments(ts, i), node, rest)
    ensures IsKeyword(ts[i], "enum") && HeaderAt(ts, i) == Ok((node.name, node.returnType.value), e)
    ensures EntriesThenClose(NonComments(ts, e), node.values, node.position, rest)
  {
    var j := SkipCommentsFrom(ts, i + 1);
    SkipSplits(ts, i + 1);
    var k := SkipCommentsFrom(ts, j + 1);
    SkipSplits(ts, j + 1);
    var m := SkipCommentsFrom(ts, k + 1);
    SkipSplits(ts, k + 1);
    HeaderOk(ts, i, j, k, m);
    e := m + 1;
  }

  /** What parseEnum reads is one enum declaration, comments aside. */
  lemma {:induction false} EnumSound(ts: seq<Token>, i: nat)
    requires i < |ts| && EnumAt(ts, i).Ok?
    ensures var r := EnumAt(ts, i); EnumDecl(NonComments(ts, i), r.value, NonComments(ts, r.next))
  {
    EnumShape(ts, i);
    var h := HeaderAt(ts, i);
    HeaderSound(ts, i);
    ValuesSound(ts, h.next);
  }

  /** An enum declaration at the head of the non-comments, with comments anywhere inside it, is read by
      parseEnum, which stops just past its closing brace. */
  lemma {:induction false} EnumComplete(ts: seq<Token>, i: nat, node: Node, rest: List<Token>) returns (q: nat)
    requires i < |ts| && ts[i].Type() != Comment && EnumDecl(NonComments(ts, i), node, rest)
    ensures IsKeyword(ts[i], "enum") && EnumAt(ts, i) == Ok(node, q) && NonComments(ts, q) == rest
  {
    var p := HeaderComplete(ts, i, node, rest);
    q := ValuesComplete(ts, p, node.values, node.position, rest);
    EnumShape(ts, i);
    assert node == EnumerationType(ts[q - 1].position, node.name, IdentifierType(node.returnType.value), node.values);
  }

  /** A run that finishes has read exactly a sequence of enum declarations, comments aside, and the nodes
      are those declarations in source order. */
  lemma {:induction false} ParseSound(ts: seq<Token>, i: nat)
    requires i <= |ts| && ParseFrom(ts, i).end == Finished
    ensures Decls(NonComments(ts, i), ParseFrom(ts, i).nodes)
    decreases |ts| - i
  {
    if i < |ts| {
      var j := SkipCommentsFrom(ts, i);
      var r := TypeAt(ts, j);
      assert SkipCommentsFrom(ts, j) == j;
      EnumSound(ts, j);
      DeclDrop(NonComments(ts, j), r.value, NonComments(ts, r.next));
      ParseSound(ts, r.next);
      SkipSplits(ts, i);
      assert ([r.value] + ParseFrom(ts, r.next).nodes)[1..] == ParseFrom(ts, r.next).nodes;
    }
  }

  /** Every sequence of enum declarations, with comments anywhere except after the last token, is read to
      the end, and Out.Nodes receives the declarations in source order. */
  lemma {:induction false} ParseComplete(ts: seq<Token>, i: nat, nodes: seq<Node>)
    requires i <= |ts| && (i == |ts| || ts[|ts| - 1].Type() != Comment)
    requires Decls(NonComments(ts, i), nodes)
    ensures ParseFrom(ts, i) == Run(nodes, Finished, |ts|)
    decreases |ts| - i
  {
    if nodes == [] {
      if i < |ts| {
        EndsInNonComment(ts, i);
      }
    } else {
      var j := SkipCommentsFrom(ts, i);
      SkipSplits(ts, i);
      var q := EnumComplete(ts, j, nodes[0], Drop(NonComments(ts, i), DeclLength(nodes[0])));
      ParseStep(ts, i, j);
      ParseComplete(ts, q, nodes[1..]);
      assert [nodes[0]] + nodes[1..] == nodes;
    }
  }

  /** Only a stream that ends with the delimiter "}" is parsed to completion; one that ends with an EOF
      token, as a lexer might append, never is: the loop fails, panics or spins. */
  lemma {:induction false} FinishedEndsWithBrace(ts: seq<Token>, i: nat)
    requires i < |ts| && ParseFrom(ts, i).end == Finished
    ensures IsDelim(ts[|ts| - 1], "}")
    decreases |ts| - i
  {
    var j := SkipCommentsFrom(ts, i);
    var r := TypeAt(ts, j);
    if r.next < |ts| {
      FinishedEndsWithBrace(ts, r.next);
    }
  }

  // ---------------------------------------------------------------- the parser

  /** A method result follows the outcome: the same value or error, and the index the parser is left at. */
  predicate Follows<T(==)>(o: Outcome<T>, r: Result<T, ParseError>, pos: int) {
    match o
    case Ok(v, next) => r == Success(v) && pos == next
    case Fail(e, at) => r == Failure(e) && pos == at
    case Crash(_) => false
  }

  /** Parser of parse.go: the token slice is fixed; Position moves forward and Out collects the nodes. */
  class Parser {
    const fileName: string
    const tokens: seq<Token>
    var out: Tree
    var position: int

    /** NewParser: Position 0 and a zero Out. */
    constructor (fileName: string, data: seq<Token>)
      ensures this.fileName == fileName && tokens == data && position == 0 && out == Tree("", "", [])
    {
      this.fileName := fileName;
      tokens := data;
      out := Tree("", "", []);
      position := 0;
    }

    method SkipComments()
      requires 0 <= position <= |tokens|
      modifies this`position
      ensures position == SkipCommentsFrom(tokens, old(position))
    {
      while position < |tokens| && tokens[position].Type() == Comment
        invariant old(position) <= position <= |tokens|
        invariant SkipCommentsFrom(tokens, position) == SkipCommentsFrom(tokens, old(position))
      {
        position := position + 1;
      }
    }

    /** error: a ParserError at the current index. */
    function Error(msg: Message): (r: ParserError)
      reads this
      requires 0 <= position < |tokens|
      ensures r.tokens == tokens && r.pos == position && r.message == msg && r.position == tokens[position].position
    {
      NewParserError(tokens, position, msg)
    }

    /** lenCheck. Its first operand holds at every call (each caller has just checked the index against
        the length, or reads the token there next), so the second, which would index past the end and
        panic, is never evaluated and the result is always true. */
    function LenCheck(): (r: bool)
      reads this
      requires 0 <= position < |tokens|
      ensures r
    {
      position < |tokens|
    }

    method ParseNumber() returns (r: Result<Node, ParseError>)
      requires 0 <= position < |tokens|
      modifies this`position
      ensures Follows(NumberAt(tokens, old(position)), r, position)
    {
      var tkn := tokens[position];
      var value := ParseUint(tkn.Value());
      if value.Failure? {
        return Failure(Conversion(value.error));
      }
      position := position + 1;
      return Success(NumberLiteralType(tkn.position, value.value));
    }

    /** The part of parseEnum after its "enum" token tkn: the name, the return type and "{". */
    method ParseHeader(tkn: Token) returns (r: Result<(string, string), ParseError>)
      requires 0 <= position < |tokens| && tokens[position] == tkn && !HeaderAt(tokens, position).Crash?
      modifies this`position
      ensures Follows(HeaderAt(tokens, old(position)), r, position)
    {
      position := position + 1;
      SkipComments();
      // lenCheck returns true here, so its "unexpected EOF" branch is never taken.
      assert LenCheck();
      if tokens[position].Type() != Identifier {
        return Failure(Syntax(Error(ExpectedIdentifier(tkn))));
      }
      var name := tokens[position].Value();
      position := position + 1;
      SkipComments();
      assert LenCheck();
      var rettype: string;
      if tokens[position].Type() == Keyword || tokens[position].Type() == Identifier {
        rettype := tokens[position].Value();
      } else {
        return Failure(Syntax(Error(ExpectedType(tkn))));
      }
      position := position + 1;
      SkipComments();
      assert LenCheck();
      if tokens[position].Type() != Delimiter || tokens[position].Value() != "{" {
        return Failure(Syntax(Error(ExpectedBrace(tkn))));
      }
      position := position + 1;
      return Success((name, rettype));
    }

    /** One round of parseEnum's entry loop from the key at the current index. */
    method ParseEntry() returns (r: Result<EnumerationValue, ParseError>)
      requires 0 <= position < |tokens| && tokens[position].Type() == Identifier && !EntryAt(tokens, position).Crash?
      modifies this`position
      ensures Follows(EntryAt(tokens, old(position)), r, position)
    {
      var key := tokens[position].Value();
      position := position + 1;
      SkipComments();
      assert LenCheck();
      var tkn := tokens[position];
      if tkn.Type() != Delimiter || tkn.Value() != "=" {
        return Failure(Syntax(Error(ExpectedEquals(tkn))));
      }
      position := position + 1;
      SkipComments();
      assert LenCheck();
      var number := ParseNumber();
      if number.Failure? {
        return Failure(number.error);
      }
      return Success(EnumerationValue(key, number.value));
    }

    /** The labelled loop of parseEnum: entries up to and including the closing "}". */
    method ParseEntries() returns (r: Result<seq<EnumerationValue>, ParseError>)
      requires 0 <= position <= |tokens| && !ValuesAt(tokens, position).Crash?
      modifies this`position
      ensures Follows(ValuesAt(tokens, old(position)), r, position)
    {
      ghost var start := position;
      var values: seq<EnumerationValue> := [];
      while true
        invariant start <= position <= |tokens|
        invariant ValuesAt(tokens, start) == PrependValues(values, ValuesAt(tokens, position))
        invariant !ValuesAt(tokens, position).Crash?
        decreases |tokens| - position
      {
        ghost var p := position;
        SkipComments();
        assert LenCheck();
        var tkn := tokens[position];
        if tkn.Type() == Delimiter && tkn.Value() == "}" {
          position := position + 1;
          assert ValuesAt(tokens, p) == Ok([], position);
          assert values + [] == values;
          break;
        } else if tkn.Type() == Identifier {
          ghost var j := position;
          var v := ParseEntry();
          if v.Failure? {
            return Failure(v.error);
          }
          ValuesStep(tokens, p, j);
          PrependTwice(values, [v.value], ValuesAt(tokens, position));
          values := values + [v.value];
        } else {
          return Failure(Syntax(Error(ExpectedIdentifier(tkn))));
        }
      }
      return Success(values);
    }

    /** parseEnum. Go runs the header, the loop and the loop's entry inline; here they are the three methods
        above. The node takes the position of the last token read, the closing "}". */
    method ParseEnum() returns (r: Result<Node, ParseError>)
      requires 0 <= position < |tokens| && !EnumAt(tokens, position).Crash?
      modifies this`position
      ensures Follows(EnumAt(tokens, old(position)), r, position)
      ensures r.Success? ==> 0 < position <= |tokens| && r.value.Pos() == tokens[position - 1].position
    {
      var tkn := tokens[position];
      if tkn.Type() != Keyword || tkn.Value() != "enum" {
        return Failure(Syntax(Error(ExpectedEnum(tkn))));
      }
      var header := ParseHeader(tkn);
      if header.Failure? {
        return Failure(header.error);
      }
      var values := ParseEntries();
      if values.Failure? {
        return Failure(values.error);
      }
      tkn := tokens[position - 1];
      return Success(EnumerationType(tkn.position, header.value.0, IdentifierType(header.value.1), values.value));
    }

    method ParseType() returns (r: Result<Node, ParseError>)
      requires 0 <= position <= |tokens| && !TypeAt(tokens, position).Crash?
      modifies this`position
      ensures Follows(TypeAt(tokens, old(position)), r, position)
    {
      SkipComments();
      var tkn := tokens[position];
      if tkn.Type() != Keyword {
        return Failure(Syntax(Error(ExpectedKeyword(tkn))));
      }
      if tkn.Value() == "enum" {
        r := ParseEnum();
      } else {
        return Failure(Syntax(Error(UnexpectedKeywordToken(tkn))));
      }
    }

    /** Parse: resets Out, then reads declarations from the current index. Where the Go loop would go round
        forever without moving, the method stops and reports Spins. */
    method Parse() returns (end: ParseEnd)
      requires 0 <= position <= |tokens| && !ParseFrom(tokens, position).end.Crashes?
      modifies this
      ensures var run := ParseFrom(tokens, old(position));
        end == run.end && position == run.at && out == Tree("", fileName, run.nodes)
    {
      out := Tree("", fileName, []);
      ghost var start := position;
      while position < |tokens|
        invariant start <= position <= |tokens|
        invariant out.packageName == "" && out.fileName == fileName
        invariant var run, here := ParseFrom(tokens, start), ParseFrom(tokens, position);
          run.nodes == out.nodes + here.nodes && run.end == here.end && run.at == here.at
        decreases |tokens| - position
      {
        ghost var p := position;
        SkipComments();
        var tkn := tokens[position];
        if !(tkn.Type() == Keyword && tkn.Value() in {"enum", "packet", "protocol"}) {
          ParseStopStep(tokens, p, position);
        }
        if tkn.Type() == Number {
          return Failed(Syntax(Error(UnexpectedNumber(tkn.Value()))));
        } else if tkn.Type() == Identifier {
          return Failed(Syntax(Error(UnexpectedIdentifier(tkn.Value()))));
        } else if tkn.Type() == Keyword {
          if tkn.Value() == "enum" || tkn.Value() == "packet" || tkn.Value() == "protocol" {
            ParseDeclStep(tokens, p, position);
            var n := ParseType();
            if n.Failure? {
              return Failed(n.error);
            }
            assert out.nodes + ([n.value] + ParseFrom(tokens, position).nodes)
                == (out.nodes + [n.value]) + ParseFrom(tokens, position).nodes;
            out := out.(nodes := out.nodes + [n.value]);
          } else {
            return Failed(Syntax(Error(UnexpectedKeyword(tkn.Value()))));
          }
        } else {
          return Spins;
        }
      }
      return Finished;
    }
  }
}
