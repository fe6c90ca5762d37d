/** The Go lexer of lex.go: a cursor over the file's runes that yields one token per NextToken call, proved
    to do what Scan says. */
module Lex {
  import opened Wrappers
  import opened Strs
  import opened Tokens
  import opened Scanner

  /** Lexer of lex.go. The file's text is fixed; the cursor state advances one readChar at a time. */
  class Lexer {
    const fileName: string
    const data: string
    var line: int
    var col: int
    var position: int
    var cursor: int
    var currentChar: char
    var lastToken: Option<Token>

    /** The fields describe the characters read so far, as CursorState says. */
    ghost predicate Valid()
      reads this
    {
      CursorState(fileName, data, cursor, position, line, col, currentChar, lastToken)
    }

    /** The characters data[..k] have been read, and, when k > |data|, a further read failed. */
    ghost predicate ReadTo(k: nat)
      reads this
    {
      ReadUpTo(data, cursor, lastToken, k)
    }

    /** Where the next token starts: at the current character, or past the whitespace run it begins. */
    ghost function LexemeStart(): nat
      reads this
      requires Valid()
    {
      if IsSpace(currentChar) then RunEnd(data, cursor, IsSpace) else cursor - 1
    }

    /** NewLexer: the state before any read, followed by one readChar. */
    constructor (fileName: string, data: string)
      ensures this.fileName == fileName && this.data == data
      ensures Valid() && ReadTo(1)
    {
      this.fileName := fileName;
      this.data := data;
      line, col := 1, 1;
      position, cursor := 0, 0;
      currentChar := '\n';
      lastToken := None;
      new;
      var _ := ReadChar();
    }

    /** newToken: the token is stamped with the Line and Col that count what has been read. */
    function NewToken(tt: TokenType): (r: Token)
      reads this
      requires Valid()
      ensures r.tokenType == tt && r.position == Stamp(fileName, data, cursor)
    {
      Token(tt, Position(fileName, line, col))
    }

    method ReadChar() returns (ok: bool)
      requires Valid()
      modifies this
      ensures Valid()
      ensures ok == (old(cursor) < |data|)
      ensures ok ==> position == old(cursor) && cursor == old(cursor) + 1
                     && currentChar == data[old(cursor)] && lastToken == None
      ensures ok ==> if currentChar == '\n' then line == old(line) + 1 && col == 1
                     else line == old(line) && col == old(col) + 1
      ensures !ok ==> cursor == old(cursor) && position == old(position) && line == old(line) && col == old(col)
      ensures !ok ==> currentChar == '\n' && lastToken == Some(EofToken(Position(fileName, line, col)))
    {
      if cursor >= |data| {
        var eof := NewToken(TokenType(EOF, ""));
        currentChar := '\n';
        lastToken := Some(eof);
        return false;
      }
      assert data[..cursor + 1] == data[..cursor] + [data[cursor]];
      ReadOne(data[..cursor], data[cursor]);
      currentChar := data[cursor];
      if currentChar == '\n' {
        line := line + 1;
        col := 0;
      }
      position := cursor;
      cursor := cursor + 1;
      col := col + 1;
      return true;
    }

    /** skipWhitespace: reads on to the first non-space character, failing when the data runs out first. */
    method SkipWhitespace() returns (ok: bool)
      requires Valid()
      modifies this
      ensures Valid()
      ensures ok == (old(LexemeStart()) < |data|) && ReadTo(old(LexemeStart()) + 1)
    {
      ghost var e := LexemeStart();
      ghost var c0 := cursor;
      while IsSpace(currentChar)
        invariant Valid()
        invariant e == RunEnd(data, c0, IsSpace) || (e + 1 == c0 && !IsSpace(currentChar))
        invariant (cursor == e + 1 && lastToken == None && !IsSpace(currentChar))
                  || (c0 <= cursor <= e && IsSpace(currentChar))
        decreases |data| - cursor
      {
        var more := ReadChar();
        if !more {
          return false;
        }
      }
      return true;
    }

    /** readIdentifier: reads on while the current character is a letter, digit or '_' and returns the
        characters read from Position on. */
    method ReadIdentifier() returns (id: string)
      requires Valid()
      modifies this
      ensures Valid()
      ensures !IsIdentChar(old(currentChar)) ==>
        id == [] && cursor == old(cursor) && lastToken == old(lastToken) && currentChar == old(currentChar)
      ensures IsIdentChar(old(currentChar)) ==>
        var s := old(cursor) - 1;
        var e := RunEnd(data, s, IsIdentChar);
        id == data[s..if e < |data| then e else |data| - 1] && ReadTo(e + 1)
    {
      ghost var ident := IsIdentChar(currentChar);
      ghost var s := if ident then cursor - 1 else 0;
      ghost var e := if ident then RunEnd(data, s, IsIdentChar) else 0;
      var start := position;
      while IsIdentChar(currentChar)
        invariant Valid()
        invariant !ident ==> cursor == old(cursor) && lastToken == old(lastToken) && currentChar == old(currentChar)
        invariant ident ==> start == s && lastToken == None && s < cursor <= e + 1
                            && (IsIdentChar(currentChar) <==> cursor <= e)
        decreases |data| - cursor
      {
        var more := ReadChar();
        if !more {
          break;
        }
      }
      id := data[start..position];
    }

    /** nextChar: the character after the current one, or '\n' and false at the end; nothing changes. */
    function NextChar(): (r: (char, bool))
      reads this
      requires Valid()
      ensures r.1 <==> cursor < |data|
      ensures r.0 == if r.1 then data[cursor] else '\n'
    {
      if cursor >= |data| then ('\n', false) else (data[cursor], true)
    }

    /** The "//" branch of NextToken, entered with the first '/' at data[s] just read. */
    method LineComment(ghost s: nat) returns (t: Token, err: LexStatus)
      requires Valid() && lastToken == None && cursor == s + 1 && s + 1 < |data|
      requires data[s] == '/' && data[s + 1] == '/'
      modifies this
      ensures Valid()
      ensures var step := Scan(fileName, data, s); t == step.token && err == step.status && ReadTo(step.next)
    {
      var first := ReadChar();
      var second := first;
      if first {
        second := ReadChar();
      }
      if !first || !second {
        ScanLineOpen(fileName, data, s);
        return NewToken(TokenType(EOF, "")), IoEOF;
      }
      var start := position;
      while currentChar != '\n'
        invariant Valid() && lastToken == None && start == s + 2 && s + 2 < cursor
        invariant forall k :: s + 2 <= k < cursor - 1 ==> data[k] != '\n'
        decreases |data| - cursor
      {
        var read := ReadChar();
        if !read {
          ScanLineOpen(fileName, data, s);
          return NewToken(TokenType(EOF, "")), IoEOF;
        }
      }
      ScanLineClosed(fileName, data, s, position);
      var commentStr := data[start..position];
      var _ := ReadChar();
      return NewToken(TokenType(Comment, commentStr)), NoError;
    }

    /** The slash-star branch of NextToken, entered with the '/' at data[s] just read. */
    method BlockComment(ghost s: nat) returns (t: Token, err: LexStatus)
      requires Valid() && lastToken == None && cursor == s + 1 && s + 1 < |data|
      requires data[s] == '/' && data[s + 1] == '*'
      modifies this
      ensures Valid()
      ensures var step := Scan(fileName, data, s); t == step.token && err == step.status && ReadTo(step.next)
    {
      var first := ReadChar();
      var second := first;
      if first {
        second := ReadChar();
      }
      if !first || !second {
        ScanBlockShort(fileName, data, s);
        return NewToken(TokenType(EOF, "")), IoEOF;
      }
      var start := position;
      while true
        invariant Valid() && lastToken == None && start == s + 2
        invariant s + 3 <= cursor <= |data| && (cursor < |data| || cursor == s + 3)
        invariant forall m :: s + 3 <= m < cursor ==> !ClosesAt(data, m)
        decreases |data| - cursor
      {
        var read := ReadChar();
        if !read {
          ScanBlockShort(fileName, data, s);
          return NewToken(TokenType(EOF, "")), IoEOF;
        }
        var (following, more) := NextChar();
        if !more {
          ScanBlockOpen(fileName, data, s);
          return NewToken(TokenType(EOF, "")), IoEOF;
        }
        if currentChar == '*' && following == '/' {
          break;
        }
      }
      ghost var q := position;
      ScanBlockClosed(fileName, data, s, q);
      var commentStr := data[start..position];
      var _ := ReadChar();
      var _ := ReadChar();
      return NewToken(TokenType(Comment, commentStr)), NoError;
    }

    /** The branch of NextToken for a lexeme starting with '/', just read at data[s]. */
    method Slash(ghost s: nat) returns (t: Token, err: LexStatus)
      requires Valid() && lastToken == None && cursor == s + 1 && s < |data| && data[s] == '/'
      modifies this
      ensures Valid()
      ensures var step := Scan(fileName, data, s); t == step.token && err == step.status && ReadTo(step.next)
    {
      var (nextC, ok) := NextChar();
      if !ok {
        return NewToken(TokenType(EOF, "")), IoEOF;
      }
      if nextC == '/' {
        t, err := LineComment(s);
      } else if nextC == '*' {
        t, err := BlockComment(s);
      } else {
        t := NewToken(TokenType(Operator, "/"));
        var _ := ReadChar();
        return t, NoError;
      }
    }

    /** The branch of NextToken for an operator or delimiter character other than '/', just read at data[s]. */
    method Single(ghost s: nat) returns (t: Token, err: LexStatus)
      requires Valid() && lastToken == None && cursor == s + 1 && s < |data| && data[s] != '/'
      requires IsOperatorChar(data[s]) || IsDelimiterChar(data[s])
      modifies this
      ensures Valid()
      ensures var step := Scan(fileName, data, s); t == step.token && err == step.status && ReadTo(step.next)
    {
      if IsOperatorChar(currentChar) {
        t := NewToken(TokenType(Operator, [currentChar]));
      } else {
        t := NewToken(TokenType(Delimiter, [currentChar]));
      }
      var _ := ReadChar();
      return t, NoError;
    }

    /** The branch of NextToken for any other character, just read at data[s]: a word. */
    method Word(ghost s: nat) returns (t: Token, err: LexStatus)
      requires Valid() && lastToken == None && cursor == s + 1 && s < |data| && data[s] != '/'
      requires !IsOperatorChar(data[s]) && !IsDelimiterChar(data[s])
      modifies this
      ensures Valid()
      ensures var step := Scan(fileName, data, s); t == step.token && err == step.status && ReadTo(step.next)
    {
      ScanWordStep(fileName, data, s);
      var id := ReadIdentifier();
      return NewToken(TokenType(IdentifierKind(id), id)), NoError;
    }

    /** NextToken: skips whitespace and reads one token, as Scan says from where the lexeme starts. */
    method NextToken() returns (t: Token, err: LexStatus)
      requires Valid()
      modifies this
      ensures Valid()
      ensures var step := Scan(fileName, data, old(LexemeStart()));
        t == step.token && err == step.status && ReadTo(step.next)
    {
      ghost var s := LexemeStart();
      var more := SkipWhitespace();
      if !more {
        return ZeroToken, IoEOF;
      }
      if currentChar == '/' {
        t, err := Slash(s);
      } else if IsOperatorChar(currentChar) || IsDelimiterChar(currentChar) {
        t, err := Single(s);
      } else {
        t, err := Word(s);
      }
    }
  }
}
