/** The Lexer of src/main.rs: a cursor over the file's characters that yields one token per next_token
    call, proved to do what RustScan.NextTokenFrom says. */
module RustLexer {
  import opened Wrappers
  import opened RustStd
  import opened RustScan
  import Scanner

  /** Lexer of src/main.rs. The file's characters are fixed; the cursor state advances one _readchar at a
      time, and last_token records the last token returned, or the EOF token of a read past the end. */
  class Lexer {
    const filename: string
    const data: string
    var line: nat
    var column: nat
    var position: nat
    var cursor: nat
    var currentChar: char
    var lastToken: Option<Token>

    /** The fields describe the characters read so far, as CursorState says. */
    ghost predicate Valid()
      reads this
    {
      CursorState(data, cursor, position, line, column, currentChar)
    }

    /** Lexer::new once the file is read: the state before any read, followed by one _readchar. */
    constructor (filename: string, data: string)
      ensures this.filename == filename && this.data == data && Valid()
      ensures cursor == Min(1, |data|)
      ensures lastToken == if data == [] then Some(TokenAt(EOF, data, 0)) else None
    {
      this.filename := filename;
      this.data := data;
      line, column := 1, 1;
      position, cursor := 0, 0;
      currentChar := '\n';
      lastToken := None;
      new;
      var _ := ReadChar();
    }

    /** _new_token: the token is stamped with the line and column that count what has been read, and with
        the cursor. */
    function NewToken(tt: TokenType): (r: Token)
      reads this
      requires Valid()
      ensures r == TokenAt(tt, data, cursor)
    {
      Token(tt, line, column, cursor)
    }

    /** _readchar: reads the character at the cursor; at the end it records an EOF token as last_token
        and changes nothing else. */
    method ReadChar() returns (ok: bool)
      requires Valid()
      modifies this
      ensures Valid()
      ensures ok == (old(cursor) < |data|)
      ensures ok ==> cursor == old(cursor) + 1 && lastToken == old(lastToken)
      ensures ok ==> if currentChar == '\n' then line == old(line) + 1 && column == 1
                     else line == old(line) && column == old(column) + 1
      ensures !ok ==> cursor == old(cursor) && currentChar == old(currentChar)
                      && lastToken == Some(TokenAt(EOF, data, cursor))
    {
      if cursor >= |data| {
        lastToken := Some(NewToken(EOF));
        return false;
      }
      ReadStep(data, cursor, position, line, column, currentChar);
      currentChar := data[cursor];
      if currentChar == '\n' {
        line := line + 1;
        column := 0;
      }
      position := cursor;
      cursor := cursor + 1;
      column := column + 1;
      return true;
    }

    /** _skip_whitespace: reads on to the first character that is not whitespace, failing when the data
        runs out first. */
    method SkipWhitespace() returns (ok: bool)
      requires Valid()
      modifies this
      ensures Valid()
      ensures var lexeme := LexemeFrom(data, old(cursor));
        ok == lexeme.Some?
        && (ok ==> cursor == lexeme.value + 1 && lastToken == old(lastToken))
        && (!ok ==> cursor == |data| && lastToken == Some(TokenAt(EOF, data, |data|)))
    {
      ghost var c0 := cursor;
      while IsWhitespace(currentChar)
        invariant Valid() && c0 <= cursor && lastToken == old(lastToken)
        invariant forall k :: Back(c0) <= k < cursor - 1 ==> IsWhitespace(data[k])
        invariant cursor == c0 || Back(c0) <= cursor - 1
        decreases |data| - cursor
      {
        var more := ReadChar();
        if !more {
          return false;
        }
      }
      return true;
    }

    /** _read_identifier: reads on while the current character is alphanumeric or '_' and returns the
        characters from the current one up to, not including, the one current when it stops. */
    method ReadIdentifier() returns (id: string)
      requires Valid()
      modifies this
      ensures Valid()
      ensures old(cursor) == 0 ==> id == [] && cursor == 0 && lastToken == old(lastToken)
      ensures old(cursor) > 0 ==>
        var s := old(cursor) - 1;
        var e := Scanner.RunEnd(data, s, IsIdentChar);
        cursor == Min(e + 1, |data|) && id == data[s..cursor - 1]
        && lastToken == if e == |data| then Some(TokenAt(EOF, data, |data|)) else old(lastToken)
    {
      ghost var s := Back(cursor);
      var start := position;
      while IsIdentChar(currentChar)
        invariant Valid() && start == s <= position && (old(cursor) == 0 ==> cursor == 0)
        invariant forall k :: start <= k < position ==> IsIdentChar(data[k])
        invariant lastToken == old(lastToken)
        decreases |data| - cursor
      {
        var more := ReadChar();
        if !more {
          break;
        }
      }
      id := data[start..position];
      if old(cursor) > 0 {
        WordEnd(data, start, cursor, position, line, column, currentChar);
      }
    }

    /** _nextchar: the character after the current one, if any; nothing changes. */
    function NextChar(): (r: Option<char>)
      reads this
      requires Valid()
      ensures r.Some? <==> cursor < |data|
      ensures r.Some? ==> r.value == data[cursor]
    {
      if cursor >= |data| then None else Some(data[cursor])
    }

    /** The "//" branch of next_token, entered with the first '/' at data[s] just read. */
    method ReadLineComment(ghost s: nat) returns (t: Token)
      requires Valid() && cursor == s + 1 && s + 1 < |data| && data[s] == '/' && data[s + 1] == '/'
      modifies this
      ensures Valid()
      ensures var r := LineComment(data, s); r.token == Some(t) && cursor == r.next
    {
      var _ := ReadChar();
      var _ := ReadChar();
      var start := position;
      while currentChar != '\n'
        invariant Valid() && start == Min(s + 2, |data| - 1) && start <= position && cursor == position + 1
        invariant forall k :: start <= k < position ==> data[k] != '\n'
        decreases |data| - cursor
      {
        var more := ReadChar();
        if !more {
          break;
        }
      }
      LineCommentEnd(data, s, start, cursor, position, line, column, currentChar);
      t := NewToken(Comment(data[start..position]));
      var _ := ReadChar();
    }

    /** The slash-star branch of next_token, entered with the '/' at data[s] just read. */
    method ReadBlockComment(ghost s: nat) returns (t: Token)
      requires Valid() && cursor == s + 1 && s + 1 < |data| && data[s] == '/' && data[s + 1] == '*'
      modifies this
      ensures Valid()
      ensures var r := BlockComment(data, s); r.token == Some(t) && cursor == r.next
    {
      var _ := ReadChar();
      var _ := ReadChar();
      var start := position;
      while currentChar != '*' || NextChar() != Some('/')
        invariant Valid() && start == Min(s + 2, |data| - 1) && start <= position && cursor == position + 1
        invariant forall m :: start <= m < position ==> !Scanner.ClosesAt(data, m)
        decreases |data| - cursor
      {
        var more := ReadChar();
        if !more {
          break;
        }
      }
      BlockCommentEnd(data, s, start, cursor, position, line, column, currentChar);
      t := NewToken(Comment(data[start..position]));
      var _ := ReadChar();
      var _ := ReadChar();
    }

    /** The branch of next_token for a lexeme starting with '/', just read at data[s]. */
    method ReadSlash(ghost s: nat) returns (t: Token)
      requires Valid() && cursor == s + 1 && s < |data| && data[s] == '/'
      modifies this
      ensures Valid()
      ensures var r := ScanAt(data, s); r.token == Some(t) && cursor == r.next
    {
      var following := NextChar();
      match following {
        case Some('/') =>
          t := ReadLineComment(s);
        case Some('*') =>
          t := ReadBlockComment(s);
        case _ =>
          t := NewToken(Operator('/'));
      }
    }

    /** The branch of next_token for an operator or delimiter character other than '/', just read at
        data[s]. */
    method ReadSingle(ghost s: nat) returns (t: Token)
      requires Valid() && cursor == s + 1 && s < |data| && data[s] != '/'
      requires Scanner.IsOperatorChar(data[s]) || Scanner.IsDelimiterChar(data[s])
      modifies this
      ensures Valid()
      ensures var r := ScanAt(data, s); r.token == Some(t) && cursor == r.next
    {
      if Scanner.IsOperatorChar(currentChar) {
        t := NewToken(Operator(currentChar));
      } else {
        t := NewToken(Delimiter(currentChar));
      }
      var _ := ReadChar();
    }

    /** The branch of next_token for any other character, just read at data[s]: a word. */
    method ReadWord(ghost s: nat) returns (t: Token)
      requires Valid() && cursor == s + 1 && s < |data| && !IsPunctuation(data[s])
      modifies this
      ensures Valid()
      ensures var r := ScanAt(data, s); r.token == Some(t) && cursor == r.next
    {
      assert ScanAt(data, s) == Word(data, s);
      var identifier := ReadIdentifier();
      t := NewToken(WordToken(identifier));
    }

    /** next_token: skips whitespace and reads one token, as NextTokenFrom says from the cursor; the token
        returned becomes last_token, and when only whitespace was left last_token is the EOF token. */
    method NextToken() returns (t: Option<Token>)
      requires Valid()
      modifies this
      ensures Valid()
      ensures var r := NextTokenFrom(data, old(cursor)); t == r.token && cursor == r.next
      ensures lastToken == if t.Some? then t else Some(TokenAt(EOF, data, |data|))
    {
      var more := SkipWhitespace();
      if !more {
        return None;
      }
      ghost var s := cursor - 1;
      var token: Token;
      if currentChar == '/' {
        token := ReadSlash(s);
      } else if Scanner.IsOperatorChar(currentChar) || Scanner.IsDelimiterChar(currentChar) {
        token := ReadSingle(s);
      } else {
        token := ReadWord(s);
      }
      lastToken := Some(token);
      return Some(token);
    }
  }

  /** Where the "//" loop stops is where LineComment ends the comment, with the lexer's state there. */
  lemma LineCommentEnd(data: string, s: nat, start: nat, cursor: nat, position: nat, line: nat, column: nat,
                       current: char)
    requires CursorState(data, cursor, position, line, column, current) && cursor == position + 1
    requires s + 1 < |data| && start == Min(s + 2, |data| - 1) && start <= position
    requires forall k :: start <= k < position ==> data[k] != '\n'
    requires current == '\n' || cursor == |data|
    ensures LineComment(data, s).token == Some(Token(Comment(data[start..position]), line, column, cursor))
    ensures LineComment(data, s).next == Min(cursor + 1, |data|)
  {
    var q := Scanner.RunEnd(data, start, Scanner.IsNotNewline);
    if data[position] == '\n' {
      assert q == position;
    } else {
      assert q == |data|;
    }
  }

  /** Where the slash-star loop stops is where BlockComment ends the comment, with the lexer's state there. */
  lemma BlockCommentEnd(data: string, s: nat, start: nat, cursor: nat, position: nat, line: nat, column: nat,
                        current: char)
    requires CursorState(data, cursor, position, line, column, current) && cursor == position + 1
    requires s + 1 < |data| && start == Min(s + 2, |data| - 1) && start <= position
    requires forall m :: start <= m < position ==> !Scanner.ClosesAt(data, m)
    requires Scanner.ClosesAt(data, position) || cursor == |data|
    ensures BlockComment(data, s).token == Some(Token(Comment(data[start..position]), line, column, cursor))
    ensures BlockComment(data, s).next == Min(cursor + 2, |data|)
  {
    assert CloseOrLast(data, start) == position;
  }

  /** Where the _read_identifier loop stops is where Word ends the word, with the lexer's state there. */
  lemma WordEnd(data: string, start: nat, cursor: nat, position: nat, line: nat, column: nat, current: char)
    requires CursorState(data, cursor, position, line, column, current) && 0 < cursor && start <= position
    requires forall k :: start <= k < position ==> IsIdentChar(data[k])
    requires !IsIdentChar(current) || cursor == |data|
    ensures var e := Scanner.RunEnd(data, start, IsIdentChar);
      cursor == Min(e + 1, |data|) && (e == |data| <==> IsIdentChar(current))
  {
    var e := Scanner.RunEnd(data, start, IsIdentChar);
    if IsIdentChar(current) {
      assert e == |data|;
    } else {
      assert e == position;
    }
  }
}
