/** What the Go lexer of lex.go reads, as functions of the file's text: the character classes, the line and
    column counts, and Scan, which says what one NextToken call produces from the index of the lexeme's
    first character. The Lexer class of module Lex is proved to follow Scan. */
module Scanner {
  import opened Wrappers
  import opened Strs
  import opened Tokens

  // ---------------------------------------------------------------- character classes

  /** The four characters skipWhitespace skips. */
  predicate IsSpace(c: char) {
    c == ' ' || c == '\t' || c == '\n' || c == '\r'
  }

  /** unicode.IsLetter, restricted to ASCII. */
  predicate IsLetter(c: char) {
    'a' <= c <= 'z' || 'A' <= c <= 'Z'
  }

  /** unicode.IsDigit, restricted to ASCII. */
  predicate IsDigit(c: char) {
    '0' <= c <= '9'
  }

  predicate IsIdentChar(c: char) {
    IsLetter(c) || IsDigit(c) || c == '_'
  }

  predicate IsNotNewline(c: char) {
    c != '\n'
  }

  /** The one-character operators; '/' is handled on its own. */
  predicate IsOperatorChar(c: char) {
    c == '+' || c == '-' || c == '*' || c == '%' || c == '=' || c == '<' || c == '>' || c == '!' || c == '&'
    || c == '|' || c == '^' || c == '~'
  }

  predicate IsDelimiterChar(c: char) {
    c == '{' || c == '}' || c == '(' || c == ')' || c == '[' || c == ']' || c == ';'
  }

  /** The words NextToken turns into Keyword tokens; "true" and "false" are among them. */
  const Keywords: set<string> := {
    "enum", "packet", "protocol", "message", "field",
    "bool", "u8", "u16", "u32", "u64", "u128", "i8", "i16", "i32", "i64", "i128",
    "CString", "String", "Cbytes", "Bytes",
    "Bytes8le", "Bytes16le", "Bytes32le", "Bytes64le",
    "Bytes8be", "Bytes16be", "Bytes32be", "Bytes64be",
    "String8le", "String16le", "String32le", "String64le",
    "String8be", "String16be", "String32be", "String64be",
    "Array", "Padding", "Bits", "f32", "f64",
    "true", "false"
  }

  /** The kind of a word read by readIdentifier: only Keyword or Identifier, never Boolean or Number. */
  function IdentifierKind(id: string): (r: TType)
    ensures r == Keyword || r == Identifier
    ensures r == Keyword <==> id in Keywords
  {
    if id in Keywords then Keyword else Identifier
  }

  // ---------------------------------------------------------------- line and column counting

  /** Line after reading the characters s: one more than the newlines among them. */
  function LineAfter(s: string): int {
    1 + Count(s, '\n')
  }

  /** Col after reading the characters s: one more than the characters after the last newline. */
  function ColAfter(s: string): int {
    1 + TrailingRun(s, '\n')
  }

  /** Reading one more character: a newline moves to the next line and sets Col to 1, any other character
      adds one to Col. */
  lemma ReadOne(s: string, c: char)
    ensures LineAfter(s + [c]) == LineAfter(s) + (if c == '\n' then 1 else 0)
    ensures ColAfter(s + [c]) == if c == '\n' then 1 else ColAfter(s) + 1
  {
    CountAppend(s, [c], '\n');
    assert Count([c], '\n') == (if c == '\n' then 1 else 0) by { assert [c][1..] == []; }
    assert (s + [c])[..|s|] == s;
  }

  /** The position stamped on a token once the reads of data[..k] are done; a read past the end changes
      nothing, so k is clamped to |data|. */
  function Stamp(file: string, data: string, k: nat): Position {
    var j := if k <= |data| then k else |data|;
    Position(file, LineAfter(data[..j]), ColAfter(data[..j]))
  }

  lemma {:induction false} TrailingRunAfter(x: string, y: string, d: char)
    ensures TrailingRun(x + [d] + y, d) == TrailingRun(y, d)
  {
    var s := x + [d] + y;
    if y == [] {
    } else if y[|y| - 1] != d {
      assert s[..|s| - 1] == x + [d] + y[..|y| - 1];
      TrailingRunAfter(x, y[..|y| - 1], d);
    }
  }

  lemma {:induction false} CountAbsentPrefix(s: string, k: nat, c: char)
    requires k <= |s| && c !in s
    ensures Count(s[..k], c) == 0 && TrailingRun(s[..k], c) == k
  {
    CountAbsent(s[..k], c);
    if k > 0 {
      CountAbsentPrefix(s, k - 1, c);
      assert s[..k][..k - 1] == s[..k - 1];
    }
  }

  lemma CountsAfterNewline(x: string, y: string)
    requires '\n' !in x
    ensures Count(x + ['\n'] + y, '\n') == 1 + Count(y, '\n')
    ensures TrailingRun(x + ['\n'] + y, '\n') == TrailingRun(y, '\n')
  {
    CountAbsent(x, '\n');
    CountAppend(x + ['\n'], y, '\n');
    CountAppend(x, ['\n'], '\n');
    assert Count(['\n'], '\n') == 1 by { assert ['\n'][1..] == []; }
    TrailingRunAfter(x, y, '\n');
  }

  /** The line and column the lexer counts locate a character in the lines that the renderer splits the
      file into: the character data[k] is at row Line-1, offset Col-1, counted just before reading it. */
  lemma {:induction false} CountsLocate(data: string, k: nat)
    requires k < |data| && data[k] != '\n'
    ensures var lines := Split(data, '\n');
      var row, off := Count(data[..k], '\n'), TrailingRun(data[..k], '\n');
      row < |lines| && off < |lines[row]| && lines[row][off] == data[k]
    decreases |data|
  {
    var i := IndexOf(data, '\n');
    if i == |data| {
      CountAbsentPrefix(data, k, '\n');
    } else if k < i {
      var x := data[..i];
      assert '\n' !in x;
      CountAbsentPrefix(x, k, '\n');
      assert x[..k] == data[..k];
    } else {
      var rest := data[i + 1..];
      CountsLocate(rest, k - i - 1);
      CountsPastNewline(data, i, k);
      SplitAt(data, i);
    }
  }

  /** The counts of a prefix that passes the first newline, data[i], are those of the text after it, one line on. */
  lemma CountsPastNewline(data: string, i: nat, k: nat)
    requires i < k <= |data| && data[i] == '\n' && forall j :: 0 <= j < i ==> data[j] != '\n'
    ensures Count(data[..k], '\n') == 1 + Count(data[i + 1..][..k - i - 1], '\n')
    ensures TrailingRun(data[..k], '\n') == TrailingRun(data[i + 1..][..k - i - 1], '\n')
  {
    assert data[..k] == data[..i] + ['\n'] + data[i + 1..][..k - i - 1];
    CountsAfterNewline(data[..i], data[i + 1..][..k - i - 1]);
  }

  lemma SplitAt(data: string, i: nat)
    requires i < |data| && i == IndexOf(data, '\n')
    ensures Split(data, '\n') == [data[..i]] + Split(data[i + 1..], '\n')
  {
  }

  /** A one-character token stands on its own character: with the Line and Col stamped on it, the character
      is row Line-1 of the split file, at offset Col-2 (Col counts one past the character's 1-based
      column). */
  lemma StampLocates(file: string, data: string, s: nat)
    requires s < |data| && data[s] != '\n'
    ensures var p, lines := Stamp(file, data, s + 1), Split(data, '\n');
      1 <= p.line <= |lines| && 2 <= p.col <= |lines[p.line - 1]| + 1 && lines[p.line - 1][p.col - 2] == data[s]
  {
    assert data[..s + 1] == data[..s] + [data[s]];
    ReadOne(data[..s], data[s]);
    CountsLocate(data, s);
  }

  // ---------------------------------------------------------------- scanning

  /** The first index at or after i that is not in the run, or |data|. */
  function RunEnd(data: string, i: nat, inRun: char -> bool): (r: nat)
    requires i <= |data|
    ensures i <= r <= |data|
    ensures forall k :: i <= k < r ==> inRun(data[k])
    ensures r < |data| ==> !inRun(data[r])
    decreases |data| - i
  {
    if i == |data| || !inRun(data[i]) then i else RunEnd(data, i + 1, inRun)
  }

  /** A block-comment terminator starts at m. */
  predicate ClosesAt(data: string, m: int) {
    0 <= m && m + 1 < |data| && data[m] == '*' && data[m + 1] == '/'
  }

  /** The first terminator at or after i. */
  function CloseFrom(data: string, i: nat): (r: Option<nat>)
    requires i <= |data|
    ensures r.Some? ==> i <= r.value && ClosesAt(data, r.value) && forall m :: i <= m < r.value ==> !ClosesAt(data, m)
    ensures r.None? ==> forall m :: i <= m < |data| ==> !ClosesAt(data, m)
    decreases |data| - i
  {
    if i == |data| then None else if ClosesAt(data, i) then Some(i) else CloseFrom(data, i + 1)
  }

  /** The status NextToken returns besides its token: nil, or io.EOF. */
  datatype LexStatus = NoError | IoEOF

  /** Go's zero Token, returned when only whitespace is left. */
  const ZeroToken: Token := Token(TokenType(0, ""), Position("", 0, 0))

  function EofToken(p: Position): Token {
    Token(TokenType(EOF, ""), p)
  }

  /** What one NextToken call yields, and how far it reads: next is the k of the Lexer's ReadTo(k). */
  datatype Step = Step(token: Token, status: LexStatus, next: nat)

  /** One NextToken call whose lexeme starts at data[s] (s == |data| when only whitespace was left). */
  function Scan(file: string, data: string, s: nat): (r: Step)
    requires s <= |data|
    ensures s < r.next <= |data| + 1
  {
    if s == |data| then Step(ZeroToken, IoEOF, |data| + 1)
    else
      var c := data[s];
      if c == '/' then
        if s + 1 == |data| then Step(EofToken(Stamp(file, data, s + 1)), IoEOF, s + 1)
        else if data[s + 1] == '/' then
          var q := if s + 2 == |data| then |data| else RunEnd(data, s + 2, IsNotNewline);
          if q == |data| then Step(EofToken(Stamp(file, data, |data|)), IoEOF, |data| + 1)
          else Step(Token(TokenType(Comment, data[s + 2..q]), Stamp(file, data, q + 2)), NoError, q + 2)
        else if data[s + 1] == '*' then
          if s + 3 >= |data| then Step(EofToken(Stamp(file, data, |data|)), IoEOF, |data| + 1)
          else match CloseFrom(data, s + 3)
            case None => Step(EofToken(Stamp(file, data, |data|)), IoEOF, |data|)
            case Some(q) => Step(Token(TokenType(Comment, data[s + 2..q]), Stamp(file, data, q + 3)), NoError, q + 3)
        else Step(Token(TokenType(Operator, "/"), Stamp(file, data, s + 1)), NoError, s + 2)
      else if IsOperatorChar(c) then Step(Token(TokenType(Operator, [c]), Stamp(file, data, s + 1)), NoError, s + 2)
      else if IsDelimiterChar(c) then Step(Token(TokenType(Delimiter, [c]), Stamp(file, data, s + 1)), NoError, s + 2)
      else
        var e := RunEnd(data, s, IsIdentChar);
        var id := data[s..if e < |data| then e else |data| - 1];
        Step(Token(TokenType(IdentifierKind(id), id), Stamp(file, data, e + 1)), NoError, e + 1)
  }

  /** The word that Scan reads from s, and where its reading stops. */
  lemma ScanWordStep(file: string, data: string, s: nat)
    requires s < |data| && data[s] != '/' && !IsOperatorChar(data[s]) && !IsDelimiterChar(data[s])
    ensures var e := RunEnd(data, s, IsIdentChar); var id := data[s..if e < |data| then e else |data| - 1];
      Scan(file, data, s) == Step(Token(TokenType(IdentifierKind(id), id), Stamp(file, data, e + 1)), NoError, e + 1)
  {
  }

  /** The state of a lexer that has read data[..cursor]: position is the index of the last character read;
      line and col count the newlines and the characters since the last newline; current is the last
      character read, or '\n' once a read past the end recorded the EOF token as last. */
  ghost predicate CursorState(file: string, data: string, cursor: int, position: int, line: int, col: int,
                              current: char, last: Option<Token>)
  {
    0 <= cursor <= |data|
    && position == (if cursor == 0 then 0 else cursor - 1)
    && line == LineAfter(data[..cursor])
    && col == ColAfter(data[..cursor])
    && match last
       case Some(t) => cursor == |data| && current == '\n' && t == EofToken(Position(file, line, col))
       case None => current == if cursor == 0 then '\n' else data[cursor - 1]
  }

  /** A lexer at cursor with last token last has read data[..k], and, when k > |data|, a further read failed. */
  ghost predicate ReadUpTo(data: string, cursor: int, last: Option<Token>, k: nat) {
    if k <= |data| then cursor == k && last == None else cursor == |data| && last.Some?
  }

  // ---------------------------------------------------------------- properties of one NextToken call

  /** An operator or delimiter character yields a one-character token of that kind, stamped where the
      character stands, and exactly that character is consumed. */
  lemma ScanSingle(file: string, data: string, s: nat)
    requires s < |data| && data[s] != '/' && (IsOperatorChar(data[s]) || IsDelimiterChar(data[s]))
    ensures var r := Scan(file, data, s);
      r.status == NoError && r.next == s + 2 && r.token.Value() == [data[s]]
      && r.token.Type() == (if IsOperatorChar(data[s]) then Operator else Delimiter)
      && var lines := Split(data, '\n');
      1 <= r.token.position.line <= |lines| && 2 <= r.token.position.col <= |lines[r.token.position.line - 1]| + 1
      && lines[r.token.position.line - 1][r.token.position.col - 2] == data[s]
  {
    assert data[s] != '\n';
    StampLocates(file, data, s);
  }

  /** "//": the comment is the text strictly between "//" and the next newline; with no newline left the
      call yields an EOF token and io.EOF. */
  lemma ScanLineComment(file: string, data: string, s: nat)
    requires s + 1 < |data| && data[s] == '/' && data[s + 1] == '/'
    ensures var r := Scan(file, data, s);
      (r.status == NoError <==> '\n' in data[s + 2..])
      && (r.status == NoError ==> var v := r.token.Value();
            r.token.Type() == Comment && s + 2 + |v| < |data| && data[s + 2..s + 2 + |v|] == v
            && '\n' !in v && data[s + 2 + |v|] == '\n' && r.next == s + |v| + 4)
      && (r.status == IoEOF ==> r.token == EofToken(Stamp(file, data, |data|)))
  {
    var r := Scan(file, data, s);
    if s + 2 < |data| {
      var q := RunEnd(data, s + 2, IsNotNewline);
      if '\n' in data[s + 2..] {
        var k :| s + 2 <= k < |data| && data[k] == '\n';
        assert q <= k;
      }
      if q < |data| {
        assert data[s + 2..][q - s - 2] == '\n';
        var v := data[s + 2..q];
        assert forall i :: 0 <= i < |v| ==> v[i] == data[s + 2 + i];
      }
    }
  }

  // Slash-star: the character right after the opening slash-star is never taken as the start of the
  // terminator, and the comment is the text up to the first star-slash found from there on.
  lemma ScanBlockComment(file: string, data: string, s: nat)
    requires s + 1 < |data| && data[s] == '/' && data[s + 1] == '*'
    ensures var r := Scan(file, data, s);
      (r.status == NoError <==> s + 3 < |data| && exists m :: s + 3 <= m && ClosesAt(data, m))
      && (r.status == NoError ==> var v := r.token.Value();
            r.token.Type() == Comment && |v| >= 1 && data[s + 2..s + 2 + |v|] == v && ClosesAt(data, s + 2 + |v|)
            && (forall m :: s + 3 <= m < s + 2 + |v| ==> !ClosesAt(data, m)) && r.next == s + |v| + 5)
      && (r.status == IoEOF ==> r.token == EofToken(Stamp(file, data, |data|)))
  {
  }

  /** Any other character starts a word: the longest run of identifier characters from s, except that a run
      reaching the end of the data loses its last character. A character outside every class yields an
      empty Identifier token and consumes nothing. */
  lemma ScanWord(file: string, data: string, s: nat)
    requires s < |data| && data[s] != '/' && !IsOperatorChar(data[s]) && !IsDelimiterChar(data[s])
    ensures var r := Scan(file, data, s); var v := r.token.Value(); var end := s + |v|;
      r.status == NoError && end <= |data| && data[s..end] == v
      && (forall i :: 0 <= i < |v| ==> IsIdentChar(v[i]))
      && (r.token.Type() == Keyword <==> v in Keywords)
      && (r.token.Type() == Identifier <==> v !in Keywords)
      && (if end < |data| && !IsIdentChar(data[end]) then r.next == end + 1
          else end == |data| - 1 && IsIdentChar(data[end]) && r.next == |data| + 1)
  {
  }

  /** A word that runs to the end of the data is returned without its last character. */
  lemma ScanWordAtEnd()
    ensures Scan("f", "enum", 0).token == Token(TokenType(Identifier, "enu"), Stamp("f", "enum", 4))
  {
    assert forall k :: 0 <= k < 4 ==> IsIdentChar("enum"[k]);
    assert RunEnd("enum", 0, IsIdentChar) == 4;
    assert "enum"[0..3] == "enu";
    assert "enu" !in Keywords;
  }

  /** The text slash, star, star, slash, space, star, slash. */
  const EarlyCloser: string := ['/', '*', '*', '/', ' ', '*', '/']

  // Slash-star-star-slash does not close a block comment, since its star-slash starts right after the
  // opening slash-star: the comment runs on to the next star-slash.
  lemma ScanSkipsFirstCloser()
    ensures Scan("f", EarlyCloser, 0).token.tokenType == TokenType(Comment, ['*', '/', ' '])
  {
    assert !ClosesAt(EarlyCloser, 3) && !ClosesAt(EarlyCloser, 4) && ClosesAt(EarlyCloser, 5);
    assert CloseFrom(EarlyCloser, 3) == Some(5);
  }

  // ---------------------------------------------------------------- the steps of a comment, one by one

  /** "//" closed by the newline at q: the comment is the text in between and reading stops past the newline. */
  lemma ScanLineClosed(file: string, data: string, s: nat, q: nat)
    requires s + 2 <= q < |data| && data[s] == '/' && data[s + 1] == '/' && data[q] == '\n'
    requires forall k :: s + 2 <= k < q ==> data[k] != '\n'
    ensures Scan(file, data, s) == Step(Token(TokenType(Comment, data[s + 2..q]), Stamp(file, data, q + 2)), NoError, q + 2)
  {
    assert RunEnd(data, s + 2, IsNotNewline) == q;
  }

  /** "//" with no newline after it: an EOF token stamped at the end of the data. */
  lemma ScanLineOpen(file: string, data: string, s: nat)
    requires s + 1 < |data| && data[s] == '/' && data[s + 1] == '/'
    requires forall k :: s + 2 <= k < |data| ==> data[k] != '\n'
    ensures Scan(file, data, s) == Step(EofToken(Stamp(file, data, |data|)), IoEOF, |data| + 1)
  {
  }

  /** Slash-star with fewer than two characters after it. */
  lemma ScanBlockShort(file: string, data: string, s: nat)
    requires s + 1 < |data| <= s + 3 && data[s] == '/' && data[s + 1] == '*'
    ensures Scan(file, data, s) == Step(EofToken(Stamp(file, data, |data|)), IoEOF, |data| + 1)
  {
  }

  /** Slash-star with no terminator from two characters on: an EOF token, the data read to its end. */
  lemma ScanBlockOpen(file: string, data: string, s: nat)
    requires s + 3 < |data| && data[s] == '/' && data[s + 1] == '*'
    requires forall m :: s + 3 <= m < |data| ==> !ClosesAt(data, m)
    ensures Scan(file, data, s) == Step(EofToken(Stamp(file, data, |data|)), IoEOF, |data|)
  {
  }

  /** Slash-star whose first terminator from two characters on is at q. */
  lemma ScanBlockClosed(file: string, data: string, s: nat, q: nat)
    requires s + 3 <= q && ClosesAt(data, q) && data[s] == '/' && data[s + 1] == '*'
    requires forall m :: s + 3 <= m < q ==> !ClosesAt(data, m)
    ensures Scan(file, data, s) == Step(Token(TokenType(Comment, data[s + 2..q]), Stamp(file, data, q + 3)), NoError, q + 3)
  {
    assert CloseFrom(data, s + 3) == Some(q);
  }

}
