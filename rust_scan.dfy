/** What one call of the Rust Lexer's next_token (src/main.rs) produces, as functions of the file's
    characters and of the cursor it starts from. The Lexer class of module RustLexer is proved to follow
    NextTokenFrom. Line and column counting, runs and comment terminators are those of module Scanner:
    the two lexers count and search alike. */
module RustScan {
  import opened Wrappers
  import opened Numerals
  import opened RustStd
  import Scanner
  import Strs

  datatype TokenType =
    | Identifier(text: string)
    | Boolean(b: bool)
    | Number(n: Uint64)
    | Operator(op: char)
    | Delimiter(d: char)
    | Keyword(word: string)
    | Comment(comment: string)
    | EOF

  /** A token and the line, column and cursor of the lexer when it was made. */
  datatype Token = Token(tokenType: TokenType, line: nat, column: nat, index: nat)

  /** The words next_token turns into Keyword tokens; "true" and "false" become Boolean tokens instead. */
  const Keywords: set<string> := {
    "enum", "packet", "protocol", "message", "field",
    "bool", "u8", "u16", "u32", "u64", "u128", "i8", "i16", "i32", "i64", "i128",
    "CString", "String", "Cbytes", "Bytes",
    "Bytes8le", "Bytes16le", "Bytes32le", "Bytes64le",
    "Bytes8be", "Bytes16be", "Bytes32be", "Bytes64be",
    "String8le", "String16le", "String32le", "String64le",
    "String8be", "String16be", "String32be", "String64be",
    "Array", "Padding", "Bits", "f32", "f64"
  }

  predicate IsIdentChar(c: char) {
    IsAlphanumeric(c) || c == '_'
  }

  /** The characters that start a token of their own: '/' and the one-character operators and delimiters. */
  predicate IsPunctuation(c: char) {
    c == '/' || Scanner.IsOperatorChar(c) || Scanner.IsDelimiterChar(c)
  }

  /** The token a word read by _read_identifier becomes. */
  function WordToken(id: string): TokenType {
    if id in Keywords then Keyword(id)
    else if id == "true" then Boolean(true)
    else if id == "false" then Boolean(false)
    else Identifier(id)
  }

  /** The text a word token was made from. */
  function WordText(tt: TokenType): string {
    match tt
    case Keyword(w) => w
    case Boolean(b) => if b then "true" else "false"
    case Identifier(x) => x
    case _ => ""
  }

  /** A word token is a keyword, a boolean or an identifier, and it gives back the word it was made from. */
  lemma WordTokenText(id: string)
    ensures var tt := WordToken(id); (tt.Keyword? || tt.Boolean? || tt.Identifier?) && WordText(tt) == id
    ensures WordToken(id).Keyword? <==> id in Keywords
    ensures WordToken(id).Boolean? <==> id == "true" || id == "false"
  {
    assert "true" !in Keywords && "false" !in Keywords;
  }

  function Min(a: nat, b: nat): nat {
    if a <= b then a else b
  }

  /** _new_token once data[..k] has been read: line and column count what was read, index is the cursor. */
  function TokenAt(tt: TokenType, data: string, k: nat): (r: Token)
    requires k <= |data|
  {
    Token(tt, Scanner.LineAfter(data[..k]), Scanner.ColAfter(data[..k]), k)
  }

  /** The current character of a lexer whose cursor is c: the last one read, or the initial '\n'. */
  function Current(data: string, c: nat): char
    requires c <= |data|
  {
    if c == 0 then '\n' else data[c - 1]
  }

  /** The index of the current character, where the search for a lexeme starts. */
  function Back(c: nat): nat {
    if c == 0 then 0 else c - 1
  }

  /** _skip_whitespace from cursor c: the index of the first character that is not whitespace, from the
      current character on, or None when only whitespace is left. */
  function LexemeFrom(data: string, c: nat): (r: Option<nat>)
    requires c <= |data|
    ensures r.None? <==> forall k :: Back(c) <= k < |data| ==> IsWhitespace(data[k])
    ensures r.Some? ==> Back(c) <= r.value < |data| && !IsWhitespace(data[r.value])
                        && forall k :: Back(c) <= k < r.value ==> IsWhitespace(data[k])
  {
    if !IsWhitespace(Current(data, c)) then Some(c - 1)
    else
      var k := Scanner.RunEnd(data, c, IsWhitespace);
      if k == |data| then None else Some(k)
  }

  /** The state of a lexer that has read data[..cursor]: position is the index of the last character read,
      line and column count the newlines and the characters since the last newline, and the current
      character is the last one read, or the initial '\n'. A read past the end changes none of these. */
  ghost predicate CursorState(data: string, cursor: int, position: int, line: int, column: int, current: char) {
    0 <= cursor <= |data|
    && position == Back(cursor)
    && line == Scanner.LineAfter(data[..cursor])
    && column == Scanner.ColAfter(data[..cursor])
    && current == Current(data, cursor)
  }

  /** What a next_token call yields, and the cursor it leaves. */
  datatype Step = Step(token: Option<Token>, next: nat)

  /** The "//" branch: the comment runs from two past the first '/' (one past it, when the file ends
      there) up to the next newline, and stops one short of the end when no newline follows. */
  function LineComment(data: string, s: nat): (r: Step)
    requires s + 1 < |data|
  {
    var p := Min(s + 2, |data| - 1);
    var q := Scanner.RunEnd(data, p, Scanner.IsNotNewline);
    var e := Min(q, |data| - 1);
    Step(Some(TokenAt(Comment(data[p..e]), data, e + 1)), Min(e + 2, |data|))
  }

  /** The first terminator at or after p, or the last index when there is none. */
  function CloseOrLast(data: string, p: nat): (e: nat)
    requires p < |data|
    ensures p <= e < |data|
  {
    match Scanner.CloseFrom(data, p)
    case Some(j) => j
    case None => |data| - 1
  }

  /** The slash-star branch: the comment runs from two past the '/' (one past it, when the file ends there)
      up to the first "star-slash", or up to the last character when there is none. */
  function BlockComment(data: string, s: nat): (r: Step)
    requires s + 1 < |data|
  {
    var p := Min(s + 2, |data| - 1);
    var e := CloseOrLast(data, p);
    Step(Some(TokenAt(Comment(data[p..e]), data, e + 1)), Min(e + 3, |data|))
  }

  /** The word branch: _read_identifier reads the run of identifier characters from s; the word stops one
      short of the end when the run reaches it, and is empty when data[s] is no identifier character. */
  function Word(data: string, s: nat): (r: Step)
    requires s < |data|
  {
    var e := Scanner.RunEnd(data, s, IsIdentChar);
    var k := Min(e + 1, |data|);
    Step(Some(TokenAt(WordToken(data[s..k - 1]), data, k)), k)
  }

  /** One next_token call whose lexeme starts at data[s], just read. */
  function ScanAt(data: string, s: nat): (r: Step)
    requires s < |data|
  {
    var c := data[s];
    if c == '/' then
      if s + 1 < |data| && data[s + 1] == '/' then LineComment(data, s)
      else if s + 1 < |data| && data[s + 1] == '*' then BlockComment(data, s)
      else Step(Some(TokenAt(Operator('/'), data, s + 1)), s + 1)
    else if Scanner.IsOperatorChar(c) then Step(Some(TokenAt(Operator(c), data, s + 1)), Min(s + 2, |data|))
    else if Scanner.IsDelimiterChar(c) then Step(Some(TokenAt(Delimiter(c), data, s + 1)), Min(s + 2, |data|))
    else Word(data, s)
  }

  /** next_token from cursor c: None once only whitespace is left, with the cursor at the end. */
  function NextTokenFrom(data: string, c: nat): (r: Step)
    requires c <= |data|
  {
    match LexemeFrom(data, c)
    case None => Step(None, |data|)
    case Some(s) => ScanAt(data, s)
  }

  // ---------------------------------------------------------------- properties of one next_token call

  /** A call returns None exactly when only whitespace is left from the current character on, and it
      never moves the cursor back or past the end. */
  lemma NextTokenNone(data: string, c: nat)
    requires c <= |data|
    ensures var r := NextTokenFrom(data, c);
      c <= r.next <= |data| && (r.token.None? <==> forall k :: Back(c) <= k < |data| ==> IsWhitespace(data[k]))
  {
    match LexemeFrom(data, c)
    case None =>
    case Some(s) => ScanAdvances(data, s);
  }

  /** One _readchar that succeeds: the character at the cursor becomes the current one; a newline moves to
      the next line and resets the column to 1, any other character adds one to the column. */
  lemma ReadStep(data: string, cursor: nat, position: nat, line: nat, column: nat, current: char)
    requires CursorState(data, cursor, position, line, column, current) && cursor < |data|
    ensures var c := data[cursor];
      CursorState(data, cursor + 1, cursor, if c == '\n' then line + 1 else line,
                  if c == '\n' then 1 else column + 1, c)
  {
    assert data[..cursor + 1] == data[..cursor] + [data[cursor]];
    Scanner.ReadOne(data[..cursor], data[cursor]);
  }

  /** A lexeme read at s leaves the cursor past s, and never past the end. */
  lemma ScanAdvances(data: string, s: nat)
    requires s < |data|
    ensures var r := ScanAt(data, s); r.token.Some? && s < r.next <= |data|
  {
  }

  /** A character that stalls the lexer when it is the current one, with following the character after it:
      a '/' that starts no comment, or a character that starts no token and is no identifier character,
      for which _read_identifier reads nothing. */
  predicate Stalls(current: char, following: Option<char>) {
    !IsWhitespace(current)
    && (if current == '/' then following != Some('/') && following != Some('*')
        else !IsPunctuation(current) && !IsIdentChar(current))
  }

  /** The character after the current one, as _nextchar returns it. */
  function Following(data: string, c: nat): Option<char>
    requires c <= |data|
  {
    if c < |data| then Some(data[c]) else None
  }

  /** A call leaves the cursor where it was exactly when it is already at the end, or when the current
      character stalls. Since the lexer's state is a function of its cursor, such a call that returns a
      token returns that same token forever after. */
  lemma {:induction false} NoProgress(data: string, c: nat)
    requires c <= |data|
    ensures var r := NextTokenFrom(data, c);
      r.next == c <==> c == |data| || (0 < c && Stalls(data[c - 1], Following(data, c)))
  {
    if c == |data| {
      NextTokenNone(data, c);
    } else if 0 < c && !IsWhitespace(data[c - 1]) {
      assert LexemeFrom(data, c) == Some(c - 1);
      ScanStalls(data, c - 1);
    } else {
      WhitespaceAdvances(data, c);
    }
  }

  /** From a whitespace current character, a call that does not stop at the end reads past the cursor. */
  lemma WhitespaceAdvances(data: string, c: nat)
    requires c < |data| && IsWhitespace(Current(data, c))
    ensures NextTokenFrom(data, c).next > c
  {
    match LexemeFrom(data, c)
    case None =>
    case Some(s) => ScanAdvances(data, s);
  }

  /** The lexeme at s is read without moving past s + 1 exactly when data[s] stalls or ends the file. */
  lemma ScanStalls(data: string, s: nat)
    requires s + 1 < |data| && !IsWhitespace(data[s])
    ensures ScanAt(data, s).next == s + 1 <==> Stalls(data[s], Some(data[s + 1]))
  {
    var c := data[s];
    if c == '/' {
      if data[s + 1] == '/' {
        assert LineComment(data, s).next >= s + 2;
      } else if data[s + 1] == '*' {
        assert BlockComment(data, s).next >= s + 2;
      }
    } else if !IsPunctuation(c) {
      var e := Scanner.RunEnd(data, s, IsIdentChar);
      assert e == s <==> !IsIdentChar(c);
    }
  }

  /** A file whose last character is not whitespace never lets the lexer finish: at the end of such a file
      every call returns a token and leaves the cursor at the end, so the loop of lex() never ends. */
  lemma EndsInToken(data: string)
    requires |data| > 0 && !IsWhitespace(data[|data| - 1])
    ensures var r := NextTokenFrom(data, |data|); r.token.Some? && r.next == |data|
  {
    NoProgress(data, |data|);
    NextTokenNone(data, |data|);
  }

  /** An operator or delimiter character other than '/' is a token of its own, stamped with the cursor
      just past it; on the split file, the character is row line-1 at offset column-2. */
  lemma ScanSingle(data: string, s: nat)
    requires s < |data| && data[s] != '/' && (Scanner.IsOperatorChar(data[s]) || Scanner.IsDelimiterChar(data[s]))
    ensures var r := ScanAt(data, s);
      r.next == Min(s + 2, |data|) && r.token.Some?
      && var t := r.token.value;
      t.tokenType == (if Scanner.IsOperatorChar(data[s]) then Operator(data[s]) else Delimiter(data[s]))
      && t.index == s + 1
      && var lines := Strs.Split(data, '\n');
      1 <= t.line <= |lines| && 2 <= t.column <= |lines[t.line - 1]| + 1 && lines[t.line - 1][t.column - 2] == data[s]
  {
    assert data[s] != '\n';
    Scanner.StampLocates("", data, s);
  }

  /** A word token is made of the word of identifier characters from s on, and its index is one past the
      word's end; the word stops at the first other character, or one short of the end of the file. The
      word is classified by WordToken, which WordTokenText shows gives it back. */
  lemma ScanWord(data: string, s: nat)
    requires s < |data| && !IsPunctuation(data[s])
    ensures var r := ScanAt(data, s);
      s < r.next <= |data| && var w := data[s..r.next - 1];
      r.token == Some(TokenAt(WordToken(w), data, r.next))
      && (forall i :: 0 <= i < |w| ==> IsIdentChar(w[i]))
      && (r.next < |data| ==> !IsIdentChar(data[r.next - 1]))
  {
    assert ScanAt(data, s) == Word(data, s);
    WordShape(data, s);
  }

  lemma WordShape(data: string, s: nat)
    requires s < |data|
    ensures var r := Word(data, s);
      s < r.next <= |data| && var w := data[s..r.next - 1];
      r.token == Some(TokenAt(WordToken(w), data, r.next))
      && (forall i :: 0 <= i < |w| ==> IsIdentChar(w[i]))
      && (r.next < |data| ==> !IsIdentChar(data[r.next - 1]))
  {
    var e := Scanner.RunEnd(data, s, IsIdentChar);
    var w := data[s..Min(e + 1, |data|) - 1];
    assert forall i :: 0 <= i < |w| ==> w[i] == data[s + i];
  }

  /** A line comment holds no newline, and a block comment holds no terminator. */
  lemma CommentText(data: string, s: nat)
    requires s + 1 < |data| && data[s] == '/' && (data[s + 1] == '/' || data[s + 1] == '*')
    ensures var r := ScanAt(data, s);
      r.token.Some? && r.token.value.tokenType.Comment?
      && var x := r.token.value.tokenType.comment;
      (data[s + 1] == '/' ==> forall i :: 0 <= i < |x| ==> x[i] != '\n')
      && (data[s + 1] == '*' ==> forall i :: 0 <= i && i + 1 < |x| ==> !(x[i] == '*' && x[i + 1] == '/'))
  {
    var p := Min(s + 2, |data| - 1);
    if data[s + 1] == '*' {
      var e := CloseOrLast(data, p);
      var x := data[p..e];
      forall i | 0 <= i && i + 1 < |x|
        ensures !(x[i] == '*' && x[i + 1] == '/')
      {
        match Scanner.CloseFrom(data, p)
        case Some(j) => assert !Scanner.ClosesAt(data, p + i);
        case None => assert !Scanner.ClosesAt(data, p + i);
      }
    }
  }

  /** "/**/" is an empty comment: the search for the terminator starts at the second '*'. */
  lemma EmptyBlockComment()
    ensures NextTokenFrom("/**/", 0) == Step(Some(TokenAt(Comment(""), "/**/", 3)), 4)
  {
    var data := "/**/";
    assert data[0] == '/' && data[1] == '*' && data[2] == '*' && data[3] == '/';
    assert Scanner.RunEnd(data, 0, IsWhitespace) == 0;
    assert LexemeFrom(data, 0) == Some(0);
    assert Scanner.CloseFrom(data, 2) == Some(2);
    assert data[2..2] == "";
  }

  /** A line comment that the end of the file closes loses its last character. */
  lemma LineCommentAtEnd()
    ensures NextTokenFrom("//ab", 0) == Step(Some(TokenAt(Comment("a"), "//ab", 4)), 4)
  {
    var data := "//ab";
    assert data[0] == '/' && data[1] == '/' && data[2] == 'a' && data[3] == 'b';
    assert Scanner.RunEnd(data, 0, IsWhitespace) == 0;
    assert LexemeFrom(data, 0) == Some(0);
    assert Scanner.RunEnd(data, 3, Scanner.IsNotNewline) == 4;
    assert Scanner.RunEnd(data, 2, Scanner.IsNotNewline) == 4;
    assert data[2..3] == "a";
  }
}
