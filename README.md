# protodecl front end in Dafny

This project models the front end of protodecl, a declaration language for binary packet formats. The model covers two snapshots of the front end.

**The Go snapshot**
- The token model (`token/token.go`): kinds, positions and the `String` renderings.
- The syntax-tree types (`ast/ast.go`).
- The lexer (`lex.go`): a cursor over the file's runes that yields one token per `NextToken` call.
- The recursive-descent parser (`parse.go`): it walks a token slice with an index and collects `enum` declarations.
- The diagnostic renderer `ErrorPrint` (`error.go`): it prints a window of source lines with a caret row and the error's text.

**The Rust snapshot** (`src/main.rs`)
- A second lexer with the same cursor design.
- The `_parse_number` pass, which turns identifiers spelling numbers into `Number` tokens.

## How the model is built

Each stateful unit of the source is a Dafny class with the source's fields, and its methods change those fields in place:
- the Go `Lexer` (`Lex.Lexer`);
- the Go `Parser` (`Parse.Parser`);
- the Rust `Lexer` (`RustLexer.Lexer`).

Every method is proved against a pure function that states what one call does, measured from the index where the call starts:
- `Scanner.Scan` for the Go lexer;
- `RustScan.NextTokenFrom` for the Rust lexer;
- `Parse.NumberAt`, `EnumAt`, `TypeAt` and `ParseFrom` for the parser.

The properties are then proved about those functions. The renderer's loops are methods proved equal to `Render.Window`. `_parse_number` is a method proved equal to `RustNumbers.ParseNumbers`. Token kinds, positions and tree nodes are datatypes.

### Lexer state

Both lexers keep line and column counts as they read. The model ties these fields to the text read so far:
- the line is one more than the number of newlines read;
- the column is one more than the number of characters since the last newline.

Through these counts, a token's stamped position locates its character in the lines that `ErrorPrint` splits the file into.

### Behaviour kept as the source has it

Go lexer:
- `readIdentifier` slices up to `Position`, and a read past the end does not move `Position`. So a word that runs to the end of the file loses its last character (`Scanner.ScanWordAtEnd`).
- The block-comment loop reads a character before it tests for `*/`. So the character right after `/*` never starts the terminator, and `/**/ */` is one comment (`Scanner.ScanSkipsFirstCloser`).
- `=` is lexed as an `Operator`, and no `Number` token is ever produced. The parser wants a `Delimiter` `=` and a `Number`, so it is modelled over any token slice, not only over the lexer's output.
- A character in no class gives an empty `Identifier` and reads nothing.

Go parser:
- The loop in `Parse` does not advance at the top level on an `EOF`, `Boolean`, `Operator` or `Delimiter` token. The model reports this outcome as `Spins`.
- Where the Go code would index past the end of the slice, the model says `Crash`, and the methods require that no crash happens.
- `lenCheck` is always true wherever it is evaluated.
- `parseEnum` stamps the node with the position of the closing `}`.
- The header messages of `parseEnum` ("expected identifier", "expected type", "expected '{'") render the `enum` token, not the token that failed (parse.go:121, 137 and 146; `Parse.HeaderAt`).

Go error printing:
- The window is lopsided. Its loops run `i` from Line-2 to Line+2 over 0-based indices. So it prints one line before the error's line and three after it, where two and two were evidently meant (`Render.WindowLayout`).
- The gutter is measured on the 0-based index but the 1-based number is printed. So from line 10 on, the caret can stand one column left of the error (`Render.CaretColumnAtTen`).
- Every lexer or parser error on line 1 makes `ErrorPrint` panic. At `i = Line-2 = -1` the test `i < len(lines)` passes, and `lines[-1]` is indexed (error.go:27-28). `Render.Renderable` excludes such errors.

Rust lexer:
- A `/` that starts no comment gives `Operator('/')` but is never consumed. A character that starts no token and is no identifier character is not consumed either. In both cases every later call returns the same token (`RustScan.NoProgress`).
- The loop of `lex()` ends only when the file is empty or ends in whitespace (`RustScan.EndsInToken`).
- A word at the end of the file loses its last character, as in the Go lexer.
- A line comment that the end of the file closes also loses its last character (`RustScan.LineCommentAtEnd`).
- `/**/` is an empty comment (`RustScan.EmptyBlockComment`).

Rust `_parse_number`:
- `u64::from_str_radix` accepts one leading `+`. So `0x+ff` is the number 255 (`RustStd.FromStrRadixSign`).
- An empty identifier is dropped.

Go's `strconv` and `strings` functions and Rust's `u64::from_str_radix` are modelled in `Strconv`, `Strs` and `RustStd`, to the extent that the front end uses them.

## Model

| member | source | states |
|---|---|---|
| Strconv.ItoaRoundTrip | token/token.go:27-29 | the decimal text `%d` prints for an int, sign included, reads back to that int |
| Strconv.ItoaInjective | token/token.go:27-29 | two different ints never print as the same text |
| Strconv.ParseUint | parse.go:97 | `ParseUint(s, 10, 64)` succeeds exactly when s is a nonempty run of decimal digits whose value is below 2^64, and then returns that value; a failure records "ParseUint" and the input, and is a range error exactly when some prefix of digits already overflows |
| Strconv.QuoteRoundTrip | token/token.go:64-66 | unquoting the output of `strconv.Quote` gives the text back |
| Strconv.QuoteInjective | token/token.go:64-66 | different texts quote differently |
| Strs.Split | error.go:10 | `strings.Split` gives at least one line, and no line holds the separator |
| Strs.JoinSplit | error.go:65 | joining the split lines with "\n" again gives the file back |
| Strs.SplitLength | error.go:10 | a file with n newlines splits into n + 1 lines |
| Strs.Repeat | error.go:31 | `strings.Repeat` of a one-character string gives exactly n copies of that character |
| Strs.ByteLen | error.go:38 | `len` of a string counts between one and four bytes per character, and is zero only for the empty string |
| Tokens.KindName | token/token.go:41-62 | `TType.String` is "Unknown" exactly for the values above `EOF` = 7, and no name holds '<' |
| Tokens.KindNameRoundTrip | token/token.go:10-19 | the consecutive kinds 0..7 each have their own name, which reads back to the kind, and every other value reads back to none |
| Tokens.NewToken | token/token.go:72-80 | the token's kind, text and position are exactly the arguments |
| Tokens.PositionStringInjective | token/token.go:27-29 | `File:Line:Col` determines the position, even when the file name holds ':' |
| Tokens.TokenTypeStringInjective | token/token.go:64-66 | for the eight real kinds, `Kind<"quoted text">` determines the kind and the text |
| Tokens.TokenStringIgnoresPosition | token/token.go:68-70 | two tokens render alike exactly when their kind and text agree, whatever their positions |
| Scanner.IdentifierKind | lex.go:159-175 | a word is a `Keyword` exactly when it is in the keyword list, "true" and "false" included, and otherwise an `Identifier`; never a `Boolean` |
| Scanner.ReadOne | lex.go:58-65 | reading a newline adds one to Line and sets Col to 1; reading any other character adds one to Col |
| Scanner.StampLocates | lex.go:58-65 | the Line and Col stamped after reading a character locate it in the split file: row Line-1, offset Col-2 |
| Scanner.Scan | lex.go:97-178 | one `NextToken` call always reads past the lexeme's first character and never past one read beyond the end |
| Scanner.ScanSingle | lex.go:149-156 | an operator or delimiter character gives a one-character token of that kind, stamped where the character stands, and exactly that character is consumed |
| Scanner.ScanLineComment | lex.go:104-122 | after "//" the call succeeds exactly when a newline follows; the comment is the text strictly between "//" and that newline, and reading stops past the newline; otherwise the call gives an EOF token and io.EOF |
| Scanner.ScanLineClosed | lex.go:114-122 | "//" closed by the newline at q gives the comment between them, stamped past the newline |
| Scanner.ScanLineOpen | lex.go:115-118 | "//" with no newline after it gives an EOF token stamped at the end of the file, with io.EOF |
| Scanner.ScanBlockComment | lex.go:123-143 | after "/*" the call succeeds exactly when a "*/" starts at least one character later; the comment holds at least the character after "/*" and runs up to the first "*/" that starts after that character, so no "*/" starts inside it from that character on |
| Scanner.ScanBlockShort | lex.go:124-126 | "/*" with fewer than two characters after it gives an EOF token and io.EOF |
| Scanner.ScanBlockOpen | lex.go:128-135 | "/*" with no terminator after it gives an EOF token and io.EOF, the file read to its end |
| Scanner.ScanBlockClosed | lex.go:127-143 | "/*" whose first terminator one character on is at q gives the comment between them, and reading stops past "*/" |
| Scanner.ScanSkipsFirstCloser | lex.go:128-139 | the "*/" that starts right after "/*" does not close the comment: "/**/ */" is one comment |
| Scanner.ScanWord | lex.go:158-175 | any other character starts a word: the run of letters, digits and '_' from it, less its last character when the run reaches the end of the file; the word is a Keyword exactly when it is in the list |
| Scanner.ScanWordAtEnd | lex.go:80-88 | "enum" at the very end of a file is read as the identifier "enu" |
| Lex.Lexer.constructor | lex.go:24-37 | the lexer starts at line 1, column 1, with current character '\n', and has read the first character |
| Lex.Lexer.NewToken | lex.go:39-48 | the token holds the given kind and text, stamped with the line and column that count what has been read |
| Lex.Lexer.ReadChar | lex.go:50-68 | a read at the end returns false, sets the current character to '\n', records an EOF token as LastToken and leaves Cursor, Position, Line and Col as they were; otherwise Position becomes the old Cursor, Cursor goes up by one and the newline rule updates Line and Col |
| Lex.Lexer.SkipWhitespace | lex.go:70-78 | reads past the run of space, tab, '\n' and '\r' from the current character, and returns false exactly when the file runs out first |
| Lex.Lexer.ReadIdentifier | lex.go:80-88 | returns "" and changes nothing when the current character is no letter, digit or '_'; otherwise returns the run of such characters from it, less the last one when the run reaches the end |
| Lex.Lexer.NextChar | lex.go:90-95 | returns the character at Cursor and true, or '\n' and false at the end |
| Lex.Lexer.LineComment | lex.go:110-122 | the "//" branch does what `Scan` says from the first '/' |
| Lex.Lexer.BlockComment | lex.go:123-143 | the "/*" branch does what `Scan` says from the '/' |
| Lex.Lexer.Slash | lex.go:104-148 | the '/' branch does what `Scan` says, including the EOF token for a '/' that ends the file and `Operator "/"` otherwise |
| Lex.Lexer.Single | lex.go:149-156 | the operator and delimiter branches do what `Scan` says |
| Lex.Lexer.Word | lex.go:158-175 | the word branch does what `Scan` says |
| Lex.Lexer.NextToken | lex.go:97-178 | one call skips whitespace and returns the token and status `Scan` gives from where the lexeme starts, having read exactly as far as `Scan` says; with only whitespace left it returns the zero token and io.EOF |
| Parse.NewParserError | parse.go:49-56 | the error records the token slice, the index and the position of the token at that index |
| Parse.ErrorEndsWithMessage | parse.go:45-47 | `Error()` is the position as `File:Line:Col`, then ": " and the message, which is the end of the text |
| Parse.SkipCommentsFrom | parse.go:31-35 | skipComments stops at the first token from the index that is not a comment, or at the end, never beyond it |
| Parse.SkippedAreComments | parse.go:31-35 | every token skipComments passes over is a comment |
| Parse.NumberAt | parse.go:95-107 | parseNumber succeeds exactly when the token's text is a decimal number below 2^64, gives its value at the token's position and advances by one; otherwise it returns the conversion error unwrapped and does not move |
| Parse.EntryAt | parse.go:163-183 | one entry starting at an identifier key succeeds only past it, with that key; its errors lie after the key and it crashes only at the end of the slice |
| Parse.ValuesAt | parse.go:152-187 | the entry loop, when it succeeds, ends just past a closing "}" |
| Parse.HeaderAt | parse.go:111-148 | the part of parseEnum after "enum" (name, type and "{") succeeds past its start, fails inside the slice and crashes only at its end |
| Parse.EnumAt | parse.go:109-195 | a parsed enum ends just past its closing "}", and reports that brace's position through `Pos()` (ast/ast.go:30-32) |
| Parse.TypeAt | parse.go:197-211 | parseType succeeds only at the keyword "enum" after the comments, and then is parseEnum there |
| Parse.TypeShape | parse.go:197-209 | by the first non-comment token: past the end of the slice the index is out of range; a non-keyword fails there with "expected keyword but got" and the token; "enum" is parseEnum there, whatever that returns; any other keyword, "packet" and "protocol" included, fails there with "unexpected keyword" and the token |
| Parse.ParseFrom | parse.go:66-93 | the loop ends at the end of the slice when it finishes or crashes; it spins only at a token that is not a Number, Identifier, Keyword or Comment; it collects only enum declarations |
| Parse.EntryShape | parse.go:163-183 | an entry succeeds exactly when, comments aside, "=" and a number token follow the key, and then gives the key with that number |
| Parse.EnumShape | parse.go:109-195 | parseEnum succeeds exactly when the token is "enum" and the header and the entry loop succeed, and the node holds the name, an IdentifierType of the type's text and the values in order |
| Parse.ParseDeclStep | parse.go:78-85 | at "enum", "packet" or "protocol" the loop runs parseType: its node is appended in front of the rest, and its error ends the run |
| Parse.ParseStopStep | parse.go:73-89 | the loop stops at a Number, an Identifier or any other keyword with the matching error at that index, and spins at every other kind of token |
| Parse.EntrySound | parse.go:163-183 | what one round of the entry loop reads is one `Key = Number` entry, comments aside |
| Parse.EntryComplete | parse.go:152-187 | an entry in front of entries and a closing brace is read by one round of the loop |
| Parse.ValuesSound | parse.go:152-187 | what the entry loop reads is the entries and the closing brace, comments aside |
| Parse.ValuesComplete | parse.go:152-187 | entries and a closing brace, with comments anywhere between, are read by the entry loop, which stops just past the brace |
| Parse.HeaderSound | parse.go:111-148 | what the header part reads is `enum Name Type {`, comments aside |
| Parse.HeaderComplete | parse.go:111-148 | an enum header at the head of the tokens is read by the header part |
| Parse.EnumSound | parse.go:109-195 | what parseEnum reads is one enum declaration, comments aside |
| Parse.EnumComplete | parse.go:109-195 | every enum declaration, with comments anywhere inside it, is read by parseEnum |
| Parse.ParseSound | parse.go:66-93 | a run that finishes has read exactly a sequence of enum declarations, comments aside, and returns their nodes in order |
| Parse.ParseComplete | parse.go:66-93 | every sequence of enum declarations is read to the end, with its nodes in order, unless the slice ends in a comment |
| Parse.FinishedEndsWithBrace | parse.go:66-93 | only a slice that ends with the delimiter "}" is parsed to completion, so one ending in an EOF token never is |
| Parse.Parser.constructor | parse.go:19-25 | the parser starts at index 0 with an empty tree |
| Parse.Parser.SkipComments | parse.go:31-35 | moves the index to where `SkipCommentsFrom` says |
| Parse.Parser.Error | parse.go:58-60 | the error is at the current index, with that token's position |
| Parse.Parser.LenCheck | parse.go:62-64 | is true wherever it can be evaluated without a panic |
| Parse.Parser.ParseNumber | parse.go:95-107 | returns what `NumberAt` says, and leaves the index where it says |
| Parse.Parser.ParseHeader | parse.go:111-148 | returns what `HeaderAt` says, and leaves the index where it says |
| Parse.Parser.ParseEntry | parse.go:163-183 | returns what `EntryAt` says, and leaves the index where it says |
| Parse.Parser.ParseEntries | parse.go:150-187 | returns what `ValuesAt` says, and leaves the index where it says |
| Parse.Parser.ParseEnum | parse.go:109-195 | returns what `EnumAt` says, and leaves the index where it says; a parsed enum reports the position of its closing brace through `Pos()` |
| Parse.Parser.ParseType | parse.go:197-211 | returns what `TypeAt` says, and leaves the index where it says |
| Parse.Parser.Parse | parse.go:66-93 | sets the tree to the file name and the nodes `ParseFrom` collects, ends as `ParseFrom` says and leaves the index where it stops |
| Render.GutterIsMax | error.go:16-24 | the gutter is the widest index (not line number) among the window rows that exist, and 0 when none exists |
| Render.GutterWidth | error.go:42-50 | the first loop computes that gutter |
| Render.Carets | error.go:38-41 | a lexer error gets one caret; a parser error gets the byte length of the offending token's text, at least one |
| Render.WindowLayout | error.go:26-34 | the window is the existing lines at indices Line-2 and Line-1 (the line before the error's line, and that line itself), then the caret row and the message row, then the existing lines at indices Line to Line+2 (the three lines after it); each source row is padded to the gutter |
| Render.CaretRowShape | error.go:56-57 | the caret row is gutter spaces, "| ", Col-1 spaces and then only carets |
| Render.CaretColumn | error.go:28-31 | the error's character stands Width(Line)-Width(Line-1) columns to the right of the first caret, so the caret sits under it only when the printed number and the measured index have as many digits |
| Render.CaretColumnAtTen | error.go:19-28 | for an error on line 10, the first caret stands under the character at offset Col-2 of that line, one column left of the error's character |
| Render.PrintWindow | error.go:52-60 | the two loops produce exactly the window `Window` describes |
| Render.ErrorPrint | error.go:9-66 | returns the window joined with "\n" for a lexer or parser error, and the error's own text for any other error |
| Render.RenderOther | error.go:61-62 | any other error prints as exactly its own text |
| RustStd.FromStrRadix | src/main.rs:63-66 | `u64::from_str_radix` fails with Empty exactly on "", succeeds exactly when the digits after an optional '+' are all digits of the radix with a value below 2^64, and then returns that value; it fails with PosOverflow exactly when a prefix of digits overflows first |
| RustStd.FromStrRadixDecimal | src/main.rs:89-93 | the decimal text of a u64 reads back to it |
| RustStd.FromStrRadixSign | src/main.rs:62-66 | one leading '+' changes nothing, and a leading '-' is an invalid digit |
| RustScan.WordTokenText | src/main.rs:272-292 | a word becomes a Keyword exactly when it is in the list, a Boolean exactly when it is "true" or "false", and otherwise an Identifier, and the token gives the word back |
| RustScan.LexemeFrom | src/main.rs:183-190 | whitespace skipping finds nothing exactly when only whitespace is left from the current character on, and otherwise finds the first other character |
| RustScan.NextTokenNone | src/main.rs:209-212 | next_token returns None exactly when only whitespace is left, and never moves the cursor back or past the end |
| RustScan.ReadStep | src/main.rs:165-181 | a read that succeeds makes the character at the cursor current and advances the cursor; a newline moves to the next line and resets the column to 1 |
| RustScan.ScanAdvances | src/main.rs:217-295 | reading a lexeme always returns a token and never moves the cursor past the end |
| RustScan.NoProgress | src/main.rs:254-256 | a call leaves the cursor where it was exactly at the end of the file, or when the current character is a '/' that starts no comment or a character that starts no token and no word |
| RustScan.ScanStalls | src/main.rs:192-200 | a lexeme that does not end the file is read without moving past its first character exactly when that character stalls |
| RustScan.EndsInToken | src/main.rs:40-52 | at the end of a file whose last character is not whitespace, every call returns a token and stays at the end, so lex() never returns |
| RustScan.ScanSingle | src/main.rs:259-267 | an operator or delimiter character other than '/' gives its token with the cursor just past it, and the stamped line and column locate it in the split file |
| RustScan.ScanWord | src/main.rs:269-294 | a word token is made of the run of identifier characters from the lexeme on, ends at the first other character or one short of the end of the file, and is classified as `WordToken` says |
| RustScan.CommentText | src/main.rs:219-253 | a line comment holds no newline and a block comment holds no "*/" |
| RustScan.EmptyBlockComment | src/main.rs:236-253 | "/**/" is the empty comment |
| RustScan.LineCommentAtEnd | src/main.rs:219-235 | "//ab" at the end of the file gives the comment "a" |
| RustLexer.Lexer.constructor | src/main.rs:140-153 | the lexer starts before any read and reads the first character; an empty file records the EOF token |
| RustLexer.Lexer.NewToken | src/main.rs:156-163 | the token is stamped with the line and column that count what has been read, and the cursor |
| RustLexer.Lexer.ReadChar | src/main.rs:165-181 | a read at the end returns false, records the EOF token as last_token and changes nothing else; otherwise the cursor goes up by one and the newline rule updates line and column |
| RustLexer.Lexer.SkipWhitespace | src/main.rs:183-190 | stops on the character `LexemeFrom` finds, or fails at the end with the EOF token as last_token |
| RustLexer.Lexer.ReadIdentifier | src/main.rs:192-200 | returns the run of identifier characters from the current one, less the last one when the run reaches the end of the file |
| RustLexer.Lexer.NextChar | src/main.rs:202-207 | returns the character at the cursor, or None at the end |
| RustLexer.Lexer.ReadLineComment | src/main.rs:219-235 | the "//" branch returns the token and leaves the cursor where `LineComment` says |
| RustLexer.Lexer.ReadBlockComment | src/main.rs:236-253 | the "/*" branch returns the token and leaves the cursor where `BlockComment` says |
| RustLexer.Lexer.ReadSlash | src/main.rs:218-257 | the '/' branch does what `ScanAt` says |
| RustLexer.Lexer.ReadSingle | src/main.rs:259-267 | the operator and delimiter branches do what `ScanAt` says |
| RustLexer.Lexer.ReadWord | src/main.rs:269-294 | the word branch does what `ScanAt` says |
| RustLexer.Lexer.NextToken | src/main.rs:209-307 | one call returns the token and leaves the cursor as `NextTokenFrom` says, and last_token is that token, or the EOF token when None is returned |
| RustNumbers.ParseNumber | src/main.rs:57-119 | the loop returns what `ParseNumbers` says of the whole token list |
| RustNumbers.ConvertKeepsPlace | src/main.rs:67-106 | a converted token keeps its line, column and index, and only the empty identifier is dropped |
| RustNumbers.ConvertFails | src/main.rs:60-116 | only a nonempty identifier can fail, and it fails exactly when from_str_radix fails on the text its prefix selects |
| RustNumbers.ConvertHex | src/main.rs:62-72 | "0x" and hexadecimal digits below 2^64 become the Number of their value |
| RustNumbers.ConvertBinary | src/main.rs:73-83 | "0b" and binary digits below 2^64 become the Number of their value, at the identifier's line, column and index |
| RustNumbers.ConvertDecimal | src/main.rs:84-99 | the decimal text of a u64 becomes the Number of that value |
| RustNumbers.ConvertDecimalDigits | src/main.rs:84-99 | any decimal digits below 2^64, leading zeros included, become the Number of their value, at the identifier's line, column and index |
| RustNumbers.ParseNumbersLength | src/main.rs:108-110 | on success, the output is as long as the input less the empty identifiers |
| RustNumbers.ParseNumbersFailure | src/main.rs:57-119 | the pass fails exactly when some token's conversion fails, and then with the error of the first such token |
| RustNumbers.ParseNumbersIdentity | src/main.rs:113-115 | a list with no identifiers comes back unchanged |
| RustNumbers.ParseNumbersIdentifiers | src/main.rs:84-110 | no identifier in the output is empty or starts with a decimal digit |

## Left out

- `main.go` and `parser/mod.go` are left out. They resolve file paths, read files, marshal JSON, print and exit: all I/O.
- `compile/compile.go` is left out. It is a stub that only logs.
- Rust `main` and `lex()` are left out. They read the file and print, or only loop over `next_token` and `_parse_number`. `RustScan.EndsInToken` states when the loop of `lex()` cannot end.
- The file read in `Lexer::new` is left out. The constructor takes the file's characters.
- The debug `fmt.Printf` in `NextToken` (lex.go:102) is left out. It is output only.
- Scanner.ScanWord: `unicode.IsLetter` and `unicode.IsDigit` are restricted to ASCII letters and digits.
- Lex.Lexer.ReadIdentifier: the same ASCII restriction of `unicode.IsLetter` and `unicode.IsDigit`.
- Lex.Lexer.Word: the same ASCII restriction, through `ReadIdentifier`.
- RustScan.ScanWord: `char::is_alphanumeric` is restricted to ASCII letters and digits. `char::is_whitespace` is modelled exactly, as the Unicode White_Space list.
- RustLexer.Lexer.ReadIdentifier: the same ASCII restriction of `char::is_alphanumeric`.
- RustLexer.Lexer.ReadWord: the same ASCII restriction, through `ReadIdentifier`.
- Strconv.QuoteRoundTrip: `strconv.Quote` is exact for ASCII. Every other character is treated as printable and copied unescaped, while Go escapes the ones Unicode calls non-printable.
- Integer widths are not modelled:
  - Go's `int` line, column and index, and Rust's `usize` fields, are unbounded integers. A file would need more than 2^63 characters to overflow them.
  - `uint64` and `u64` values are bounded explicitly, below 2^64.
- Go runtime panics are preconditions, not modelled behaviour:
  - `Parse.Parser.Parse` and the other parser methods require that the run does not index past the end of the token slice. The pure functions still report such a run as `Crash`.
  - `Render.ErrorPrint` requires a line of at least 2 and a column of at least 1. It also requires that a parser error's index lie inside its slice.
- Parse.Parser.Parse: where the Go loop would run forever without moving, the method returns `Spins`.
- The lexer's error type is not part of this model. `error.go` uses its `Line`, `Col` and `Error()`, and `Render.LexerError` holds just those.
- `ast.IdentifierType`, `ast.NumberLiteralType` and the tree's `Nodes` field are used by `parse.go` but declared nowhere in `ast/ast.go`, whose `Tree` has a `Root` field instead. The model declares them with the fields the parser sets.
- `PacketType`, `ProtocolType` and `PacketField` are declared in the model, but no parser code builds them.
- Rust `next_token` sets last_token to None when it returns None. That branch is unreachable, because every branch of the match produces a token.
