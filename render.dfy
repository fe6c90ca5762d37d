/** ErrorPrint of error.go: renders an error as a window of the source lines around the error, with a caret
    row under the error's line and a message row after it. */
module Render {
  import opened Numerals
  import opened Strconv
  import opened Strs
  import opened Tokens
  import opened Parse

  /** The lexer's error value, as the renderer sees it: a line, a column and its Error() text. Its type is
      not part of this model beyond these. */
  datatype LexerError = LexerError(line: int, col: int, text: string) {
    function Error(): string { text }
  }

  /** The dynamic type ErrorPrint switches on: *LexerError, *ParserError, or any other error, of which only
      the Error() text matters. */
  datatype Failure = Lexing(lexing: LexerError) | Parsing(parsing: ParserError) | Other(text: string) {
    /** The line and column a lexer or parser error is reported at, and its Error() text. */
    function Line(): int
      requires !Other?
    {
      if Lexing? then lexing.line else parsing.position.line
    }

    function Col(): int
      requires !Other?
    {
      if Lexing? then lexing.col else parsing.position.col
    }

    function Message(): string
      requires !Other?
    {
      if Lexing? then lexing.Error() else parsing.Error()
    }
  }

  /** The failures ErrorPrint renders without a panic: a window index below zero would index lines[-1], a
      column below one would repeat a negative count, and the parser branch reads Tokens[Pos]. */
  predicate Renderable(f: Failure) {
    match f
    case Lexing(e) => e.line >= 2 && e.col >= 1
    case Parsing(e) => e.position.line >= 2 && e.position.col >= 1 && 0 <= e.pos < |e.tokens|
    case Other(_) => true
  }

  function Max(a: nat, b: nat): nat {
    if a < b then b else a
  }

  /** len(strconv.Itoa(i)). */
  function Width(i: int): nat {
    |Itoa(i)|
  }

  // ---------------------------------------------------------------- the gutter

  /** The widest index among the window rows i..line+2 that exist in n lines, or 0 when none exists. */
  function GutterFrom(n: nat, line: int, i: int): nat
    decreases line + 3 - i
  {
    if i > line + 2 then 0
    else if i < n then Max(Width(i), GutterFrom(n, line, i + 1))
    else GutterFrom(n, line, i + 1)
  }

  /** maxlineNumSize: measured on the index i of a row, not on the number i + 1 printed for it. */
  function Gutter(n: nat, line: int): nat {
    GutterFrom(n, line, line - 2)
  }

  /** An index of the window around line that names an existing line. */
  ghost predicate InWindow(n: nat, line: int, i: int) {
    line - 2 <= i <= line + 2 && i < n
  }

  lemma {:induction false} GutterFromIsMax(n: nat, line: int, i: int)
    requires line - 2 <= i
    ensures forall k :: i <= k && InWindow(n, line, k) ==> Width(k) <= GutterFrom(n, line, i)
    ensures GutterFrom(n, line, i) == 0 || exists k :: i <= k && InWindow(n, line, k) && Width(k) == GutterFrom(n, line, i)
    decreases line + 3 - i
  {
    if i <= line + 2 {
      GutterFromIsMax(n, line, i + 1);
      if i < n && Width(i) >= GutterFrom(n, line, i + 1) {
        assert InWindow(n, line, i);
      }
    }
  }

  /** The gutter is as wide as the widest index of an existing window row, and 0 when no row exists. */
  lemma GutterIsMax(n: nat, line: int)
    ensures forall k :: InWindow(n, line, k) ==> Width(k) <= Gutter(n, line)
    ensures (exists k :: InWindow(n, line, k) && Width(k) == Gutter(n, line))
            || (Gutter(n, line) == 0 && forall k :: !InWindow(n, line, k))
  {
    GutterFromIsMax(n, line, line - 2);
  }

  // ---------------------------------------------------------------- the rows

  /** The row printed for line index i: i + 1, padding up to the gutter, a bar and the line's text. */
  function SourceRow(lines: seq<string>, g: nat, i: nat): string
    requires i < |lines| && Width(i) <= g
  {
    Itoa(i + 1) + Repeat(' ', g - Width(i)) + "| " + lines[i]
  }

  /** The row under the error's line: the gutter's width of spaces, a bar, Col-1 spaces and the carets. */
  function CaretRow(g: nat, col: int, carets: nat): string
    requires col >= 1
  {
    Repeat(' ', g) + "| " + Repeat(' ', col - 1) + Repeat('^', carets)
  }

  /** The row holding the error's text. */
  function MessageRow(g: nat, message: string): string {
    Repeat(' ', g) + "| " + message
  }

  /** Every existing window row fits in the gutter g. */
  ghost predicate Fits(lines: seq<string>, line: int, g: nat) {
    forall k :: InWindow(|lines|, line, k) ==> Width(k) <= g
  }

  /** The rows appended from window index i on, in the order the loop appends them. */
  function RowsFrom(lines: seq<string>, line: int, col: int, g: nat, carets: nat, message: string, i: int): seq<string>
    requires line >= 2 && col >= 1 && line - 2 <= i && Fits(lines, line, g)
    decreases line + 3 - i
  {
    if i > line + 2 then []
    else
      (if i < |lines| then [SourceRow(lines, g, i)] else [])
      + (if i == line - 1 then [CaretRow(g, col, carets), MessageRow(g, message)] else [])
      + RowsFrom(lines, line, col, g, carets, message, i + 1)
  }

  /** linesToPrint for an error at line and col. */
  function Window(lines: seq<string>, line: int, col: int, carets: nat, message: string): seq<string>
    requires line >= 2 && col >= 1
  {
    GutterIsMax(|lines|, line);
    RowsFrom(lines, line, col, Gutter(|lines|, line), carets, message, line - 2)
  }

  /** How many carets the error gets: one for a lexer error; the byte length of the offending token's text,
      at least one, for a parser error. */
  function Carets(f: Failure): (r: nat)
    requires Renderable(f) && !f.Other?
    ensures r >= 1
    ensures f.Lexing? ==> r == 1
    ensures f.Parsing? ==> var v := f.parsing.tokens[f.parsing.pos].Value();
      if v == [] then r == 1 else r == ByteLen(v)
  {
    match f
    case Lexing(_) => 1
    case Parsing(e) => Max(ByteLen(e.tokens[e.pos].Value()), 1)
  }

  /** What ErrorPrint returns. */
  function Render(f: Failure, file: string): string
    requires Renderable(f)
  {
    if f.Other? then Join([f.text], '\n')
    else Join(Window(Split(file, '\n'), f.Line(), f.Col(), Carets(f), f.Message()), '\n')
  }

  // ---------------------------------------------------------------- what is printed

  /** The rows of the existing lines with index lo..hi, in order. */
  function SourceRows(lines: seq<string>, g: nat, lo: int, hi: int): seq<string>
    requires 0 <= lo && hi < |lines| && forall k :: lo <= k <= hi ==> Width(k) <= g
    decreases hi - lo
  {
    if lo > hi then [] else [SourceRow(lines, g, lo)] + SourceRows(lines, g, lo + 1, hi)
  }

  function Min(a: int, b: int): int {
    if a < b then a else b
  }

  lemma {:induction false} RowsAfter(lines: seq<string>, line: int, col: int, g: nat, carets: nat, message: string, i: int)
    requires line >= 2 && col >= 1 && line <= i && Fits(lines, line, g)
    ensures RowsFrom(lines, line, col, g, carets, message, i) == SourceRows(lines, g, i, Min(line + 2, |lines| - 1))
    decreases line + 3 - i
  {
    if i <= line + 2 {
      RowsAfter(lines, line, col, g, carets, message, i + 1);
      if i >= |lines| {
        assert SourceRows(lines, g, i + 1, Min(line + 2, |lines| - 1)) == [];
      }
    }
  }

  lemma {:induction false} RowsBefore(lines: seq<string>, line: int, col: int, g: nat, carets: nat, message: string, i: int)
    requires line >= 2 && col >= 1 && line - 2 <= i <= line - 1 && Fits(lines, line, g)
    ensures RowsFrom(lines, line, col, g, carets, message, i)
            == SourceRows(lines, g, i, Min(line - 1, |lines| - 1)) + [CaretRow(g, col, carets), MessageRow(g, message)]
               + RowsFrom(lines, line, col, g, carets, message, line)
    decreases line - i
  {
    var cm := [CaretRow(g, col, carets), MessageRow(g, message)];
    var tail := RowsFrom(lines, line, col, g, carets, message, line);
    var hi := Min(line - 1, |lines| - 1);
    var x: seq<string> := if i < |lines| then [SourceRow(lines, g, i)] else [];
    if i >= |lines| {
      AppendNothing<string>([]);
    }
    assert SourceRows(lines, g, i, hi) == x + SourceRows(lines, g, i + 1, hi);
    if i < line - 1 {
      RowsBefore(lines, line, col, g, carets, message, i + 1);
      Regroup5(x, [], SourceRows(lines, g, i + 1, hi), cm, tail);
    } else {
      AppendNothing(x);
      Regroup5(x, cm, [], cm, tail);
    }
  }


  /** The window is the existing lines among the line before the error's line and that line itself (the
      indices Line-2 and Line-1), then the caret row and the message row, then the existing lines among the
      three after it (the indices Line to Line+2): the rows are numbered from one but the window is counted
      on indices, so it leans one line forward. Every source row is padded to the gutter, the widest index
      of an existing window row. */
  lemma WindowLayout(lines: seq<string>, line: int, col: int, carets: nat, message: string)
    requires line >= 2 && col >= 1
    ensures var g := Gutter(|lines|, line);
      Fits(lines, line, g)
      && Window(lines, line, col, carets, message)
         == SourceRows(lines, g, line - 2, Min(line - 1, |lines| - 1))
            + [CaretRow(g, col, carets), MessageRow(g, message)]
            + SourceRows(lines, g, line, Min(line + 2, |lines| - 1))
  {
    GutterIsMax(|lines|, line);
    var g := Gutter(|lines|, line);
    RowsBefore(lines, line, col, g, carets, message, line - 2);
    RowsAfter(lines, line, col, g, carets, message, line);
  }

  /** The caret row starts its carets after the gutter, the bar and Col-1 spaces, and holds no other '^'. */
  lemma CaretRowShape(g: nat, col: int, carets: nat)
    requires col >= 1
    ensures var r, c := CaretRow(g, col, carets), g + col + 1;
      |r| == c + carets && (forall j :: 0 <= j < c ==> r[j] != '^') && (forall j :: c <= j < |r| ==> r[j] == '^')
  {
    var r := CaretRow(g, col, carets);
    var c := g + col + 1;
    var pre := Repeat(' ', g) + "| " + Repeat(' ', col - 1);
    assert r == pre + Repeat('^', carets);
    assert forall j :: 0 <= j < c ==> r[j] == pre[j];
  }

  /** The character at offset Col-1 of the error's line stands in its row Width(Line)-Width(Line-1) columns
      to the right of the first caret: the caret is under it only when the printed number Line has as many
      digits as the index Line-1 the gutter was measured on. */
  lemma CaretColumn(lines: seq<string>, g: nat, line: int, col: int, carets: nat)
    requires 1 <= line <= |lines| && 1 <= col <= |lines[line - 1]| && Width(line - 1) <= g
    ensures var src, c := SourceRow(lines, g, line - 1), g + col + 1;
      var shift := Width(line) - Width(line - 1);
      c + shift < |src| && src[c + shift] == lines[line - 1][col - 1]
  {
    var i := line - 1;
    var head := Itoa(i + 1) + Repeat(' ', g - Width(i)) + "| ";
    assert SourceRow(lines, g, i) == head + lines[i];
    assert |head| == Width(line) + g - Width(i) + 2;
  }

  /** The row for line 10 is one column out: 10 has two digits where the index 9 has one, so the first
      caret of an error at column Col stands under the character at offset Col-2 of line 10, not under
      the one at offset Col-1. */
  lemma CaretColumnAtTen(lines: seq<string>, g: nat, col: int, carets: nat)
    requires 10 <= |lines| && 2 <= col <= |lines[9]| && Width(9) <= g
    ensures var src, c := SourceRow(lines, g, 9), g + col + 1;
      c < |src| && src[c] == lines[9][col - 2]
  {
    assert NatToDecimal(10) == NatToDecimal(1) + ['0'];
    assert Width(10) - Width(9) == 1;
    CaretColumn(lines, g, 10, col - 1, carets);
  }

  // ---------------------------------------------------------------- ErrorPrint

  /** One round of the row loop: what it appends to before, followed by the rows after index i, are the rows
      from index i on. */
  lemma RowsStep(lines: seq<string>, line: int, col: int, g: nat, carets: nat, message: string, i: int,
                 before: seq<string>, middle: seq<string>, after: seq<string>)
    requires line >= 2 && col >= 1 && line - 2 <= i <= line + 2 && Fits(lines, line, g)
    requires middle == if i < |lines| then before + [SourceRow(lines, g, i)] else before
    requires after == if i == line - 1 then middle + [CaretRow(g, col, carets)] + [MessageRow(g, message)] else middle
    ensures after + RowsFrom(lines, line, col, g, carets, message, i + 1) == before + RowsFrom(lines, line, col, g, carets, message, i)
  {
    var x: seq<string> := if i < |lines| then [SourceRow(lines, g, i)] else [];
    var y: seq<string> := if i == line - 1 then [CaretRow(g, col, carets), MessageRow(g, message)] else [];
    if i >= |lines| {
      AppendNothing(before);
    }
    if i == line - 1 {
      AppendPair(middle, CaretRow(g, col, carets), MessageRow(g, message));
    } else {
      AppendNothing(middle);
    }
    Regroup(before, x, y, RowsFrom(lines, line, col, g, carets, message, i + 1));
  }

  lemma RowFits(lines: seq<string>, line: int, g: nat, i: int)
    requires Fits(lines, line, g) && line - 2 <= i <= line + 2 && 0 <= i < |lines|
    ensures Width(i) <= g
  {
    assert InWindow(|lines|, line, i);
  }

  lemma AppendPair<T>(a: seq<T>, x: T, y: T)
    ensures a + [x] + [y] == a + [x, y]
  {
  }

  lemma AppendNothing<T>(a: seq<T>)
    ensures a + [] == a
  {
  }

  lemma Regroup<T>(a: seq<T>, x: seq<T>, y: seq<T>, b: seq<T>)
    ensures (a + x + y) + b == a + (x + y + b)
  {
  }

  /** The regroupings RowsBefore needs: the row of index i joins the rows after it, or the caret and
      message rows follow it directly. */
  lemma Regroup5<T>(x: seq<T>, y: seq<T>, s: seq<T>, cm: seq<T>, tail: seq<T>)
    ensures y == [] ==> x + y + (s + cm + tail) == (x + s) + cm + tail
    ensures y == cm && s == [] ==> x + y + tail == (x + s) + cm + tail
  {
  }

  /** The first loop of a window: maxlineNumSize, the widest index among the existing window rows. */
  method GutterWidth(n: nat, line: int) returns (maxlineNumSize: nat)
    ensures maxlineNumSize == Gutter(n, line)
  {
    maxlineNumSize := 0;
    var i := line - 2;
    while i <= line + 2
      invariant line - 2 <= i <= line + 3
      invariant Max(maxlineNumSize, GutterFrom(n, line, i)) == Gutter(n, line)
    {
      if i < n {
        var lnsize := |Itoa(i)|;
        if lnsize > maxlineNumSize {
          maxlineNumSize := lnsize;
        }
      }
      i := i + 1;
    }
  }

  /** The rows of a window: the gutter is measured, then the second loop appends the rows. */
  method PrintWindow(lines: seq<string>, line: int, col: int, carets: nat, message: string) returns (linesToPrint: seq<string>)
    requires line >= 2 && col >= 1
    ensures linesToPrint == Window(lines, line, col, carets, message)
  {
    var maxlineNumSize := GutterWidth(|lines|, line);
    GutterIsMax(|lines|, line);
    assert Fits(lines, line, maxlineNumSize);
    linesToPrint := [];
    var i := line - 2;
    while i <= line + 2
      invariant line - 2 <= i <= line + 3 && Fits(lines, line, maxlineNumSize)
      invariant linesToPrint + RowsFrom(lines, line, col, maxlineNumSize, carets, message, i)
                == Window(lines, line, col, carets, message)
    {
      ghost var before := linesToPrint;
      if i < |lines| {
        RowFits(lines, line, maxlineNumSize, i);
        linesToPrint := linesToPrint + [SourceRow(lines, maxlineNumSize, i)];
      }
      ghost var middle := linesToPrint;
      if i == line - 1 {
        linesToPrint := linesToPrint + [CaretRow(maxlineNumSize, col, carets)];
        linesToPrint := linesToPrint + [MessageRow(maxlineNumSize, message)];
      }
      RowsStep(lines, line, col, maxlineNumSize, carets, message, i, before, middle, linesToPrint);
      i := i + 1;
    }
  }

  /** ErrorPrint: the window for a lexer or parser error, the error's own text for any other error. */
  method ErrorPrint(err: Failure, file: string) returns (r: string)
    requires Renderable(err)
    ensures r == Render(err, file)
  {
    var lines := Split(file, '\n');
    var linesToPrint: seq<string> := [];
    match err {
      case Lexing(e) =>
        linesToPrint := PrintWindow(lines, e.line, e.col, 1, e.Error());
      case Parsing(e) =>
        var size := ByteLen(e.tokens[e.pos].Value());
        if size <= 0 {
          size := 1;
        }
        linesToPrint := PrintWindow(lines, e.position.line, e.position.col, size, e.Error());
      case Other(text) =>
        linesToPrint := linesToPrint + [text];
    }
    r := Join(linesToPrint, '\n');
  }

  // ---------------------------------------------------------------- properties of the output

  /** Any other error prints as exactly its own text. */
  lemma RenderOther(text: string, file: string)
    ensures Render(Other(text), file) == text
  {
  }
}
