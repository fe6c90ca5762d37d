/** The language the parser accepts, stated without token indices: the non-comment tokens of a slice as a
    list, and the shapes of an entry, an enum declaration and a sequence of declarations in that list. */
module Grammar {
  import opened Numerals
  import opened Tokens
  import opened Ast

  /** A delimiter token with the given text. */
  predicate IsDelim(t: Token, v: string) {
    t.Type() == Delimiter && t.Value() == v
  }

  /** A keyword token with the given text. */
  predicate IsKeyword(t: Token, v: string) {
    t.Type() == Keyword && t.Value() == v
  }

  /** A token whose text ParseUint(_, 10, 64) accepts: a nonempty run of decimal digits below 2^64. */
  predicate IsNumberToken(t: Token) {
    |t.Value()| > 0 && AllDigits(t.Value(), 10) && DigitsValue(t.Value(), 10) < U64Limit
  }

  /** The node parseNumber makes of a number token. */
  function NumberNode(t: Token): Node
    requires IsNumberToken(t)
  {
    NumberLiteralType(t.position, DigitsValue(t.Value(), 10))
  }

  /** A singly linked list: the comment-free view of a token slice. */
  datatype List<T> = Nil | Cons(head: T, tail: List<T>)

  /** The list with its first n elements removed (all of them, if it is shorter). */
  function Drop<T>(l: List<T>, n: nat): List<T>
    decreases n
  {
    if n == 0 || l.Nil? then l else Drop(l.tail, n - 1)
  }

  /** The tokens of ts[a:] that are not comments, in order. */
  function NonComments(ts: seq<Token>, a: nat): (r: List<Token>)
    requires a <= |ts|
    ensures a == |ts| ==> r == Nil
    decreases |ts| - a
  {
    if a == |ts| then Nil
    else if ts[a].Type() == Comment then NonComments(ts, a + 1)
    else Cons(ts[a], NonComments(ts, a + 1))
  }

  /** When the last token is not a comment, every suffix holds a non-comment. */
  lemma {:induction false} EndsInNonComment(ts: seq<Token>, p: nat)
    requires p < |ts| && ts[|ts| - 1].Type() != Comment
    ensures NonComments(ts, p).Cons?
    decreases |ts| - p
  {
    if ts[p].Type() == Comment {
      EndsInNonComment(ts, p + 1);
    }
  }

  /** Dropping past three leading elements. */
  lemma DropThree<T>(l: List<T>, n: nat)
    requires l.Cons? && l.tail.Cons? && l.tail.tail.Cons?
    ensures Drop(l, n + 3) == Drop(l.tail.tail.tail, n)
  {
    assert Drop(l, n + 3) == Drop(l.tail, n + 2);
    assert Drop(l.tail, n + 2) == Drop(l.tail.tail, n + 1);
  }

  /** One entry `Key = Number` and the value parseEnum makes of it. */
  predicate IsEntry(key: Token, eq: Token, num: Token, v: EnumerationValue) {
    key.Type() == Identifier && key.Value() == v.key && IsDelim(eq, "=") && IsNumberToken(num) && v.value == NumberNode(num)
  }

  /** The list is the entries, then the closing "}" at position close, then rest. */
  predicate EntriesThenClose(l: List<Token>, values: seq<EnumerationValue>, close: Position, rest: List<Token>)
    decreases |values|
  {
    if values == [] then l.Cons? && IsDelim(l.head, "}") && l.head.position == close && l.tail == rest
    else
      l.Cons? && l.tail.Cons? && l.tail.tail.Cons? && IsEntry(l.head, l.tail.head, l.tail.tail.head, values[0])
      && EntriesThenClose(l.tail.tail.tail, values[1..], close, rest)
  }

  /** An entry in front of entries and the closing brace. */
  lemma EntriesCons(l: List<Token>, v: EnumerationValue, values: seq<EnumerationValue>, close: Position, rest: List<Token>)
    requires l.Cons? && l.tail.Cons? && l.tail.tail.Cons? && IsEntry(l.head, l.tail.head, l.tail.tail.head, v)
    requires EntriesThenClose(l.tail.tail.tail, values, close, rest)
    ensures EntriesThenClose(l, [v] + values, close, rest)
  {
    assert ([v] + values)[1..] == values;
  }

  /** Entries and the closing brace take one token and three more per entry. */
  lemma {:induction false} EntriesDrop(l: List<Token>, values: seq<EnumerationValue>, close: Position, rest: List<Token>)
    requires EntriesThenClose(l, values, close, rest)
    ensures Drop(l, 1 + 3 * |values|) == rest
    decreases |values|
  {
    if values != [] {
      EntriesDrop(l.tail.tail.tail, values[1..], close, rest);
      DropThree(l, 1 + 3 * |values[1..]|);
    }
  }

  /** The header `enum Name Type {` of a declaration of the given name and return type. */
  predicate IsHeader(kw: Token, id: Token, ty: Token, brace: Token, name: string, returnType: Node) {
    IsKeyword(kw, "enum") && id.Type() == Identifier && id.Value() == name
    && (ty.Type() == Keyword || ty.Type() == Identifier) && returnType == IdentifierType(ty.Value())
    && IsDelim(brace, "{")
  }

  /** The list is an enum declaration `enum Name Type { entries }` that node stands for, stamped with the
      position of its closing "}", then rest. */
  predicate EnumDecl(l: List<Token>, node: Node, rest: List<Token>) {
    node.EnumerationType? && l.Cons? && l.tail.Cons? && l.tail.tail.Cons? && l.tail.tail.tail.Cons?
    && IsHeader(l.head, l.tail.head, l.tail.tail.head, l.tail.tail.tail.head, node.name, node.returnType)
    && EntriesThenClose(l.tail.tail.tail.tail, node.values, node.position, rest)
  }

  /** A declaration takes five tokens and three more per entry. */
  function DeclLength(node: Node): nat
    requires node.EnumerationType?
  {
    5 + 3 * |node.values|
  }

  lemma {:induction false} DeclDrop(l: List<Token>, node: Node, rest: List<Token>)
    requires EnumDecl(l, node, rest)
    ensures Drop(l, DeclLength(node)) == rest
  {
    EntriesDrop(l.tail.tail.tail.tail, node.values, node.position, rest);
    assert Drop(l, DeclLength(node)) == Drop(l.tail, 4 + 3 * |node.values|);
    DropThree(l.tail, 1 + 3 * |node.values|);
  }

  /** The list is exactly a sequence of enum declarations. */
  predicate Decls(l: List<Token>, nodes: seq<Node>)
    decreases |nodes|
  {
    if nodes == [] then l == Nil
    else
      nodes[0].EnumerationType? && EnumDecl(l, nodes[0], Drop(l, DeclLength(nodes[0])))
      && Decls(Drop(l, DeclLength(nodes[0])), nodes[1..])
  }
}
