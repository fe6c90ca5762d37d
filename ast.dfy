/** The syntax tree of ast/ast.go: the node kinds the parser builds and the tree that holds them. */
module Ast {
  import opened Numerals
  import opened Tokens

  /** Go's zero Position, which a node that records no position reports. */
  const NoPosition: Position := Position("", 0, 0)

  /** A node of the tree. Go's Node is an interface with the one method Pos; its implementations are the
      three declaration types of ast/ast.go and the two leaf types the parser also builds
      (IdentifierType, NumberLiteralType), whose declarations are missing from ast/ast.go; they
      carry the fields the parser sets (Go names both fields Value). */
  datatype Node =
    | EnumerationType(position: Position, name: string, returnType: Node, values: seq<EnumerationValue>)
    | PacketType(position: Position, name: string, fields: seq<PacketField>)
    | ProtocolType(position: Position, name: string)
    | IdentifierType(value: string)
    | NumberLiteralType(position: Position, number: Uint64)
  {
    /** Node.Pos: every declaration and number literal reports the position stored in it. */
    function Pos(): (r: Position)
      ensures !IdentifierType? ==> r == position
      ensures IdentifierType? ==> r == NoPosition
    {
      if IdentifierType? then NoPosition else position
    }
  }

  /** One `Key = Value` entry of an enumeration, in source order within the enumeration. */
  datatype EnumerationValue = EnumerationValue(key: string, value: Node)

  /** One field of a packet: its type node and its name. */
  datatype PacketField = PacketField(fieldType: Node, name: string)

  /** The parser's output: the declarations of one file, in source order. */
  datatype Tree = Tree(packageName: string, fileName: string, nodes: seq<Node>)
}
