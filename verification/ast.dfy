/** AST node shapes of ast_nodes.py, plus the `Break` and `Continue`
    statements that parser.py builds. */
module Ast {
  import opened Wrappers
  import opened Tokens

  /** The host value a Literal node carries. */
  datatype LitValue = LNum(num: NumLit) | LStr(str: string) | LBool(b: bool)

  /** A statement or expression node. A slot assignment `obj slot = e` is
      an `Assignment` whose name is the two names joined by one space. */
  datatype Node =
    | Assignment(name: string, value: Node)
    | MessageSend(receiver: Node, message: string, args: seq<Node>)
    | Literal(lit: LitValue, literalType: string)
    | Identifier(name: string)
    | Block(statements: seq<Node>)
    | Return(value: Node)
    | Break
    | Continue

  datatype Program = Program(statements: seq<Node>)

  const ProgramTag := "program"

  /** The `type` tag each node constructor sets; it differs between node
      kinds, so dispatching on the tag is dispatching on the kind. */
  function Tag(n: Node): (r: string)
    ensures r != ProgramTag
    ensures r == "assignment" <==> n.Assignment?
    ensures r == "message_send" <==> n.MessageSend?
    ensures r == "literal" <==> n.Literal?
    ensures r == "identifier" <==> n.Identifier?
    ensures r == "block" <==> n.Block?
    ensures r == "return" <==> n.Return?
  {
    match n
    case Assignment(_, _) => "assignment"
    case MessageSend(_, _, _) => "message_send"
    case Literal(_, _) => "literal"
    case Identifier(_) => "identifier"
    case Block(_) => "block"
    case Return(_) => "return"
    case Break => "break"
    case Continue => "continue"
  }

  /** The `MessageSend` constructor: a missing or empty argument list is
      stored as the empty list. */
  function MakeSend(receiver: Node, message: string, args: Option<seq<Node>>): (n: Node)
    ensures n.MessageSend? && n.receiver == receiver && n.message == message
    ensures args.None? ==> n.args == []
    ensures args.Some? ==> n.args == args.value
  {
    MessageSend(receiver, message, match args case None => [] case Some(a) => a)
  }
}
