/** The recursive-descent parser of parser.py, over a token sequence and
    a position in it. Every parse function returns the node it built and
    the position after it, or the SyntaxError the source raises. */
module Parser {
  import opened Wrappers
  import opened Tokens
  import opened Ast

  datatype ParseError =
    | Expected(want: TokenType, got: TokenType)   // "Expected X, got Y"
    | UnexpectedToken(kind: TokenType)            // "Unexpected token: X"
    | UnexpectedEnd                         // "Unexpected end of input"

  datatype Parsed<T> = Parsed(node: T, pos: nat)

  type PResult<T> = Result<Parsed<T>, ParseError>

  predicate KindAt(ts: seq<Token>, pos: nat, k: Kind)
  {
    pos < |ts| && ts[pos].kind == k
  }

  predicate IdentAt(ts: seq<Token>, pos: nat)
  {
    pos < |ts| && ts[pos].kind.Ident?
  }

  /** `expect`: the current token must have the given type. */
  function Expect(ts: seq<Token>, pos: nat, want: TokenType): (r: PResult<Token>)
    requires pos <= |ts|
    ensures r.Ok? <==> pos < |ts| && TypeOf(ts[pos].kind) == want
    ensures r.Ok? ==> r.value == Parsed(ts[pos], pos + 1)
    ensures r.Err? ==> r.error == Expected(want, if pos < |ts| then TypeOf(ts[pos].kind) else EOF)
  {
    if pos < |ts| && TypeOf(ts[pos].kind) == want then Ok(Parsed(ts[pos], pos + 1))
    else Err(Expected(want, if pos < |ts| then TypeOf(ts[pos].kind) else EOF))
  }

  /** `skip_newlines`. */
  function SkipNewlines(ts: seq<Token>, pos: nat): (r: nat)
    requires pos <= |ts|
    ensures pos <= r <= |ts|
    ensures forall i | pos <= i < r :: ts[i].kind == Newline
    ensures r < |ts| ==> ts[r].kind != Newline
    decreases |ts| - pos
  {
    if pos < |ts| && ts[pos].kind == Newline then SkipNewlines(ts, pos + 1) else pos
  }

  /** Token kinds that can start a primary, and hence be a message argument. */
  predicate StartsPrimary(k: Kind)
  {
    k.Ident? || k.Number? || k.Str? || k == TrueKw || k == FalseKw
  }

  /** The node `parse_primary` builds from a primary-starting token. */
  function PrimaryOf(k: Kind): (n: Node)
    requires StartsPrimary(k)
    ensures n.Literal? || n.Identifier?
  {
    match k
    case Number(n) => Literal(LNum(n), "number")
    case Str(s) => Literal(LStr(s), "string")
    case TrueKw => Literal(LBool(true), "boolean")
    case FalseKw => Literal(LBool(false), "boolean")
    case Ident(name) => Identifier(name)
  }

  /** `parse_primary`: NUMBER, STRING, TRUE and FALSE become literals of
      kind number, string and boolean; IDENTIFIER becomes an identifier. */
  function ParsePrimary(ts: seq<Token>, pos: nat): (r: PResult<Node>)
    requires pos <= |ts|
    ensures r.Ok? <==> pos < |ts| && StartsPrimary(ts[pos].kind)
    ensures r.Ok? ==> r.value == Parsed(PrimaryOf(ts[pos].kind), pos + 1)
    ensures pos == |ts| ==> r == Err(UnexpectedEnd)
    ensures pos < |ts| && !StartsPrimary(ts[pos].kind) ==> r == Err(UnexpectedToken(TypeOf(ts[pos].kind)))
  {
    if pos >= |ts| then Err(UnexpectedEnd)
    else if StartsPrimary(ts[pos].kind) then Ok(Parsed(PrimaryOf(ts[pos].kind), pos + 1))
    else Err(UnexpectedToken(TypeOf(ts[pos].kind)))
  }

  /** The three-token lookahead of `parse_statement`: IDENT EQUALS, or
      IDENT IDENT EQUALS. */
  predicate AssignmentAhead(ts: seq<Token>, pos: nat)
  {
    IdentAt(ts, pos) &&
    (KindAt(ts, pos + 1, Equals) || (IdentAt(ts, pos + 1) && KindAt(ts, pos + 2, Equals)))
  }

  /** `parse_statement`. `None` only when there is no token or it is EOF. */
  function ParseStatement(ts: seq<Token>, pos: nat): (r: PResult<Option<Node>>)
    requires pos <= |ts|
    ensures r.Ok? ==> pos <= r.value.pos <= |ts|
    ensures r.Ok? ==> (r.value.node.Some? <==> pos < |ts| && ts[pos].kind != Eof)
    ensures r.Ok? && r.value.node.Some? ==> r.value.pos > pos
    decreases |ts| - pos, 2
  {
    if pos >= |ts| || ts[pos].kind == Eof then Ok(Parsed(None, pos))
    else if ts[pos].kind == Ident("return") then
      var p :- ParseReturn(ts, pos);
      Ok(Parsed(Some(p.node), p.pos))
    else if ts[pos].kind == BreakKw then Ok(Parsed(Some(Break), pos + 1))
    else if ts[pos].kind == ContinueKw then Ok(Parsed(Some(Continue), pos + 1))
    else if AssignmentAhead(ts, pos) then
      var p :- ParseAssignment(ts, pos);
      Ok(Parsed(Some(p.node), p.pos))
    else
      var p :- ParseExpression(ts, pos);
      Ok(Parsed(Some(p.node), p.pos))
  }

  /** `parse_assignment`: `x = e`, or `obj slot = e` stored under the
      compound name "obj slot". */
  function ParseAssignment(ts: seq<Token>, pos: nat): (r: PResult<Node>)
    requires pos <= |ts|
    ensures r.Ok? ==> pos < r.value.pos <= |ts| && r.value.node.Assignment?
    decreases |ts| - pos, 1
  {
    var first :- Expect(ts, pos, IDENTIFIER);
    if IdentAt(ts, first.pos) then
      // the second `expect("IDENTIFIER")` cannot fail here
      var slot := ts[first.pos].kind.name;
      var eq :- Expect(ts, first.pos + 1, EQUALS);
      var value :- ParseExpression(ts, eq.pos);
      Ok(Parsed(Assignment(first.node.kind.name + " " + slot, value.node), value.pos))
    else
      var eq :- Expect(ts, first.pos, EQUALS);
      var value :- ParseExpression(ts, eq.pos);
      Ok(Parsed(Assignment(first.node.kind.name, value.node), value.pos))
  }

  /** `parse_return`: an IDENTIFIER (spelled `return`) then an expression. */
  function ParseReturn(ts: seq<Token>, pos: nat): (r: PResult<Node>)
    requires pos <= |ts|
    ensures r.Ok? ==> pos < r.value.pos <= |ts| && r.value.node.Return?
    decreases |ts| - pos, 1
  {
    var kw :- Expect(ts, pos, IDENTIFIER);
    var value :- ParseExpression(ts, kw.pos);
    Ok(Parsed(Return(value.node), value.pos))
  }

  /** `parse_expression`: a primary, then a message chain. */
  function ParseExpression(ts: seq<Token>, pos: nat): (r: PResult<Node>)
    requires pos <= |ts|
    ensures r.Ok? ==> pos < r.value.pos <= |ts|
    decreases |ts| - pos, 1
  {
    var primary :- ParsePrimary(ts, pos);
    ParseChain(ts, primary.pos, primary.node, false)
  }

  predicate IsConditionalMessage(name: string)
  {
    name == "ifTrue" || name == "ifFalse"
  }

  /** The message-chain loop of `parse_expression`, from the message at
      `pos` with the chain built so far in `acc`. `afterBlock` says the last
      message took a block; the chain then goes on only with `ifTrue` or
      `ifFalse`. A message followed by NEWLINE INDENT takes one block;
      otherwise it takes at most one primary argument. */
  function ParseChain(ts: seq<Token>, pos: nat, acc: Node, afterBlock: bool): (r: PResult<Node>)
    requires pos <= |ts|
    ensures r.Ok? ==> pos <= r.value.pos <= |ts|
    decreases |ts| - pos, 0
  {
    if !IdentAt(ts, pos) then Ok(Parsed(acc, pos))
    else if afterBlock && !IsConditionalMessage(ts[pos].kind.name) then Ok(Parsed(acc, pos))
    else
      var message := ts[pos].kind.name;
      if KindAt(ts, pos + 1, Newline) && KindAt(ts, pos + 2, Indent) then
        var block :- ParseBlock(ts, pos + 2);
        ParseChain(ts, block.pos, MessageSend(acc, message, [block.node]), true)
      else if pos + 1 < |ts| && StartsPrimary(ts[pos + 1].kind) then
        ParseChain(ts, pos + 2, MessageSend(acc, message, [PrimaryOf(ts[pos + 1].kind)]), false)
      else
        ParseChain(ts, pos + 1, MessageSend(acc, message, []), false)
  }

  /** `parse_block`: INDENT, then statements (NEWLINEs skipped) up to
      DEDENT or EOF; the DEDENT is consumed when present. */
  function ParseBlock(ts: seq<Token>, pos: nat): (r: PResult<Node>)
    requires pos <= |ts|
    ensures r.Ok? ==> pos < r.value.pos <= |ts| && r.value.node.Block?
    ensures !KindAt(ts, pos, Indent) ==> r == Err(Expected(INDENT, if pos < |ts| then TypeOf(ts[pos].kind) else EOF))
    decreases |ts| - pos, 0
  {
    var indent :- Expect(ts, pos, INDENT);
    var body :- BlockBody(ts, indent.pos, []);
    Ok(Parsed(Block(body.node), body.pos))
  }

  predicate AtBlockEnd(ts: seq<Token>, pos: nat)
  {
    pos >= |ts| || ts[pos].kind == Dedent || ts[pos].kind == Eof
  }

  /** The statement loop of `parse_block`, with the statements so far in `acc`. */
  function BlockBody(ts: seq<Token>, pos: nat, acc: seq<Node>): (r: PResult<seq<Node>>)
    requires pos <= |ts|
    ensures r.Ok? ==> pos <= r.value.pos <= |ts|
    decreases |ts| - pos, 3
  {
    if AtBlockEnd(ts, pos) then
      Ok(Parsed(acc, if KindAt(ts, pos, Dedent) then pos + 1 else pos))
    else
      var p := SkipNewlines(ts, pos);
      if !AtBlockEnd(ts, p) then
        var stmt :- ParseStatement(ts, p);
        var acc' := if stmt.node.Some? then acc + [stmt.node.value] else acc;
        BlockBody(ts, SkipNewlines(ts, stmt.pos), acc')
      else
        BlockBody(ts, p, acc)
  }

  /** The statement loop of `parse`: statements in source order, NEWLINEs
      skipped, up to EOF (or the end of the tokens). */
  function ProgramBody(ts: seq<Token>, pos: nat, acc: seq<Node>): (r: Result<seq<Node>, ParseError>)
    requires pos <= |ts|
    decreases |ts| - pos
  {
    if pos >= |ts| || ts[pos].kind == Eof then Ok(acc)
    else
      var p := SkipNewlines(ts, pos);
      if p < |ts| && ts[p].kind != Eof then
        var stmt :- ParseStatement(ts, p);
        var acc' := if stmt.node.Some? then acc + [stmt.node.value] else acc;
        ProgramBody(ts, SkipNewlines(ts, stmt.pos), acc')
      else
        ProgramBody(ts, p, acc)
  }

  /** `Parser.parse`. */
  function Parse(ts: seq<Token>): Result<Program, ParseError>
  {
    var statements :- ProgramBody(ts, 0, []);
    Ok(Program(statements))
  }
}
