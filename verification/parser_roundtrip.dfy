/** A printer from ASTs back to token sequences, and the proof that the
    parser inverts it on every AST the grammar can express: the parser's
    lookahead, message-chain and block rules recover exactly the tree
    that was printed. */
module ParserRoundTrip {
  import opened Wrappers
  import opened Tokens
  import opened Ast
  import opened Parser

  function Tok(k: Kind): Token
  {
    Token(k, 0, 0)
  }

  // ---------------------------------------------------------------------
  // The shapes the grammar can express
  // ---------------------------------------------------------------------

  /** A literal with a matching kind tag, or an identifier. */
  predicate PrimaryForm(e: Node)
  {
    match e
    case Literal(LNum(_), t) => t == "number"
    case Literal(LStr(_), t) => t == "string"
    case Literal(LBool(_), t) => t == "boolean"
    case Identifier(_) => true
    case _ => false
  }

  function PrimaryKind(e: Node): (k: Kind)
    requires PrimaryForm(e)
    ensures StartsPrimary(k) && PrimaryOf(k) == e
  {
    match e
    case Literal(LNum(n), _) => Number(n)
    case Literal(LStr(s), _) => Str(s)
    case Literal(LBool(b), _) => if b then TrueKw else FalseKw
    case Identifier(x) => Ident(x)
  }

  predicate IsBlockSend(e: Node)
  {
    e.MessageSend? && |e.args| == 1 && e.args[0].Block?
  }

  predicate IsBareSend(e: Node)
  {
    e.MessageSend? && |e.args| == 0
  }

  /** A message chain the parser can produce. A message without argument
      ends the chain (anything after it would be read as its argument),
      and only `ifTrue`/`ifFalse` may follow a block argument. */
  predicate ExprForm(e: Node)
    decreases e, 0
  {
    match e
    case MessageSend(r, m, args) =>
      && ExprForm(r)
      && !IsBareSend(r)
      && (IsBlockSend(r) ==> IsConditionalMessage(m))
      && (|args| == 0 || (|args| == 1 && ArgForm(args[0])))
    case _ => PrimaryForm(e)
  }

  predicate ArgForm(a: Node)
    decreases a, 1
  {
    match a
    case Block(ss) => StmtsForm(ss)
    case _ => PrimaryForm(a)
  }

  /** The primary a chain starts from. */
  function Head(e: Node): Node
  {
    match e
    case MessageSend(r, _, _) => Head(r)
    case _ => e
  }

  /** Index of the first space in a name, if any. */
  function SpaceIndex(s: string): (r: Option<nat>)
    ensures r.Some? ==> r.value < |s| && s[r.value] == ' '
  {
    if |s| == 0 then None
    else if s[0] == ' ' then Some(0)
    else match SpaceIndex(s[1..]) case None => None case Some(i) => Some(i + 1)
  }

  /** The identifier an assignment statement starts with. */
  function FirstWord(name: string): string
  {
    match SpaceIndex(name) case None => name case Some(i) => name[..i]
  }

  predicate StmtForm(s: Node)
    decreases s, 2
  {
    match s
    case Assignment(name, v) => ExprForm(v) && FirstWord(name) != "return"
    case Return(v) => ExprForm(v)
    case Break => true
    case Continue => true
    case _ => ExprForm(s) && Head(s) != Identifier("return")
  }

  predicate StmtsForm(ss: seq<Node>)
    decreases ss
  {
    |ss| == 0 || (StmtForm(ss[0]) && StmtsForm(ss[1..]))
  }

  // ---------------------------------------------------------------------
  // The printer
  // ---------------------------------------------------------------------

  function PrintExpr(e: Node): seq<Token>
    requires ExprForm(e)
    decreases e, 0
  {
    match e
    case MessageSend(r, m, args) => PrintExpr(r) + [Tok(Ident(m))] + PrintArgs(args)
    case _ => [Tok(PrimaryKind(e))]
  }

  function PrintArgs(args: seq<Node>): (r: seq<Token>)
    requires |args| == 0 || (|args| == 1 && ArgForm(args[0]))
    ensures |r| == 0 <==> |args| == 0
    decreases args, 1
  {
    if |args| == 0 then []
    else match args[0]
      case Block(ss) => [Tok(Newline), Tok(Indent)] + PrintStmts(ss) + [Tok(Dedent)]
      case Literal(_, _) => [Tok(PrimaryKind(args[0]))]
      case Identifier(_) => [Tok(PrimaryKind(args[0]))]
      case _ => []
  }

  function PrintName(name: string): seq<Token>
  {
    match SpaceIndex(name)
    case None => [Tok(Ident(name))]
    case Some(i) => [Tok(Ident(name[..i])), Tok(Ident(name[i + 1..]))]
  }

  function PrintStmt(s: Node): seq<Token>
    requires StmtForm(s)
    decreases s, 2
  {
    match s
    case Assignment(name, v) => PrintName(name) + [Tok(Equals)] + PrintExpr(v)
    case Return(v) => [Tok(Ident("return"))] + PrintExpr(v)
    case Break => [Tok(BreakKw)]
    case Continue => [Tok(ContinueKw)]
    case _ => PrintExpr(s)
  }

  /** Each statement followed by one NEWLINE. */
  function PrintStmts(ss: seq<Node>): seq<Token>
    requires StmtsForm(ss)
    decreases ss
  {
    if |ss| == 0 then [] else PrintStmt(ss[0]) + [Tok(Newline)] + PrintStmts(ss[1..])
  }

  function PrintProgram(p: Program): seq<Token>
    requires StmtsForm(p.statements)
  {
    PrintStmts(p.statements) + [Tok(Eof)]
  }

  // ---------------------------------------------------------------------
  // Sizes, for the mutual induction
  // ---------------------------------------------------------------------

  function Size(n: Node): nat
    decreases n
  {
    match n
    case Assignment(_, v) => 1 + Size(v)
    case MessageSend(r, _, args) => 1 + Size(r) + SizeAll(args)
    case Block(ss) => 1 + SizeAll(ss)
    case Return(v) => 1 + Size(v)
    case _ => 1
  }

  function SizeAll(ss: seq<Node>): nat
    decreases ss
  {
    if |ss| == 0 then 0 else Size(ss[0]) + 1 + SizeAll(ss[1..])
  }

  // ---------------------------------------------------------------------
  // Token-sequence facts
  // ---------------------------------------------------------------------

  /** `seg` occurs in `ts` at `pos`. */
  predicate At(ts: seq<Token>, pos: nat, seg: seq<Token>)
  {
    pos + |seg| <= |ts| && Matches(ts, pos, seg)
  }

  /** The tokens of `seg` one by one from `pos`. Stated recursively, so
      that the verifier unfolds it only as far as a proof asks. */
  predicate Matches(ts: seq<Token>, pos: nat, seg: seq<Token>)
    decreases |seg|
  {
    |seg| == 0 || (pos < |ts| && ts[pos] == seg[0] && Matches(ts, pos + 1, seg[1..]))
  }

  lemma {:induction false} MatchesSplit(ts: seq<Token>, pos: nat, a: seq<Token>, b: seq<Token>)
    requires Matches(ts, pos, a + b)
    ensures Matches(ts, pos, a) && Matches(ts, pos + |a|, b)
    decreases |a|
  {
    if |a| > 0 {
      assert (a + b)[0] == a[0];
      assert (a + b)[1..] == a[1..] + b;
      MatchesSplit(ts, pos + 1, a[1..], b);
    } else {
      assert a + b == b;
    }
  }

  lemma AtSplit(ts: seq<Token>, pos: nat, a: seq<Token>, b: seq<Token>)
    requires At(ts, pos, a + b)
    ensures At(ts, pos, a) && At(ts, pos + |a|, b)
  {
    MatchesSplit(ts, pos, a, b);
  }

  lemma {:induction false} MatchesIndex(ts: seq<Token>, pos: nat, seg: seq<Token>, i: nat)
    requires Matches(ts, pos, seg) && i < |seg|
    ensures pos + i < |ts| && ts[pos + i] == seg[i]
    decreases i
  {
    if i > 0 {
      MatchesIndex(ts, pos + 1, seg[1..], i - 1);
      assert seg[1..][i - 1] == seg[i];
    }
  }

  lemma AtIndex(ts: seq<Token>, pos: nat, seg: seq<Token>, i: nat)
    requires At(ts, pos, seg) && i < |seg|
    ensures ts[pos + i] == seg[i]
  {
    MatchesIndex(ts, pos, seg, i);
  }

  lemma {:induction false} MatchesSelf(ts: seq<Token>, pos: nat)
    requires pos <= |ts|
    ensures Matches(ts, pos, ts[pos..])
    decreases |ts| - pos
  {
    if pos < |ts| {
      MatchesSelf(ts, pos + 1);
      assert ts[pos..][1..] == ts[pos + 1..];
    }
  }

  lemma AtSplit3(ts: seq<Token>, pos: nat, a: seq<Token>, b: seq<Token>, c: seq<Token>)
    requires At(ts, pos, a + b + c)
    ensures At(ts, pos, a) && At(ts, pos + |a|, b) && At(ts, pos + |a| + |b|, c)
  {
    AtSplit(ts, pos, a + b, c);
    AtSplit(ts, pos, a, b);
  }

  lemma AtTail3(ts: seq<Token>, pos: nat, a: seq<Token>, b: seq<Token>, c: seq<Token>)
    requires At(ts, pos, a + b + c)
    ensures At(ts, pos, a) && At(ts, pos + |a|, b + c)
  {
    assert a + b + c == a + (b + c);
    AtSplit(ts, pos, a, b + c);
  }

  lemma AtSplit4(ts: seq<Token>, pos: nat, a: seq<Token>, b: seq<Token>, c: seq<Token>, d: seq<Token>)
    requires At(ts, pos, a + b + c + d)
    ensures At(ts, pos, a) && At(ts, pos + |a|, b) && At(ts, pos + |a| + |b|, c + d)
  {
    assert a + b + c + d == a + b + (c + d);
    AtSplit3(ts, pos, a, b, c + d);
  }

  /** The chain stops here: a NEWLINE that does not open a block. */
  predicate StopsAt(ts: seq<Token>, j: nat)
  {
    KindAt(ts, j, Newline) && !KindAt(ts, j + 1, Indent)
  }

  /** What may follow a message without argument. */
  predicate FollowsBare(ts: seq<Token>, j: nat)
  {
    !(KindAt(ts, j, Newline) && KindAt(ts, j + 1, Indent)) && !(j < |ts| && StartsPrimary(ts[j].kind))
  }

  /** The first tokens of a printed chain: its head, a message name, and
      never an EQUALS third, so no expression looks like an assignment. */
  lemma {:induction false} ExprShape(e: Node)
    requires ExprForm(e)
    ensures PrimaryForm(Head(e))
    ensures |PrintExpr(e)| >= 1 && PrintExpr(e)[0] == Tok(PrimaryKind(Head(e)))
    ensures e.MessageSend? ==> |PrintExpr(e)| >= 2 && PrintExpr(e)[1].kind.Ident?
    ensures |PrintExpr(e)| >= 3 ==> PrintExpr(e)[2].kind != Equals
  {
    match e
    case MessageSend(r, m, args) =>
      ExprShape(r);
      var p := PrintExpr(r) + [Tok(Ident(m))] + PrintArgs(args);
      assert p[0] == PrintExpr(r)[0];
      if r.MessageSend? {
        assert |PrintExpr(r)| >= 3 by {
          assert |PrintExpr(r)| == |PrintExpr(r.receiver)| + 1 + |PrintArgs(r.args)|;
          ExprShape(r.receiver);
        }
        assert p[1] == PrintExpr(r)[1];
        assert p[2] == PrintExpr(r)[2];
      } else {
        assert p[1] == Tok(Ident(m));
        if |p| >= 3 {
          assert p[2] == PrintArgs(args)[0];
        }
      }
    case _ =>
  }

  /** The first token of a printed statement is never layout or EOF. */
  lemma StmtFirstToken(s: Node)
    requires StmtForm(s)
    ensures |PrintStmt(s)| >= 1
    ensures PrintStmt(s)[0].kind != Newline && PrintStmt(s)[0].kind != Indent
    ensures PrintStmt(s)[0].kind != Dedent && PrintStmt(s)[0].kind != Eof
  {
    match s
    case Assignment(name, v) =>
    case Return(v) =>
    case Break =>
    case Continue =>
    case _ => ExprShape(s);
  }

  // ---------------------------------------------------------------------
  // The round trip, by mutual induction
  // ---------------------------------------------------------------------

  /** One step of the chain loop over a message without argument. */
  lemma ChainStepBare(ts: seq<Token>, q: nat, acc: Node, m: string, afterBlock: bool)
    requires q + 1 <= |ts| && ts[q] == Tok(Ident(m))
    requires afterBlock ==> IsConditionalMessage(m)
    requires FollowsBare(ts, q + 1)
    ensures ParseChain(ts, q, acc, afterBlock) == ParseChain(ts, q + 1, MessageSend(acc, m, []), false)
  {
  }

  /** One step of the chain loop over a message with a primary argument. */
  lemma ChainStepPrimary(ts: seq<Token>, q: nat, acc: Node, m: string, afterBlock: bool, a: Node)
    requires PrimaryForm(a)
    requires q + 2 <= |ts| && ts[q] == Tok(Ident(m)) && ts[q + 1] == Tok(PrimaryKind(a))
    requires afterBlock ==> IsConditionalMessage(m)
    ensures ParseChain(ts, q, acc, afterBlock) == ParseChain(ts, q + 2, MessageSend(acc, m, [a]), false)
  {
  }

  /** One step of the chain loop over a message with a block argument. */
  lemma ChainStepBlock(ts: seq<Token>, q: nat, e: Node, ss: seq<Node>, end: nat)
    requires e.MessageSend? && e.args == [Block(ss)]
    requires q + 3 <= |ts| && ts[q] == Tok(Ident(e.message)) && ts[q + 1] == Tok(Newline) && ts[q + 2] == Tok(Indent)
    requires IsBlockSend(e.receiver) ==> IsConditionalMessage(e.message)
    requires end <= |ts| && ParseBlock(ts, q + 2) == Ok(Parsed(Block(ss), end))
    ensures ParseChain(ts, q, e.receiver, IsBlockSend(e.receiver)) == ParseChain(ts, end, e, true)
  {
  }

  lemma SizeOfSend(e: Node)
    requires e.MessageSend? && |e.args| == 1
    ensures Size(e) == 2 + Size(e.receiver) + Size(e.args[0])
    ensures e.args[0].Block? ==> Size(e) == 3 + Size(e.receiver) + SizeAll(e.args[0].statements)
  {
    assert SizeAll(e.args) == Size(e.args[0]) + 1 + SizeAll(e.args[1..]);
  }

  /** Where the tokens of a printed block send sit. */
  lemma BlockSendLayout(ts: seq<Token>, pos: nat, e: Node, ss: seq<Node>, q: nat)
    requires ExprForm(e) && e.MessageSend? && e.args == [Block(ss)] && At(ts, pos, PrintExpr(e))
    requires q == pos + |PrintExpr(e.receiver)|
    ensures ExprForm(e.receiver) && StmtsForm(ss)
    ensures At(ts, pos, PrintExpr(e.receiver))
    ensures q + 3 <= |ts| && ts[q] == Tok(Ident(e.message)) && ts[q + 1] == Tok(Newline) && ts[q + 2] == Tok(Indent)
    ensures At(ts, q + 2, [Tok(Indent)] + PrintStmts(ss) + [Tok(Dedent)])
    ensures pos + |PrintExpr(e)| == q + 2 + |PrintStmts(ss)| + 2
  {
    var r, m := e.receiver, e.message;
    var pr := PrintExpr(r);
    var inner := [Tok(Indent)] + PrintStmts(ss) + [Tok(Dedent)];
    assert PrintArgs(e.args) == [Tok(Newline)] + inner;
    assert PrintExpr(e) == pr + [Tok(Ident(m))] + [Tok(Newline)] + inner;
    AtSplit4(ts, pos, pr, [Tok(Ident(m))], [Tok(Newline)], inner);
    AtIndex(ts, q, [Tok(Ident(m))], 0);
    AtSplit(ts, q + 1, [Tok(Newline)], inner);
    AtIndex(ts, q + 1, [Tok(Newline)], 0);
    AtIndex(ts, q + 2, inner, 0);
  }

  /** The chain loop over a printed block send's message and block. */
  lemma {:induction false} BlockSendStep(ts: seq<Token>, pos: nat, e: Node)
    requires ExprForm(e) && IsBlockSend(e) && At(ts, pos, PrintExpr(e))
    ensures ExprForm(e.receiver) && At(ts, pos, PrintExpr(e.receiver))
    ensures ParseChain(ts, pos + |PrintExpr(e.receiver)|, e.receiver, IsBlockSend(e.receiver))
         == ParseChain(ts, pos + |PrintExpr(e)|, e, true)
    decreases Size(e), 0
  {
    var ss := e.args[0].statements;
    assert e.args == [Block(ss)];
    var q := pos + |PrintExpr(e.receiver)|;
    BlockSendLayout(ts, pos, e, ss, q);
    SizeOfSend(e);
    BlockParse(ts, q + 2, ss);
    ChainStepBlock(ts, q, e, ss, pos + |PrintExpr(e)|);
  }

  /** A chain ending in a message with a block argument. */
  lemma {:induction false} ChainBlockSend(ts: seq<Token>, pos: nat, e: Node)
    requires ExprForm(e) && IsBlockSend(e) && At(ts, pos, PrintExpr(e))
    ensures ParseExpression(ts, pos) == ParseChain(ts, pos + |PrintExpr(e)|, e, true)
    decreases Size(e), 1
  {
    BlockSendStep(ts, pos, e);
    SizeOfSend(e);
    ChainPrefix(ts, pos, e.receiver);
  }

  /** A chain ending in a message with a primary argument or none. */
  lemma {:induction false} ChainPlainSend(ts: seq<Token>, pos: nat, e: Node)
    requires ExprForm(e) && e.MessageSend? && !IsBlockSend(e) && At(ts, pos, PrintExpr(e))
    requires IsBareSend(e) ==> FollowsBare(ts, pos + |PrintExpr(e)|)
    ensures ParseExpression(ts, pos) == ParseChain(ts, pos + |PrintExpr(e)|, e, false)
    decreases Size(e), 1
  {
    var r, m, args := e.receiver, e.message, e.args;
    var pr := PrintExpr(r);
    var pa := PrintArgs(args);
    AtSplit3(ts, pos, pr, [Tok(Ident(m))], pa);
    var q := pos + |pr|;
    AtIndex(ts, q, [Tok(Ident(m))], 0);
    ChainPrefix(ts, pos, r);
    if |args| == 0 {
      ChainStepBare(ts, q, r, m, IsBlockSend(r));
    } else {
      assert pa == [Tok(PrimaryKind(args[0]))];
      AtIndex(ts, q + 1, pa, 0);
      ChainStepPrimary(ts, q, r, m, IsBlockSend(r), args[0]);
      assert args == [args[0]];
    }
  }

  /** Parsing a printed chain leaves the chain loop in the state just after
      it, with the whole chain built. */
  lemma {:induction false} ChainPrefix(ts: seq<Token>, pos: nat, e: Node)
    requires ExprForm(e) && At(ts, pos, PrintExpr(e))
    requires IsBareSend(e) ==> FollowsBare(ts, pos + |PrintExpr(e)|)
    ensures ParseExpression(ts, pos) == ParseChain(ts, pos + |PrintExpr(e)|, e, IsBlockSend(e))
    decreases Size(e), 2
  {
    if IsBlockSend(e) {
      ChainBlockSend(ts, pos, e);
    } else if e.MessageSend? {
      ChainPlainSend(ts, pos, e);
    } else {
      AtIndex(ts, pos, PrintExpr(e), 0);
    }
  }

  lemma {:induction false} ExprParse(ts: seq<Token>, pos: nat, e: Node)
    requires ExprForm(e) && At(ts, pos, PrintExpr(e))
    requires StopsAt(ts, pos + |PrintExpr(e)|)
    ensures ParseExpression(ts, pos) == Ok(Parsed(e, pos + |PrintExpr(e)|))
    decreases Size(e), 3
  {
    ChainPrefix(ts, pos, e);
  }

  /** `name = value` as the parser reads it. */
  lemma SimpleAssignmentStep(ts: seq<Token>, pos: nat, name: string, v: Node, end: nat)
    requires pos + 2 <= |ts| && ts[pos] == Tok(Ident(name)) && ts[pos + 1] == Tok(Equals) && name != "return"
    requires ParseExpression(ts, pos + 2) == Ok(Parsed(v, end))
    ensures ParseStatement(ts, pos) == Ok(Parsed(Some(Assignment(name, v)), end))
  {
  }

  /** `object slot = value` as the parser reads it. */
  lemma SlotAssignmentStep(ts: seq<Token>, pos: nat, obj: string, slot: string, v: Node, end: nat)
    requires pos + 3 <= |ts| && ts[pos] == Tok(Ident(obj)) && ts[pos + 1] == Tok(Ident(slot)) && ts[pos + 2] == Tok(Equals)
    requires obj != "return"
    requires ParseExpression(ts, pos + 3) == Ok(Parsed(v, end))
    ensures ParseStatement(ts, pos) == Ok(Parsed(Some(Assignment(obj + " " + slot, v)), end))
  {
  }

  /** `return value` as the parser reads it: an IDENTIFIER spelled
      `return`, then the expression. */
  lemma ReturnStep(ts: seq<Token>, pos: nat, v: Node, end: nat)
    requires pos + 1 <= |ts| && ts[pos] == Tok(Ident("return"))
    requires ParseExpression(ts, pos + 1) == Ok(Parsed(v, end))
    ensures ParseStatement(ts, pos) == Ok(Parsed(Some(Return(v)), end))
  {
  }

  /** A statement that is neither an assignment, a return nor a loop
      keyword is read as an expression. */
  lemma ExprStmtStep(ts: seq<Token>, pos: nat, e: Node, end: nat)
    requires pos < |ts| && ts[pos].kind != Eof && ts[pos].kind != Ident("return")
    requires ts[pos].kind != BreakKw && ts[pos].kind != ContinueKw && !AssignmentAhead(ts, pos)
    requires ParseExpression(ts, pos) == Ok(Parsed(e, end))
    ensures ParseStatement(ts, pos) == Ok(Parsed(Some(e), end))
  {
  }

  lemma BreakStep(ts: seq<Token>, pos: nat)
    requires pos < |ts| && ts[pos] == Tok(BreakKw)
    ensures ParseStatement(ts, pos) == Ok(Parsed(Some(Break), pos + 1))
  {
  }

  lemma ContinueStep(ts: seq<Token>, pos: nat)
    requires pos < |ts| && ts[pos] == Tok(ContinueKw)
    ensures ParseStatement(ts, pos) == Ok(Parsed(Some(Continue), pos + 1))
  {
  }

  /** Splitting a compound name at its first space and joining the two
      words with one space gives the name back. */
  lemma JoinAtSpace(name: string, i: nat)
    requires i < |name| && name[i] == ' '
    ensures name[..i] + " " + name[i + 1..] == name
  {
    assert name == name[..i] + [name[i]] + name[i + 1..];
  }

  /** Where the tokens of a printed assignment sit. */
  lemma AssignmentLayout(ts: seq<Token>, pos: nat, name: string, v: Node)
    requires StmtForm(Assignment(name, v)) && At(ts, pos, PrintStmt(Assignment(name, v)))
    ensures ExprForm(v) && At(ts, pos, PrintName(name))
    ensures pos + |PrintName(name)| < |ts| && ts[pos + |PrintName(name)|] == Tok(Equals)
    ensures At(ts, pos + |PrintName(name)| + 1, PrintExpr(v))
    ensures |PrintStmt(Assignment(name, v))| == |PrintName(name)| + 1 + |PrintExpr(v)|
  {
    var pn := PrintName(name);
    AtSplit3(ts, pos, pn, [Tok(Equals)], PrintExpr(v));
    AtIndex(ts, pos + |pn|, [Tok(Equals)], 0);
  }

  lemma {:induction false} SimpleAssignmentParse(ts: seq<Token>, pos: nat, name: string, v: Node, end: nat)
    requires ExprForm(v) && name != "return"
    requires pos + 2 <= |ts| && ts[pos] == Tok(Ident(name)) && ts[pos + 1] == Tok(Equals)
    requires At(ts, pos + 2, PrintExpr(v)) && end == pos + 2 + |PrintExpr(v)| && StopsAt(ts, end)
    ensures ParseStatement(ts, pos) == Ok(Parsed(Some(Assignment(name, v)), end))
    decreases Size(v), 4
  {
    ExprParse(ts, pos + 2, v);
    SimpleAssignmentStep(ts, pos, name, v, end);
  }

  lemma {:induction false} SlotAssignmentParse(ts: seq<Token>, pos: nat, obj: string, slot: string, v: Node, end: nat)
    requires ExprForm(v) && obj != "return"
    requires pos + 3 <= |ts| && ts[pos] == Tok(Ident(obj)) && ts[pos + 1] == Tok(Ident(slot)) && ts[pos + 2] == Tok(Equals)
    requires At(ts, pos + 3, PrintExpr(v)) && end == pos + 3 + |PrintExpr(v)| && StopsAt(ts, end)
    ensures ParseStatement(ts, pos) == Ok(Parsed(Some(Assignment(obj + " " + slot, v)), end))
    decreases Size(v), 4
  {
    ExprParse(ts, pos + 3, v);
    SlotAssignmentStep(ts, pos, obj, slot, v, end);
  }

  lemma {:induction false} AssignmentParse(ts: seq<Token>, pos: nat, name: string, v: Node)
    requires StmtForm(Assignment(name, v)) && At(ts, pos, PrintStmt(Assignment(name, v)))
    requires StopsAt(ts, pos + |PrintStmt(Assignment(name, v))|)
    ensures ParseStatement(ts, pos) == Ok(Parsed(Some(Assignment(name, v)), pos + |PrintStmt(Assignment(name, v))|))
    decreases Size(v), 5
  {
    var pn := PrintName(name);
    var end := pos + |PrintStmt(Assignment(name, v))|;
    AssignmentLayout(ts, pos, name, v);
    AtIndex(ts, pos, pn, 0);
    match SpaceIndex(name) {
      case None =>
        SimpleAssignmentParse(ts, pos, name, v, end);
      case Some(i) =>
        AtIndex(ts, pos, pn, 1);
        JoinAtSpace(name, i);
        SlotAssignmentParse(ts, pos, name[..i], name[i + 1..], v, end);
    }
  }

  lemma {:induction false} ReturnParse(ts: seq<Token>, pos: nat, v: Node)
    requires StmtForm(Return(v)) && At(ts, pos, PrintStmt(Return(v)))
    requires StopsAt(ts, pos + |PrintStmt(Return(v))|)
    ensures ParseStatement(ts, pos) == Ok(Parsed(Some(Return(v)), pos + |PrintStmt(Return(v))|))
    decreases Size(v), 4
  {
    AtSplit(ts, pos, [Tok(Ident("return"))], PrintExpr(v));
    AtIndex(ts, pos, [Tok(Ident("return"))], 0);
    ExprParse(ts, pos + 1, v);
    ReturnStep(ts, pos, v, pos + 1 + |PrintExpr(v)|);
  }

  lemma {:induction false} ExprStmtParse(ts: seq<Token>, pos: nat, s: Node)
    requires StmtForm(s) && !s.Assignment? && !s.Return? && !s.Break? && !s.Continue?
    requires At(ts, pos, PrintStmt(s)) && StopsAt(ts, pos + |PrintStmt(s)|)
    ensures ParseStatement(ts, pos) == Ok(Parsed(Some(s), pos + |PrintStmt(s)|))
    decreases Size(s), 4
  {
    ExprShape(s);
    var p := PrintExpr(s);
    AtIndex(ts, pos, p, 0);
    if |p| >= 2 { AtIndex(ts, pos, p, 1); }
    if |p| >= 3 { AtIndex(ts, pos, p, 2); }
    assert !AssignmentAhead(ts, pos);
    ExprParse(ts, pos, s);
    ExprStmtStep(ts, pos, s, pos + |p|);
  }

  lemma {:induction false} StmtParse(ts: seq<Token>, pos: nat, s: Node)
    requires StmtForm(s) && At(ts, pos, PrintStmt(s))
    requires StopsAt(ts, pos + |PrintStmt(s)|)
    ensures ParseStatement(ts, pos) == Ok(Parsed(Some(s), pos + |PrintStmt(s)|))
    decreases Size(s), 6
  {
    match s
    case Assignment(name, v) => AssignmentParse(ts, pos, name, v);
    case Return(v) => ReturnParse(ts, pos, v);
    case Break =>
      AtIndex(ts, pos, PrintStmt(s), 0);
      BreakStep(ts, pos);
    case Continue =>
      AtIndex(ts, pos, PrintStmt(s), 0);
      ContinueStep(ts, pos);
    case _ => ExprStmtParse(ts, pos, s);
  }

  /** What follows a statement's NEWLINE, another statement or the closing
      token, starts with neither NEWLINE nor INDENT. */
  lemma RestStart(ss: seq<Node>, close: Kind, rest: seq<Token>)
    requires StmtsForm(ss) && close != Indent && close != Newline
    requires rest == PrintStmts(ss) + [Tok(close)]
    ensures rest[0].kind != Newline && rest[0].kind != Indent
  {
    if |ss| > 0 {
      StmtsUnfold(ss);
      StmtFirstToken(ss[0]);
      assert rest[0] == PrintStmt(ss[0])[0];
    }
  }

  /** A non-empty statement list prints as its first statement, a NEWLINE,
      and the rest. */
  lemma StmtsUnfold(ss: seq<Node>)
    requires StmtsForm(ss) && |ss| > 0
    ensures StmtForm(ss[0]) && StmtsForm(ss[1..])
    ensures PrintStmts(ss) == PrintStmt(ss[0]) + [Tok(Newline)] + PrintStmts(ss[1..])
  {
  }

  lemma Assoc4(a: seq<Token>, b: seq<Token>, c: seq<Token>, d: seq<Token>)
    ensures a + b + c + d == a + b + (c + d)
  {
  }

  /** A segment, its NEWLINE, and a rest that starts with neither NEWLINE
      nor INDENT: the chain stops at that NEWLINE and the rest follows it. */
  lemma SegmentThenNewline(ts: seq<Token>, pos: nat, ps: seq<Token>, rest: seq<Token>)
    requires |ps| > 0 && |rest| > 0 && rest[0].kind != Newline && rest[0].kind != Indent
    requires At(ts, pos, ps + [Tok(Newline)] + rest)
    ensures At(ts, pos, ps) && ts[pos] == ps[0]
    ensures StopsAt(ts, pos + |ps|)
    ensures pos + |ps| + 1 < |ts| && ts[pos + |ps| + 1].kind != Newline
    ensures At(ts, pos + |ps| + 1, rest)
  {
    AtSplit3(ts, pos, ps, [Tok(Newline)], rest);
    AtIndex(ts, pos, ps, 0);
    AtIndex(ts, pos + |ps|, [Tok(Newline)], 0);
    AtIndex(ts, pos + |ps| + 1, rest, 0);
  }

  /** After a printed statement and its NEWLINE comes another statement or
      the closing token; either way the chain stops and no newline
      follows. */
  lemma StatementThenNewline(ts: seq<Token>, pos: nat, ss: seq<Node>, close: Kind)
    requires StmtsForm(ss) && |ss| > 0 && close != Indent && close != Newline
    requires At(ts, pos, PrintStmts(ss) + [Tok(close)])
    ensures At(ts, pos, PrintStmt(ss[0]))
    ensures StopsAt(ts, pos + |PrintStmt(ss[0])|)
    ensures pos + |PrintStmt(ss[0])| + 1 < |ts| && ts[pos + |PrintStmt(ss[0])| + 1].kind != Newline
    ensures At(ts, pos + |PrintStmt(ss[0])| + 1, PrintStmts(ss[1..]) + [Tok(close)])
    ensures ts[pos].kind != Newline && ts[pos].kind != Dedent && ts[pos].kind != Eof
  {
    StmtsUnfold(ss);
    var ps := PrintStmt(ss[0]);
    var mid := PrintStmts(ss[1..]);
    var rest := mid + [Tok(close)];
    Assoc4(ps, [Tok(Newline)], mid, [Tok(close)]);
    StmtFirstToken(ss[0]);
    RestStart(ss[1..], close, rest);
    SegmentThenNewline(ts, pos, ps, rest);
  }

  /** `parse_block` over an INDENT and the statement loop after it. */
  lemma ParseBlockStep(ts: seq<Token>, pos: nat, ss: seq<Node>, end: nat)
    requires pos < |ts| && ts[pos] == Tok(Indent)
    requires BlockBody(ts, pos + 1, []) == Ok(Parsed(ss, end))
    ensures ParseBlock(ts, pos) == Ok(Parsed(Block(ss), end))
  {
  }

  /** The block loop stops at DEDENT and consumes it. */
  lemma BlockBodyEnd(ts: seq<Token>, pos: nat, acc: seq<Node>)
    requires pos < |ts| && ts[pos] == Tok(Dedent)
    ensures BlockBody(ts, pos, acc) == Ok(Parsed(acc, pos + 1))
  {
  }

  /** One turn of the block loop over a statement and its NEWLINE. */
  lemma BlockBodyStep(ts: seq<Token>, pos: nat, acc: seq<Node>, s: Node, end: nat)
    requires pos < |ts| && ts[pos].kind != Newline && ts[pos].kind != Dedent && ts[pos].kind != Eof
    requires ParseStatement(ts, pos) == Ok(Parsed(Some(s), end))
    requires end + 1 < |ts| && ts[end].kind == Newline && ts[end + 1].kind != Newline
    ensures BlockBody(ts, pos, acc) == BlockBody(ts, end + 1, acc + [s])
  {
    assert SkipNewlines(ts, pos) == pos;
    assert SkipNewlines(ts, end) == end + 1;
  }

  /** One turn of the program loop over a statement and its NEWLINE. */
  lemma ProgramBodyStep(ts: seq<Token>, pos: nat, acc: seq<Node>, s: Node, end: nat)
    requires pos < |ts| && ts[pos].kind != Newline && ts[pos].kind != Eof
    requires ParseStatement(ts, pos) == Ok(Parsed(Some(s), end))
    requires end + 1 < |ts| && ts[end].kind == Newline && ts[end + 1].kind != Newline
    ensures ProgramBody(ts, pos, acc) == ProgramBody(ts, end + 1, acc + [s])
  {
    assert SkipNewlines(ts, pos) == pos;
    assert SkipNewlines(ts, end) == end + 1;
  }

  /** The block loop reads the first printed statement and its NEWLINE. */
  lemma {:induction false} BlockStatement(ts: seq<Token>, pos: nat, ss: seq<Node>, acc: seq<Node>, next: nat)
    requires StmtsForm(ss) && |ss| > 0 && At(ts, pos, PrintStmts(ss) + [Tok(Dedent)])
    requires next == pos + |PrintStmt(ss[0])| + 1
    ensures next <= |ts| && At(ts, next, PrintStmts(ss[1..]) + [Tok(Dedent)])
    ensures BlockBody(ts, pos, acc) == BlockBody(ts, next, acc + [ss[0]])
    ensures next + |PrintStmts(ss[1..])| == pos + |PrintStmts(ss)|
    decreases SizeAll(ss), 7
  {
    var end := pos + |PrintStmt(ss[0])|;
    StatementThenNewline(ts, pos, ss, Dedent);
    StmtParse(ts, pos, ss[0]);
    BlockBodyStep(ts, pos, acc, ss[0], end);
    assert PrintStmts(ss) == PrintStmt(ss[0]) + [Tok(Newline)] + PrintStmts(ss[1..]);
  }

  /** The statement loop of a block reads back the printed statements and
      stops after the closing DEDENT. */
  lemma {:induction false} BlockBodyParse(ts: seq<Token>, pos: nat, ss: seq<Node>, acc: seq<Node>)
    requires StmtsForm(ss) && At(ts, pos, PrintStmts(ss) + [Tok(Dedent)])
    ensures BlockBody(ts, pos, acc) == Ok(Parsed(acc + ss, pos + |PrintStmts(ss)| + 1))
    decreases SizeAll(ss), 9
  {
    if |ss| == 0 {
      AtIndex(ts, pos, PrintStmts(ss) + [Tok(Dedent)], 0);
      BlockBodyEnd(ts, pos, acc);
      assert acc + ss == acc;
    } else {
      BlockBodyCons(ts, pos, ss, acc);
    }
  }

  lemma {:induction false} BlockBodyCons(ts: seq<Token>, pos: nat, ss: seq<Node>, acc: seq<Node>)
    requires StmtsForm(ss) && |ss| > 0 && At(ts, pos, PrintStmts(ss) + [Tok(Dedent)])
    ensures BlockBody(ts, pos, acc) == Ok(Parsed(acc + ss, pos + |PrintStmts(ss)| + 1))
    decreases SizeAll(ss), 8
  {
    var next := pos + |PrintStmt(ss[0])| + 1;
    var acc' := acc + [ss[0]];
    BlockStatement(ts, pos, ss, acc, next);
    BlockBodyParse(ts, next, ss[1..], acc');
    assert acc' + ss[1..] == acc + ss;
  }

  lemma {:induction false} BlockParse(ts: seq<Token>, pos: nat, ss: seq<Node>)
    requires StmtsForm(ss) && At(ts, pos, [Tok(Indent)] + PrintStmts(ss) + [Tok(Dedent)])
    ensures ParseBlock(ts, pos) == Ok(Parsed(Block(ss), pos + |PrintStmts(ss)| + 2))
    decreases SizeAll(ss), 10
  {
    AtTail3(ts, pos, [Tok(Indent)], PrintStmts(ss), [Tok(Dedent)]);
    AtIndex(ts, pos, [Tok(Indent)], 0);
    BlockBodyParse(ts, pos + 1, ss, []);
    assert [] + ss == ss;
    ParseBlockStep(ts, pos, ss, pos + |PrintStmts(ss)| + 2);
  }

  /** The program loop reads the first printed statement and its NEWLINE. */
  lemma ProgramStatement(ts: seq<Token>, pos: nat, ss: seq<Node>, acc: seq<Node>, next: nat)
    requires StmtsForm(ss) && |ss| > 0 && At(ts, pos, PrintStmts(ss) + [Tok(Eof)])
    requires next == pos + |PrintStmt(ss[0])| + 1
    ensures next <= |ts| && At(ts, next, PrintStmts(ss[1..]) + [Tok(Eof)])
    ensures ProgramBody(ts, pos, acc) == ProgramBody(ts, next, acc + [ss[0]])
  {
    var end := pos + |PrintStmt(ss[0])|;
    StatementThenNewline(ts, pos, ss, Eof);
    StmtParse(ts, pos, ss[0]);
    ProgramBodyStep(ts, pos, acc, ss[0], end);
  }

  lemma {:induction false} ProgramBodyParse(ts: seq<Token>, pos: nat, ss: seq<Node>, acc: seq<Node>)
    requires StmtsForm(ss) && At(ts, pos, PrintStmts(ss) + [Tok(Eof)])
    ensures ProgramBody(ts, pos, acc) == Ok(acc + ss)
    decreases |ss|
  {
    if |ss| == 0 {
      AtIndex(ts, pos, PrintStmts(ss) + [Tok(Eof)], 0);
      assert acc + ss == acc;
    } else {
      var next := pos + |PrintStmt(ss[0])| + 1;
      var acc' := acc + [ss[0]];
      ProgramStatement(ts, pos, ss, acc, next);
      ProgramBodyParse(ts, next, ss[1..], acc');
      assert acc' + ss[1..] == acc + ss;
    }
  }

  /** Round trip: parsing the printed form of any expressible program
      gives back that program. */
  lemma ParsePrintRoundTrip(p: Program)
    requires StmtsForm(p.statements)
    ensures Parse(PrintProgram(p)) == Ok(p)
  {
    var ts := PrintProgram(p);
    MatchesSelf(ts, 0);
    assert ts[0..] == ts;
    ProgramBodyParse(ts, 0, p.statements, []);
    assert [] + p.statements == p.statements;
  }
}
