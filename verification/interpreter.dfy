/** The tree-walking evaluator of interpreter.py. Evaluation is bounded
    by `fuel`: a node passes one unit less to its sub-nodes and each
    `whileTrue` pass one unit less to the rest of the loop, while sibling
    statements and arguments share the same fuel, so fuel bounds the
    nesting depth plus the number of loop passes. Running out is reported
    as `OutOfFuel`. */
module Interpreter {
  import opened Wrappers
  import opened Tokens
  import opened Ast
  import Lexer
  import Parser
  import opened Objects
  import opened Builtins
  import opened Environment

  /** The interpreter's mutable parts: the objects and the bindings. */
  datatype State = State(heap: Heap, env: Env)

  /** The state after an evaluation, and its value or the exception it
      raised. What happened before an exception is kept. */
  datatype Outcome = Outcome(st: State, res: Result<Value, Fault>)

  datatype ArgsOutcome = ArgsOutcome(st: State, res: Result<seq<Value>, Fault>)

  /** The heap is well formed and acyclic, holds the prototypes, and
      every bound variable names an object of it. */
  predicate Good(st: State)
  {
    && Valid(st.heap) && Ordered(st.heap) && HasPrototypes(st.heap)
    && (forall x | x in st.env :: ValueIn(st.env[x], st.heap))
  }

  /** What every evaluation step keeps: a good state, no object lost and
      no prototype link changed, and a value that is an object in use. */
  predicate Step(st: State, o: Outcome)
  {
    Good(o.st) && Grows(st.heap, o.st.heap) && (o.res.Ok? ==> ValueIn(o.res.value, o.st.heap))
  }

  function InitialState(): (st: State)
    ensures Good(st)
  {
    InitialHeapShape();
    State(InitialHeap(), InitialEnv())
  }

  lemma GoodAfter(st: State, h2: Heap)
    requires Good(st) && Valid(h2) && Ordered(h2) && Grows(st.heap, h2)
    ensures Good(State(h2, st.env))
  {
  }

  /** The raw host value a Literal node carries. */
  function LitSlot(lit: LitValue): SlotVal
  {
    match lit
    case LNum(IntLit(n)) => SInt(n)
    case LNum(FloatLit(t)) => SFloat(t)
    case LStr(s) => SStr(s)
    case LBool(b) => SBool(b)
  }

  /** `eval_literal`: boxes the literal by its declared kind. A string
      box of a non-text value fails when its length is taken. */
  function EvalLiteral(st: State, lit: LitValue, kind: string): (r: Outcome)
    requires Good(st)
    ensures Step(st, r)
  {
    if kind == "number" then
      var a := CreateNumber(st.heap, LitSlot(lit));
      GoodAfter(st, a.heap);
      Outcome(State(a.heap, st.env), Ok(VObj(a.id)))
    else if kind == "string" then
      if lit.LStr? then
        var a := CreateString(st.heap, lit.str);
        GoodAfter(st, a.heap);
        Outcome(State(a.heap, st.env), Ok(VObj(a.id)))
      else Outcome(st, Err(OperandTypes))
    else if kind == "boolean" then
      var a := CreateBoolean(st.heap, LitSlot(lit));
      GoodAfter(st, a.heap);
      Outcome(State(a.heap, st.env), Ok(VObj(a.id)))
    else Outcome(st, Err(UnknownLiteral(kind)))
  }

  /** The index of the first space of a name. */
  function FirstSpace(s: string): (i: nat)
    requires ' ' in s
    ensures i < |s| && s[i] == ' ' && ' ' !in s[..i]
  {
    if s[0] == ' ' then 0
    else
      var j := FirstSpace(s[1..]);
      assert s[..j + 1] == [s[0]] + s[1..][..j];
      j + 1
  }

  /** What a slot assignment stores: for the `value` slot, the raw value
      of a boxed right-hand side, or the object itself when it has none;
      for any other slot, the right-hand side as it is. */
  function StoredValue(h: Heap, slot: string, v: Value): SlotVal
    requires Valid(h) && Ordered(h) && ValueIn(v, h)
  {
    if slot == "value" && v.VObj? then
      match Slot(h, v.id, "value")
      case Some(x) => x
      case None => SRef(v.id)
    else ValueSlot(v)
  }

  /** `eval_assignment` once the right-hand side has value `v`: a name
      with a space is `object slot`, split at the first space; any other
      name is a variable. The assigned value is the result. */
  function EvalAssign(st: State, name: string, v: Value): (r: Outcome)
    requires Good(st) && ValueIn(v, st.heap)
    ensures Step(st, r)
  {
    if ' ' in name then
      var i := FirstSpace(name);
      match Get(st.env, name[..i])
      case Err(e) => Outcome(st, Err(e))
      case Ok(VNone) => Outcome(st, Err(NoneAttribute))
      case Ok(VObj(o)) =>
        var h2 := SetSlot(st.heap, o, name[i + 1..], StoredValue(st.heap, name[i + 1..], v));
        GoodAfter(st, h2);
        Outcome(State(h2, st.env), Ok(v))
    else Outcome(State(st.heap, Set(st.env, name, v)), Ok(v))
  }

  predicate IsControlMessage(m: string)
  {
    m == "ifTrue" || m == "ifFalse" || m == "whileTrue"
  }

  /** The condition a control message reads from its receiver: the
      receiver's `value` slot when that holds a host boolean. */
  function BooleanOf(h: Heap, v: Value): Option<bool>
    requires Valid(h) && Ordered(h) && ValueIn(v, h)
  {
    match v
    case VNone => None
    case VObj(id) =>
      match Slot(h, id, "value")
      case Some(SBool(b)) => Some(b)
      case _ => None
  }

  /** Python truthiness of a raw value. */
  function Truthy(x: SlotVal): Result<bool, Fault>
  {
    match x
    case SInt(i) => Ok(i != 0)
    case SBool(b) => Ok(b)
    case SStr(s) => Ok(|s| > 0)
    case SNone => Ok(false)
    case SRef(_) => Ok(true)
    case SNative(_) => Ok(true)
    // the truth value of a float is not modelled
    case SFloat(_) => Err(Unmodelled)
    case SQuot(_, _) => Err(Unmodelled)
  }

  /** The re-evaluated `whileTrue` condition: the truthiness of the value
      slot, which must exist. */
  function LoopCondition(h: Heap, v: Value): Result<bool, Fault>
    requires Valid(h) && Ordered(h) && ValueIn(v, h)
  {
    match v
    case VNone => Err(ConditionNotBoolean)
    case VObj(id) =>
      match Slot(h, id, "value")
      case Some(x) => Truthy(x)
      case None => Err(ConditionNotBoolean)
  }

  function BlockLen(args: seq<Node>): nat
  {
    if |args| > 0 && args[0].Block? then |args[0].statements| else 0
  }

  /** `eval_node` */
  function EvalNode(st: State, n: Node, fuel: nat): (r: Outcome)
    requires Good(st)
    ensures Step(st, r)
    decreases fuel, 0
  {
    if fuel == 0 then Outcome(st, Err(OutOfFuel))
    else match n
      case Literal(lit, kind) => EvalLiteral(st, lit, kind)
      case Identifier(name) => Outcome(st, Get(st.env, name))
      case Assignment(name, e) =>
        var o := EvalNode(st, e, fuel - 1);
        if o.res.Err? then o else EvalAssign(o.st, name, o.res.value)
      case MessageSend(recv, msg, args) =>
        var o := EvalNode(st, recv, fuel - 1);
        if o.res.Err? then o
        else if IsControlMessage(msg) then ControlFlow(o.st, o.res.value, msg, args, recv, fuel - 1)
        else Send(o.st, o.res.value, msg, args, fuel - 1)
      case Block(ss) => EvalSeq(st, ss, fuel - 1)
      case Return(e) =>
        var o := EvalNode(st, e, fuel - 1);
        if o.res.Err? then o else Outcome(o.st, Err(NonLocalReturn(o.res.value)))
      case Break => Outcome(st, Err(NotImplemented(Tag(n))))
      case Continue => Outcome(st, Err(NotImplemented(Tag(n))))
  }

  /** `eval_block`, and the statement loop of `eval`: each statement in
      turn, stopping at the first exception; the value of the last one,
      or `None` for none. */
  function EvalSeq(st: State, ss: seq<Node>, fuel: nat): (r: Outcome)
    requires Good(st)
    ensures Step(st, r)
    decreases fuel, |ss| + 1
  {
    if ss == [] then Outcome(st, Ok(VNone))
    else
      var o := EvalNode(st, ss[0], fuel);
      if o.res.Err? || |ss| == 1 then o else EvalSeq(o.st, ss[1..], fuel)
  }

  /** The arguments of a send, left to right, stopping at the first
      exception. */
  function EvalArgs(st: State, args: seq<Node>, fuel: nat): (r: ArgsOutcome)
    requires Good(st)
    ensures Good(r.st) && Grows(st.heap, r.st.heap)
    ensures r.res.Ok? ==> |r.res.value| == |args| && forall i | 0 <= i < |args| :: ValueIn(r.res.value[i], r.st.heap)
    decreases fuel, |args| + 1
  {
    if args == [] then ArgsOutcome(st, Ok([]))
    else
      var o := EvalNode(st, args[0], fuel);
      if o.res.Err? then ArgsOutcome(o.st, Err(o.res.error))
      else
        var rest := EvalArgs(o.st, args[1..], fuel);
        if rest.res.Err? then rest
        else ArgsOutcome(rest.st, Ok([o.res.value] + rest.res.value))
  }

  /** An ordinary send: the method is looked up on the receiver before
      the arguments are evaluated, and called after. */
  function Send(st: State, recv: Value, msg: string, args: seq<Node>, fuel: nat): (r: Outcome)
    requires Good(st) && ValueIn(recv, st.heap)
    ensures Step(st, r)
    decreases fuel, |args| + 2
  {
    match recv
    case VNone => Outcome(st, Err(NoMethod(msg)))
    case VObj(id) =>
      match Slot(st.heap, id, msg)
      case None => Outcome(st, Err(NoMethod(msg)))
      case Some(m) =>
        var a := EvalArgs(st, args, fuel);
        if a.res.Err? then Outcome(a.st, Err(a.res.error))
        else match m
          case SNative(native) =>
            var ap := ApplyNative(a.st.heap, native, id, a.res.value);
            GoodAfter(a.st, ap.heap);
            Outcome(State(ap.heap, a.st.env), ap.result)
          case _ => Outcome(a.st, Err(NotCallable))
  }

  /** `eval_control_flow`: the block argument is checked first, then
      whether the receiver is a Boolean. */
  function ControlFlow(st: State, recv: Value, msg: string, args: seq<Node>, recvNode: Node, fuel: nat): (r: Outcome)
    requires Good(st) && ValueIn(recv, st.heap) && IsControlMessage(msg)
    ensures Step(st, r)
    decreases fuel, BlockLen(args) + 2
  {
    if |args| == 0 || !args[0].Block? then Outcome(st, Err(BlockExpected(msg)))
    else
      var block := args[0].statements;
      var cond := BooleanOf(st.heap, recv);
      if msg == "ifTrue" then
        if cond.None? then Outcome(st, Err(NotBoolean(msg)))
        else if cond.value then EvalSeq(st, block, fuel)
        else Outcome(st, Ok(VNone))
      else if msg == "ifFalse" then
        if cond.Some? then
          if !cond.value then EvalSeq(st, block, fuel) else Outcome(st, Ok(VNone))
        else if recv.VNone? then EvalSeq(st, block, fuel)
        else Outcome(st, Ok(recv))
      else if cond.None? then Outcome(st, Err(NotBoolean(msg)))
      else While(st, recvNode, block, VNone, fuel)
  }

  /** The `whileTrue` loop: every iteration evaluates the receiver
      expression again (the first one too, after the Boolean check),
      stops when its value is falsy, and otherwise runs the body. The
      result is the last body value, or `None`. */
  function While(st: State, cond: Node, body: seq<Node>, last: Value, fuel: nat): (r: Outcome)
    requires Good(st) && ValueIn(last, st.heap)
    ensures Step(st, r)
    decreases fuel, 0
  {
    if fuel == 0 then Outcome(st, Err(OutOfFuel))
    else
      var c := EvalNode(st, cond, fuel - 1);
      if c.res.Err? then c
      else match LoopCondition(c.st.heap, c.res.value)
        case Err(e) => Outcome(c.st, Err(e))
        case Ok(go) =>
          if !go then Outcome(c.st, Ok(last))
          else
            var b := EvalSeq(c.st, body, fuel - 1);
            if b.res.Err? then b else While(b.st, cond, body, b.res.value, fuel - 1)
  }

  datatype SyntaxFault = LexFailed(lex: Lexer.LexError) | ParseFailed(parse: Parser.ParseError)

  /** `eval`: parses the source, then runs its statements in order. */
  function Eval(st: State, src: string, fuel: nat): (r: Result<Outcome, SyntaxFault>)
    requires Good(st)
    ensures r.Ok? ==> Step(st, r.value)
  {
    match Lexer.Tokenize(src)
    case Err(e) => Err(LexFailed(e))
    case Ok(ts) =>
      match Parser.Parse(ts)
      case Err(e) => Err(ParseFailed(e))
      case Ok(p) => Ok(EvalSeq(st, p.statements, fuel))
  }
}
