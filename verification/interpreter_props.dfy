/** Laws of the evaluator: how statement sequences compose, what each
    node kind evaluates to, and how the control messages behave. */
module InterpreterProps {
  import opened Wrappers
  import opened Tokens
  import opened Ast
  import opened Objects
  import opened Builtins
  import opened Environment
  import opened Interpreter

  function NumberLiteral(n: nat): Node
  {
    Literal(LNum(IntLit(n)), "number")
  }

  // ---------------------------------------------------------------------
  // One step of evaluation, for the larger proofs below
  // ---------------------------------------------------------------------

  lemma UnfoldSend(st: State, recv: Node, m: string, args: seq<Node>, fuel: nat, o: Outcome)
    requires Good(st) && fuel > 0 && o == EvalNode(st, recv, fuel - 1)
    ensures EvalNode(st, MessageSend(recv, m, args), fuel) ==
      if o.res.Err? then o
      else if IsControlMessage(m) then ControlFlow(o.st, o.res.value, m, args, recv, fuel - 1)
      else Send(o.st, o.res.value, m, args, fuel - 1)
  {
  }

  lemma UnfoldAssign(st: State, x: string, e: Node, fuel: nat, o: Outcome)
    requires Good(st) && fuel > 0 && o == EvalNode(st, e, fuel - 1)
    ensures EvalNode(st, Assignment(x, e), fuel) == if o.res.Err? then o else EvalAssign(o.st, x, o.res.value)
  {
  }

  lemma UnfoldNumber(st: State, n: nat, fuel: nat)
    requires Good(st) && fuel > 0
    ensures EvalNode(st, NumberLiteral(n), fuel) ==
      Outcome(State(CreateNumber(st.heap, SInt(n)).heap, st.env), Ok(VObj(CreateNumber(st.heap, SInt(n)).id)))
  {
  }

  lemma UnfoldIdentifier(st: State, x: string, fuel: nat)
    requires Good(st) && fuel > 0
    ensures EvalNode(st, Identifier(x), fuel) == Outcome(st, Get(st.env, x))
  {
  }

  // ---------------------------------------------------------------------
  // Sequences
  // ---------------------------------------------------------------------

  /** Running `a + b` is running `a`, then `b` from where `a` left off,
      unless `a` raised. */
  lemma {:induction false} SeqAppend(st: State, a: seq<Node>, b: seq<Node>, fuel: nat, ra: Outcome)
    requires Good(st) && a != [] && b != [] && ra == EvalSeq(st, a, fuel)
    ensures EvalSeq(st, a + b, fuel) == if ra.res.Err? then ra else EvalSeq(ra.st, b, fuel)
    decreases |a|
  {
    var o := EvalNode(st, a[0], fuel);
    assert (a + b)[0] == a[0] && (a + b)[1..] == a[1..] + b;
    if |a| > 1 && o.res.Ok? {
      SeqAppend(o.st, a[1..], b, fuel, EvalSeq(o.st, a[1..], fuel));
    }
  }

  /** A statement that raises ends the sequence: later statements are
      not run. A `return` is such a statement. */
  lemma SeqStops(st: State, s: Node, rest: seq<Node>, fuel: nat)
    requires Good(st) && EvalNode(st, s, fuel).res.Err?
    ensures EvalSeq(st, [s] + rest, fuel) == EvalNode(st, s, fuel)
  {
    assert ([s] + rest)[0] == s;
  }

  /** A `return` raises the uncaught signal carrying its value. */
  lemma ReturnSignals(st: State, e: Node, fuel: nat, o: Outcome)
    requires Good(st) && fuel > 0 && o == EvalNode(st, e, fuel - 1) && o.res.Ok?
    ensures EvalNode(st, Return(e), fuel) == Outcome(o.st, Err(NonLocalReturn(o.res.value)))
  {
  }

  /** `break` and `continue` have no evaluation case. */
  lemma LoopKeywordsUnimplemented(st: State, fuel: nat)
    requires Good(st) && fuel > 0
    ensures EvalNode(st, Break, fuel) == Outcome(st, Err(NotImplemented("break")))
    ensures EvalNode(st, Continue, fuel) == Outcome(st, Err(NotImplemented("continue")))
  {
  }

  // ---------------------------------------------------------------------
  // Literals, variables, assignment
  // ---------------------------------------------------------------------

  /** A number or boolean literal evaluates to a fresh box of its host
      value, which answers every other message like its prototype. */
  lemma LiteralBoxes(st: State, lit: LitValue, kind: string, m: string, fuel: nat, r: Outcome)
    requires Good(st) && fuel > 0 && (kind == "number" || kind == "boolean")
    requires r == EvalNode(st, Literal(lit, kind), fuel)
    ensures r.st.env == st.env && r.res.Ok? && r.res.value.VObj? && r.res.value.id !in st.heap.objs
    ensures GetSlot(r.st.heap, r.res.value.id, "value") == Found(LitSlot(lit))
    ensures m != "value" ==> GetSlot(r.st.heap, r.res.value.id, m) == GetSlot(st.heap, if kind == "number" then NumberId else BooleanId, m)
  {
    BoxRoundTrip(st.heap, if kind == "number" then NumberId else BooleanId, LitSlot(lit), m);
  }

  /** A string literal evaluates to a fresh String box with its text and
      length. */
  lemma StringLiteralBoxes(st: State, s: string, fuel: nat, r: Outcome)
    requires Good(st) && fuel > 0
    requires r == EvalNode(st, Literal(LStr(s), "string"), fuel)
    ensures r.st.env == st.env && r.res.Ok? && r.res.value.VObj? && r.res.value.id !in st.heap.objs
    ensures r.st.heap.objs[r.res.value.id].proto == Some(StringId)
    ensures GetSlot(r.st.heap, r.res.value.id, "value") == Found(SStr(s))
    ensures GetSlot(r.st.heap, r.res.value.id, "length") == Found(SInt(|s|))
  {
    StringRoundTrip(st.heap, s);
  }

  /** A literal of any other kind is refused, with nothing changed. */
  lemma UnknownLiteralKind(st: State, lit: LitValue, kind: string, fuel: nat)
    requires Good(st) && fuel > 0 && kind !in {"number", "string", "boolean"}
    ensures EvalNode(st, Literal(lit, kind), fuel) == Outcome(st, Err(UnknownLiteral(kind)))
  {
  }

  /** Assigning a variable and reading it back gives the assigned value,
      which is also the assignment's own value. */
  lemma AssignThenRead(st: State, x: string, e: Node, fuel: nat, o: Outcome)
    requires Good(st) && fuel > 1 && ' ' !in x && o == EvalNode(st, e, fuel - 1) && o.res.Ok?
    ensures EvalNode(st, Assignment(x, e), fuel).res == o.res
    ensures EvalSeq(st, [Assignment(x, e), Identifier(x)], fuel).res == o.res
  {
    UnfoldAssign(st, x, e, fuel, o);
    var a := EvalNode(st, Assignment(x, e), fuel);
    assert a == Outcome(State(o.st.heap, Set(o.st.env, x, o.res.value)), o.res);
    UnfoldIdentifier(a.st, x, fuel);
    assert [Assignment(x, e), Identifier(x)][0] == Assignment(x, e);
    assert [Assignment(x, e), Identifier(x)][1..] == [Identifier(x)];
  }

  lemma FirstSpaceOfJoin(obj: string, slot: string)
    requires ' ' !in obj
    ensures ' ' in obj + " " + slot
    ensures FirstSpace(obj + " " + slot) == |obj|
    ensures (obj + " " + slot)[..|obj|] == obj && (obj + " " + slot)[|obj| + 1..] == slot
  {
    var s := obj + " " + slot;
    assert s[|obj|] == ' ';
    assert s[..|obj|] == obj;
  }

  /** `obj slot = e` writes the slot on the object bound to `obj`, and
      the object then answers `slot` with the stored value: the boxed
      value itself, except that the `value` slot takes the raw value out
      of its box. */
  lemma SlotAssign(st: State, obj: string, slot: string, e: Node, fuel: nat, o: Outcome, id: ObjId)
    requires Good(st) && fuel > 0 && ' ' !in obj
    requires o == EvalNode(st, e, fuel - 1) && o.res.Ok? && Get(o.st.env, obj) == Ok(VObj(id))
    ensures EvalNode(st, Assignment(obj + " " + slot, e), fuel).res == o.res
    ensures GetSlot(EvalNode(st, Assignment(obj + " " + slot, e), fuel).st.heap, id, slot) ==
      Found(StoredValue(o.st.heap, slot, o.res.value))
  {
    FirstSpaceOfJoin(obj, slot);
    UnfoldAssign(st, obj + " " + slot, e, fuel, o);
    SetSlotThenGet(o.st.heap, id, slot, StoredValue(o.st.heap, slot, o.res.value));
  }

  /** `obj value = 5` stores the raw integer 5, not a Number box. */
  lemma ValueSlotUnwraps(st: State, obj: string, n: nat, fuel: nat, id: ObjId)
    requires Good(st) && fuel > 1 && ' ' !in obj && Get(st.env, obj) == Ok(VObj(id))
    ensures GetSlot(EvalNode(st, Assignment(obj + " " + "value", NumberLiteral(n)), fuel).st.heap, id, "value") == Found(SInt(n))
  {
    UnfoldNumber(st, n, fuel - 1);
    var v := EvalNode(st, NumberLiteral(n), fuel - 1);
    BoxRoundTrip(st.heap, NumberId, SInt(n), "value");
    assert StoredValue(v.st.heap, "value", v.res.value) == SInt(n);
    SlotAssign(st, obj, "value", NumberLiteral(n), fuel, v, id);
  }

  // ---------------------------------------------------------------------
  // Sends
  // ---------------------------------------------------------------------

  /** A receiver without the message's slot raises "no method" before any
      argument is evaluated. */
  lemma SendWithoutMethod(st: State, recv: Node, m: string, args: seq<Node>, fuel: nat, o: Outcome)
    requires Good(st) && fuel > 0 && !IsControlMessage(m)
    requires o == EvalNode(st, recv, fuel - 1) && o.res.Ok?
    requires o.res.value.VObj? ==> GetSlot(o.st.heap, o.res.value.id, m) == NotFound
    ensures EvalNode(st, MessageSend(recv, m, args), fuel) == Outcome(o.st, Err(NoMethod(m)))
  {
    UnfoldSend(st, recv, m, args, fuel, o);
  }

  lemma OneArg(st: State, e: Node, fuel: nat, o: Outcome)
    requires Good(st) && o == EvalNode(st, e, fuel) && o.res.Ok?
    ensures EvalArgs(st, [e], fuel) == ArgsOutcome(o.st, Ok([o.res.value]))
  {
    assert [e][0] == e && [e][1..] == [];
    assert EvalArgs(o.st, [], fuel) == ArgsOutcome(o.st, Ok([]));
    assert [o.res.value] + [] == [o.res.value];
  }

  /** An ordinary send whose receiver has a built-in method under the
      message: the receiver is evaluated, the method looked up, the
      arguments evaluated, and the method called on them. */
  lemma NativeSend(st: State, recv: Node, m: string, args: seq<Node>, fuel: nat, o: Outcome, n: Native, a: ArgsOutcome)
    requires Good(st) && fuel > 0 && !IsControlMessage(m)
    requires o == EvalNode(st, recv, fuel - 1) && o.res.Ok? && o.res.value.VObj?
    requires Slot(o.st.heap, o.res.value.id, m) == Some(SNative(n))
    requires a == EvalArgs(o.st, args, fuel - 1) && a.res.Ok?
    ensures EvalNode(st, MessageSend(recv, m, args), fuel) ==
      Outcome(State(ApplyNative(a.st.heap, n, o.res.value.id, a.res.value).heap, a.st.env),
              ApplyNative(a.st.heap, n, o.res.value.id, a.res.value).result)
  {
    UnfoldSend(st, recv, m, args, fuel, o);
  }

  /** A number-literal argument list is one fresh box. */
  lemma LiteralArgument(st: State, y: nat, fuel: nat, b: Alloc)
    requires Good(st) && fuel > 0 && b == CreateNumber(st.heap, SInt(y))
    ensures EvalArgs(st, [NumberLiteral(y)], fuel) == ArgsOutcome(State(b.heap, st.env), Ok([VObj(b.id)]))
  {
    UnfoldNumber(st, y, fuel);
    OneArg(st, NumberLiteral(y), fuel, Outcome(State(b.heap, st.env), Ok(VObj(b.id))));
  }

  lemma NumberBoxMethod(h: Heap, x: nat, m: string, a: Alloc)
    requires Valid(h) && Ordered(h) && HasPrototypes(h) && m != "value" && a == CreateNumber(h, SInt(x))
    ensures Valid(a.heap) && Ordered(a.heap) && a.id in a.heap.objs
    ensures Slot(a.heap, a.id, m) == Slot(h, NumberId, m)
  {
    BoxRoundTrip(h, NumberId, SInt(x), m);
  }

  /** Sending to a number literal with one number-literal argument: the
      receiver is boxed, the method looked up on it, the argument boxed,
      and the native called. */
  lemma LiteralSend(st: State, m: string, x: nat, y: nat, fuel: nat, n: Native, a: Alloc, b: Alloc)
    requires Good(st) && fuel >= 2 && !IsControlMessage(m) && m != "value"
    requires GetSlot(st.heap, NumberId, m) == Found(SNative(n))
    requires a == CreateNumber(st.heap, SInt(x)) && b == CreateNumber(a.heap, SInt(y))
    ensures EvalNode(st, MessageSend(NumberLiteral(x), m, [NumberLiteral(y)]), fuel) ==
      Outcome(State(ApplyNative(b.heap, n, a.id, [VObj(b.id)]).heap, st.env), ApplyNative(b.heap, n, a.id, [VObj(b.id)]).result)
  {
    NumberBoxMethod(st.heap, x, m, a);
    UnfoldNumber(st, x, fuel - 1);
    var s1 := State(a.heap, st.env);
    LiteralArgument(s1, y, fuel - 1, b);
    NativeSend(st, NumberLiteral(x), m, [NumberLiteral(y)], fuel, Outcome(s1, Ok(VObj(a.id))), n,
      ArgsOutcome(State(b.heap, st.env), Ok([VObj(b.id)])));
  }

  /** An arithmetic method applied to two freshly boxed integers: a fresh
      Number holding the host result, or the host operator's fault. */
  lemma ArithOnBoxes(h: Heap, op: ArithOp, x: nat, y: nat, ap: Applied)
    requires Valid(h) && Ordered(h) && HasPrototypes(h)
    requires var a := CreateNumber(h, SInt(x));
      var b := CreateNumber(a.heap, SInt(y));
      ap == ApplyNative(b.heap, NArith(op), a.id, [VObj(b.id)])
    ensures Arith(op, SInt(x), SInt(y)).Err? ==> ap.result == Err(Arith(op, SInt(x), SInt(y)).error)
    ensures Arith(op, SInt(x), SInt(y)).Ok? ==>
      && ap.result.Ok? && ap.result.value.VObj?
      && ap.heap.objs[ap.result.value.id].proto == Some(NumberId)
      && GetSlot(ap.heap, ap.result.value.id, "value") == Found(Arith(op, SInt(x), SInt(y)).value)
  {
    var a := CreateNumber(h, SInt(x));
    BoxRoundTrip(h, NumberId, SInt(x), "value");
    var b := CreateNumber(a.heap, SInt(y));
    BoxRoundTrip(a.heap, NumberId, SInt(y), "value");
    ExtendsGetSlot(a.heap, b.heap, a.id, "value");
    match Arith(op, SInt(x), SInt(y)) {
      case Ok(v) =>
        ArithResult(b.heap, op, a.id, b.id, SInt(x), SInt(y), v);
        GetSlotOwn(ap.heap, b.heap.next, "value");
      case Err(e) =>
        OperatorFault(b.heap, NArith(op), a.id, b.id, SInt(x), SInt(y), e);
    }
  }

  /** `x op y` on two integer literals, with Number's `op` slot holding an
      arithmetic method: a fresh Number holding the host result, or the
      host operator's fault (`ZeroDivision` for a zero divisor). */
  lemma ArithOnLiterals(st: State, op: ArithOp, m: string, x: nat, y: nat, fuel: nat, r: Outcome)
    requires Good(st) && fuel >= 2 && !IsControlMessage(m) && m != "value"
    requires GetSlot(st.heap, NumberId, m) == Found(SNative(NArith(op)))
    requires r == EvalNode(st, MessageSend(NumberLiteral(x), m, [NumberLiteral(y)]), fuel)
    ensures r.st.env == st.env
    ensures Arith(op, SInt(x), SInt(y)).Err? ==> r.res == Err(Arith(op, SInt(x), SInt(y)).error)
    ensures Arith(op, SInt(x), SInt(y)).Ok? ==>
      && r.res.Ok? && r.res.value.VObj?
      && r.st.heap.objs[r.res.value.id].proto == Some(NumberId)
      && GetSlot(r.st.heap, r.res.value.id, "value") == Found(Arith(op, SInt(x), SInt(y)).value)
  {
    var a := CreateNumber(st.heap, SInt(x));
    var b := CreateNumber(a.heap, SInt(y));
    LiteralSend(st, m, x, y, fuel, NArith(op), a, b);
    ArithOnBoxes(st.heap, op, x, y, ApplyNative(b.heap, NArith(op), a.id, [VObj(b.id)]));
  }

  // ---------------------------------------------------------------------
  // Control messages
  // ---------------------------------------------------------------------

  /** A control message without a block argument raises once the
      receiver has been evaluated. */
  lemma ControlNeedsBlock(st: State, recv: Node, m: string, args: seq<Node>, fuel: nat, o: Outcome)
    requires Good(st) && fuel > 0 && IsControlMessage(m)
    requires o == EvalNode(st, recv, fuel - 1) && o.res.Ok? && (args == [] || !args[0].Block?)
    ensures EvalNode(st, MessageSend(recv, m, args), fuel) == Outcome(o.st, Err(BlockExpected(m)))
  {
    UnfoldSend(st, recv, m, args, fuel, o);
  }

  /** `ifTrue`: the block's value on true; `None`, without running the
      block, on false; an error on a non-Boolean. */
  lemma IfTrue(st: State, c: Node, body: seq<Node>, fuel: nat, o: Outcome, r: Outcome)
    requires Good(st) && fuel > 0 && o == EvalNode(st, c, fuel - 1) && o.res.Ok?
    requires r == EvalNode(st, MessageSend(c, "ifTrue", [Block(body)]), fuel)
    ensures BooleanOf(o.st.heap, o.res.value) == None ==> r == Outcome(o.st, Err(NotBoolean("ifTrue")))
    ensures BooleanOf(o.st.heap, o.res.value) == Some(true) ==> r == EvalSeq(o.st, body, fuel - 1)
    ensures BooleanOf(o.st.heap, o.res.value) == Some(false) ==> r == Outcome(o.st, Ok(VNone))
  {
    UnfoldSend(st, c, "ifTrue", [Block(body)], fuel, o);
  }

  /** `ifFalse`: on a Boolean, the block's value on false and `None` on
      true; on `None`, the block's value; on anything else, the receiver
      itself, without running the block. */
  lemma IfFalse(st: State, c: Node, body: seq<Node>, fuel: nat, o: Outcome, r: Outcome)
    requires Good(st) && fuel > 0 && o == EvalNode(st, c, fuel - 1) && o.res.Ok?
    requires r == EvalNode(st, MessageSend(c, "ifFalse", [Block(body)]), fuel)
    ensures BooleanOf(o.st.heap, o.res.value) == Some(false) ==> r == EvalSeq(o.st, body, fuel - 1)
    ensures BooleanOf(o.st.heap, o.res.value) == Some(true) ==> r == Outcome(o.st, Ok(VNone))
    ensures o.res.value == VNone ==> r == EvalSeq(o.st, body, fuel - 1)
    ensures o.res.value.VObj? && BooleanOf(o.st.heap, o.res.value) == None ==> r == o
  {
    UnfoldSend(st, c, "ifFalse", [Block(body)], fuel, o);
  }

  /** `c ifTrue [t] ifFalse [f]` on a true condition: when `t` ends in an
      object that is not a Boolean, that object is the value and `f` does
      not run; when `t` ends in `None` (an empty block, say), `f` runs as
      well. */
  lemma IfTrueIfFalseOnTrue(st: State, c: Node, t: seq<Node>, f: seq<Node>, fuel: nat, o: Outcome, tv: Outcome, r: Outcome)
    requires Good(st) && fuel > 1 && o == EvalNode(st, c, fuel - 2) && o.res.Ok?
    requires BooleanOf(o.st.heap, o.res.value) == Some(true)
    requires tv == EvalSeq(o.st, t, fuel - 2) && tv.res.Ok?
    requires r == EvalNode(st, MessageSend(MessageSend(c, "ifTrue", [Block(t)]), "ifFalse", [Block(f)]), fuel)
    ensures tv.res.value == VNone ==> r == EvalSeq(tv.st, f, fuel - 1)
    ensures tv.res.value.VObj? && BooleanOf(tv.st.heap, tv.res.value) == None ==> r == tv
  {
    var inner := MessageSend(c, "ifTrue", [Block(t)]);
    IfTrue(st, c, t, fuel - 1, o, EvalNode(st, inner, fuel - 1));
    IfFalse(st, inner, f, fuel, EvalNode(st, inner, fuel - 1), r);
  }

  /** ... and on a false condition only `f` runs. */
  lemma IfTrueIfFalseOnFalse(st: State, c: Node, t: seq<Node>, f: seq<Node>, fuel: nat, o: Outcome, r: Outcome)
    requires Good(st) && fuel > 1 && o == EvalNode(st, c, fuel - 2) && o.res.Ok?
    requires BooleanOf(o.st.heap, o.res.value) == Some(false)
    requires r == EvalNode(st, MessageSend(MessageSend(c, "ifTrue", [Block(t)]), "ifFalse", [Block(f)]), fuel)
    ensures r == EvalSeq(o.st, f, fuel - 1)
  {
    var inner := MessageSend(c, "ifTrue", [Block(t)]);
    IfTrue(st, c, t, fuel - 1, o, EvalNode(st, inner, fuel - 1));
    IfFalse(st, inner, f, fuel, EvalNode(st, inner, fuel - 1), r);
  }

  /** `whileTrue` on a variable whose `value` slot is false returns
      `None` and changes nothing: the condition is read twice and the
      body never runs. */
  lemma WhileOnFalse(st: State, x: string, body: seq<Node>, fuel: nat)
    requires Good(st) && fuel > 2 && x in st.env && st.env[x].VObj?
    requires GetSlot(st.heap, st.env[x].id, "value") == Found(SBool(false))
    ensures EvalNode(st, MessageSend(Identifier(x), "whileTrue", [Block(body)]), fuel) == Outcome(st, Ok(VNone))
  {
    UnfoldIdentifier(st, x, fuel - 1);
    UnfoldIdentifier(st, x, fuel - 2);
    UnfoldSend(st, Identifier(x), "whileTrue", [Block(body)], fuel, Outcome(st, Ok(st.env[x])));
    assert BooleanOf(st.heap, st.env[x]) == Some(false);
    assert LoopCondition(st.heap, st.env[x]) == Ok(false);
  }

  /** `whileTrue` refuses a receiver whose value is not a host boolean,
      even a truthy one. */
  lemma WhileNeedsBoolean(st: State, c: Node, body: seq<Node>, fuel: nat, o: Outcome)
    requires Good(st) && fuel > 0 && o == EvalNode(st, c, fuel - 1) && o.res.Ok?
    requires BooleanOf(o.st.heap, o.res.value).None?
    ensures EvalNode(st, MessageSend(c, "whileTrue", [Block(body)]), fuel) == Outcome(o.st, Err(NotBoolean("whileTrue")))
  {
    UnfoldSend(st, c, "whileTrue", [Block(body)], fuel, o);
  }

  /** One `whileTrue` iteration: a falsy condition returns the last body
      value; a truthy one runs the body and loops from the state the body
      leaves, with its value as the new last value. */
  lemma WhileUnfold(st: State, c: Node, body: seq<Node>, last: Value, fuel: nat, o: Outcome, b: Outcome)
    requires Good(st) && fuel > 0 && ValueIn(last, st.heap)
    requires o == EvalNode(st, c, fuel - 1) && o.res.Ok?
    requires LoopCondition(o.st.heap, o.res.value).Ok?
    requires b == EvalSeq(o.st, body, fuel - 1)
    ensures LoopCondition(o.st.heap, o.res.value) == Ok(false) ==> While(st, c, body, last, fuel) == Outcome(o.st, Ok(last))
    ensures LoopCondition(o.st.heap, o.res.value) == Ok(true) && b.res.Err? ==> While(st, c, body, last, fuel) == b
    ensures LoopCondition(o.st.heap, o.res.value) == Ok(true) && b.res.Ok? ==>
      While(st, c, body, last, fuel) == While(b.st, c, body, b.res.value, fuel - 1)
  {
  }
}
