/** A `whileTrue` loop run to completion: the counting loop
    `x < n whileTrue` over the body `x = x + 1` stops with `x` bound to a
    Number holding `n`, from any starting count up to `n`, and leaves
    every other variable as it was. */
module InterpreterLoops {
  import opened Wrappers
  import opened Ast
  import opened Objects
  import opened Builtins
  import opened Environment
  import opened Interpreter
  import opened InterpreterProps

  function CountCondition(x: string, n: nat): Node
  {
    MessageSend(Identifier(x), "<", [NumberLiteral(n)])
  }

  function Increment(x: string): Node
  {
    Assignment(x, MessageSend(Identifier(x), "+", [NumberLiteral(1)]))
  }

  /** `x < n whileTrue` with the indented body `x = x + 1`. */
  function CountLoop(x: string, n: nat): Node
  {
    MessageSend(CountCondition(x, n), "whileTrue", [Block([Increment(x)])])
  }

  /** Number holds its built-in `<` and `+` methods, as it does at
      start-up. */
  predicate NumberOps(h: Heap)
  {
    && NumberId in h.objs
    && "<" in h.objs[NumberId].slots && h.objs[NumberId].slots["<"] == SNative(NCmp(Lt))
    && "+" in h.objs[NumberId].slots && h.objs[NumberId].slots["+"] == SNative(NArith(Add))
  }

  /** `x` is bound to a Number box holding `k`, as a number literal or an
      arithmetic method makes it. */
  predicate Counts(st: State, x: string, k: int)
  {
    && Good(st) && NumberOps(st.heap)
    && x in st.env && st.env[x].VObj? && st.env[x].id in st.heap.objs
    && st.heap.objs[st.env[x].id] == Obj(Some(NumberId), map["value" := SInt(k)])
  }

  /** A loop run `r` from `st`, entered at the count `k` with the last
      body value `last`, that succeeded with `x` counted up to `n` and no
      other variable changed. Its answer is the last body value: the box
      the final pass bound to `x`, or `last` (with the variables as they
      were) when no pass ran. */
  predicate Finished(st: State, r: Outcome, x: string, k: int, n: int, last: Value)
  {
    && r.res.Ok? && Counts(r.st, x, n) && r.st.env == st.env[x := r.st.env[x]]
    && if k < n then r.res.value == r.st.env[x] else r.res.value == last && r.st.env == st.env
  }

  lemma ExtendsTrans(h1: Heap, h2: Heap, h3: Heap)
    requires Extends(h1, h2) && Extends(h2, h3)
    ensures Extends(h1, h3)
  {
  }

  /** A Number box holds its own `value` and takes its methods from
      Number. */
  lemma CounterSlots(h: Heap, id: ObjId, k: int)
    requires Valid(h) && Ordered(h) && HasPrototypes(h) && NumberOps(h) && id in h.objs
    requires h.objs[id] == Obj(Some(NumberId), map["value" := SInt(k)])
    ensures GetSlot(h, id, "value") == Found(SInt(k))
    ensures GetSlot(h, id, "<") == Found(SNative(NCmp(Lt)))
    ensures GetSlot(h, id, "+") == Found(SNative(NArith(Add)))
  {
    GetSlotOwn(h, id, "value");
    GetSlotDelegates(h, id, "<");
    GetSlotDelegates(h, id, "+");
    GetSlotOwn(h, NumberId, "<");
    GetSlotOwn(h, NumberId, "+");
  }

  /** Sending `m` with a number-literal argument to the object bound to
      `x`: the argument is boxed and the built-in method called on it. */
  lemma VariableSend(st: State, x: string, id: ObjId, m: string, y: nat, fuel: nat, n: Native, b: Alloc)
    requires Good(st) && fuel >= 2 && !IsControlMessage(m)
    requires Get(st.env, x) == Ok(VObj(id)) && id in st.heap.objs && Slot(st.heap, id, m) == Some(SNative(n))
    requires b == CreateNumber(st.heap, SInt(y))
    ensures EvalNode(st, MessageSend(Identifier(x), m, [NumberLiteral(y)]), fuel) ==
      Outcome(State(ApplyNative(b.heap, n, id, [VObj(b.id)]).heap, st.env), ApplyNative(b.heap, n, id, [VObj(b.id)]).result)
  {
    UnfoldIdentifier(st, x, fuel - 1);
    LiteralArgument(st, y, fuel - 1, b);
    NativeSend(st, Identifier(x), m, [NumberLiteral(y)], fuel, Outcome(st, Ok(VObj(id))), n,
      ArgsOutcome(State(b.heap, st.env), Ok([VObj(b.id)])));
  }

  /** `<` on a counter box holding `k` and a fresh box holding `n`: a
      fresh Boolean holding `k < n`; old objects are kept as they were. */
  lemma LessOnCounter(h: Heap, id: ObjId, k: int, n: nat, b: Alloc, ap: Applied)
    requires Valid(h) && Ordered(h) && HasPrototypes(h) && NumberOps(h) && id in h.objs
    requires h.objs[id] == Obj(Some(NumberId), map["value" := SInt(k)])
    requires b == CreateNumber(h, SInt(n)) && ap == ApplyNative(b.heap, NCmp(Lt), id, [VObj(b.id)])
    ensures Extends(h, ap.heap) && HasPrototypes(ap.heap) && NumberOps(ap.heap)
    ensures ap.result == Ok(VObj(b.heap.next)) && b.heap.next in ap.heap.objs
    ensures Slot(ap.heap, b.heap.next, "value") == Some(SBool(k < n))
  {
    CounterSlots(h, id, k);
    ExtendsGetSlot(h, b.heap, id, "value");
    BoxRoundTrip(h, NumberId, SInt(n), "value");
    CompareResult(b.heap, Lt, id, b.id, SInt(k), SInt(n), SBool(k < n));
    GetSlotOwn(ap.heap, b.heap.next, "value");
    ExtendsTrans(h, b.heap, ap.heap);
  }

  /** `+` on a counter box holding `k` and a fresh box holding 1: a fresh
      counter box holding `k + 1`; old objects are kept as they were. */
  lemma AddOnCounter(h: Heap, id: ObjId, k: int, b: Alloc, ap: Applied)
    requires Valid(h) && Ordered(h) && HasPrototypes(h) && NumberOps(h) && id in h.objs
    requires h.objs[id] == Obj(Some(NumberId), map["value" := SInt(k)])
    requires b == CreateNumber(h, SInt(1)) && ap == ApplyNative(b.heap, NArith(Add), id, [VObj(b.id)])
    ensures Extends(h, ap.heap) && HasPrototypes(ap.heap) && NumberOps(ap.heap)
    ensures ap.result == Ok(VObj(b.heap.next)) && b.heap.next in ap.heap.objs
    ensures ap.heap.objs[b.heap.next] == Obj(Some(NumberId), map["value" := SInt(k + 1)])
  {
    CounterSlots(h, id, k);
    ExtendsGetSlot(h, b.heap, id, "value");
    BoxRoundTrip(h, NumberId, SInt(1), "value");
    assert Arith(Add, SInt(k), SInt(1)) == Ok(SInt(k + 1));
    ArithResult(b.heap, Add, id, b.id, SInt(k), SInt(1), SInt(k + 1));
    ExtendsTrans(h, b.heap, ap.heap);
  }

  /** The loop condition `x < n` on a count `k`: a fresh Boolean holding
      `k < n`, with the count and the variables unchanged. */
  lemma CondStep(st: State, x: string, k: int, n: nat, fuel: nat, r: Outcome)
    requires Counts(st, x, k) && fuel >= 2 && r == EvalNode(st, CountCondition(x, n), fuel)
    ensures r.st.env == st.env && Counts(r.st, x, k)
    ensures r.res.Ok? && r.res.value.VObj? && r.res.value.id in r.st.heap.objs
    ensures Slot(r.st.heap, r.res.value.id, "value") == Some(SBool(k < n))
  {
    var h, id := st.heap, st.env[x].id;
    CounterSlots(h, id, k);
    var b := CreateNumber(h, SInt(n));
    VariableSend(st, x, id, "<", n, fuel, NCmp(Lt), b);
    LessOnCounter(h, id, k, n, b, ApplyNative(b.heap, NCmp(Lt), id, [VObj(b.id)]));
  }

  /** `x + 1` on a count `k`: a fresh Number box holding `k + 1`, with
      the variables unchanged. */
  lemma AddStep(st: State, x: string, k: int, fuel: nat, r: Outcome)
    requires Counts(st, x, k) && fuel >= 2
    requires r == EvalNode(st, MessageSend(Identifier(x), "+", [NumberLiteral(1)]), fuel)
    ensures r.st.env == st.env && Good(r.st) && NumberOps(r.st.heap)
    ensures r.res.Ok? && r.res.value.VObj? && r.res.value.id in r.st.heap.objs
    ensures r.st.heap.objs[r.res.value.id] == Obj(Some(NumberId), map["value" := SInt(k + 1)])
  {
    var h, id := st.heap, st.env[x].id;
    CounterSlots(h, id, k);
    var b := CreateNumber(h, SInt(1));
    VariableSend(st, x, id, "+", 1, fuel, NArith(Add), b);
    AddOnCounter(h, id, k, b, ApplyNative(b.heap, NArith(Add), id, [VObj(b.id)]));
  }

  /** The body `x = x + 1` on a count `k` leaves the count `k + 1` and
      rebinds nothing but `x`. */
  lemma BodyStep(st: State, x: string, k: int, fuel: nat, r: Outcome)
    requires ' ' !in x && Counts(st, x, k) && fuel >= 3 && r == EvalSeq(st, [Increment(x)], fuel)
    ensures r.res.Ok? && Counts(r.st, x, k + 1)
    ensures r.st.env == st.env[x := r.st.env[x]] && r.res.value == r.st.env[x]
  {
    var e := EvalNode(st, MessageSend(Identifier(x), "+", [NumberLiteral(1)]), fuel - 1);
    AddStep(st, x, k, fuel - 1, e);
    UnfoldAssign(st, x, MessageSend(Identifier(x), "+", [NumberLiteral(1)]), fuel, e);
  }

  /** A pass of the loop from a count `k < n`: the condition holds, the
      body runs, and the loop goes on from the count `k + 1`. */
  lemma PassStep(st: State, x: string, k: int, n: nat, last: Value, fuel: nat) returns (b: Outcome)
    requires ' ' !in x && Counts(st, x, k) && k < n && ValueIn(last, st.heap) && fuel >= 4
    ensures b.res.Ok? && Counts(b.st, x, k + 1) && ValueIn(b.res.value, b.st.heap)
    ensures Finished(b.st, While(b.st, CountCondition(x, n), [Increment(x)], b.res.value, fuel - 1), x, k + 1, n, b.res.value)
        ==> Finished(st, While(st, CountCondition(x, n), [Increment(x)], last, fuel), x, k, n, last)
  {
    var c := EvalNode(st, CountCondition(x, n), fuel - 1);
    CondStep(st, x, k, n, fuel - 1, c);
    assert LoopCondition(c.st.heap, c.res.value) == Ok(true);
    b := EvalSeq(c.st, [Increment(x)], fuel - 1);
    BodyStep(c.st, x, k, fuel - 1, b);
    WhileUnfold(st, CountCondition(x, n), [Increment(x)], last, fuel, c, b);
    FinishedFrom(st, b.st, While(b.st, CountCondition(x, n), [Increment(x)], b.res.value, fuel - 1), x, k, n, last);
  }

  /** A run that finishes from the state `mid` after one pass, which
      rebound only `x` and answered its new box, finishes from `st`. */
  lemma FinishedFrom(st: State, mid: State, r: Outcome, x: string, k: int, n: int, last: Value)
    requires x in mid.env && mid.env == st.env[x := mid.env[x]] && k < n
    ensures Finished(mid, r, x, k + 1, n, mid.env[x]) ==> Finished(st, r, x, k, n, last)
  {
  }

  /** A run that finishes from a state with the same variables as `st`
      finishes from `st`. */
  lemma FinishedSame(st: State, mid: State, r: Outcome, x: string, k: int, n: int, last: Value)
    requires mid.env == st.env
    ensures Finished(mid, r, x, k, n, last) ==> Finished(st, r, x, k, n, last)
  {
  }

  /** The last pass: at the count `n` the condition fails and the loop
      answers the last body value. */
  lemma StopStep(st: State, x: string, n: nat, last: Value, fuel: nat, r: Outcome)
    requires Counts(st, x, n) && ValueIn(last, st.heap) && fuel >= 3
    requires r == While(st, CountCondition(x, n), [Increment(x)], last, fuel)
    ensures r.res == Ok(last) && Counts(r.st, x, n) && r.st.env == st.env
    ensures Finished(st, r, x, n, n, last)
  {
    var c := EvalNode(st, CountCondition(x, n), fuel - 1);
    CondStep(st, x, n, n, fuel - 1, c);
    assert LoopCondition(c.st.heap, c.res.value) == Ok(false);
    WhileUnfold(st, CountCondition(x, n), [Increment(x)], last, fuel, c, EvalSeq(c.st, [Increment(x)], fuel - 1));
    assert st.env[x := st.env[x]] == st.env;
  }

  /** The loop from a count `k` up to `n`: each pass re-evaluates `x < n`
      and, while it holds, runs the body once; the loop ends with the
      count `n` and one fuel unit spent per pass, answering the last body
      value. */
  lemma {:induction false} WhileCounts(st: State, x: string, k: int, n: nat, last: Value, fuel: nat)
    requires ' ' !in x && Counts(st, x, k) && k <= n && ValueIn(last, st.heap) && fuel >= n - k + 3
    ensures Finished(st, While(st, CountCondition(x, n), [Increment(x)], last, fuel), x, k, n, last)
    decreases n - k, 1
  {
    if k == n {
      StopStep(st, x, n, last, fuel, While(st, CountCondition(x, n), [Increment(x)], last, fuel));
    } else {
      WhileCountsPass(st, x, k, n, last, fuel);
    }
  }

  /** The induction step of WhileCounts: one pass, then the rest of the
      loop from the count `k + 1`. */
  lemma {:induction false} WhileCountsPass(st: State, x: string, k: int, n: nat, last: Value, fuel: nat)
    requires ' ' !in x && Counts(st, x, k) && k < n && ValueIn(last, st.heap) && fuel >= n - k + 3
    ensures Finished(st, While(st, CountCondition(x, n), [Increment(x)], last, fuel), x, k, n, last)
    decreases n - k, 0
  {
    var b := PassStep(st, x, k, n, last, fuel);
    WhileCounts(b.st, x, k + 1, n, b.res.value, fuel - 1);
    PassThen(st, x, k, n, last, fuel, b);
  }

  /** What the induction step concludes from the pass and the rest of the
      loop. */
  lemma PassThen(st: State, x: string, k: int, n: nat, last: Value, fuel: nat, b: Outcome)
    requires Good(st) && ValueIn(last, st.heap) && fuel >= 1
    requires b.res.Ok? && Good(b.st) && ValueIn(b.res.value, b.st.heap)
    requires Finished(b.st, While(b.st, CountCondition(x, n), [Increment(x)], b.res.value, fuel - 1), x, k + 1, n, b.res.value)
         ==> Finished(st, While(st, CountCondition(x, n), [Increment(x)], last, fuel), x, k, n, last)
    requires Finished(b.st, While(b.st, CountCondition(x, n), [Increment(x)], b.res.value, fuel - 1), x, k + 1, n, b.res.value)
    ensures Finished(st, While(st, CountCondition(x, n), [Increment(x)], last, fuel), x, k, n, last)
  {
  }

  /** Entering the loop: the receiver `x < n` is evaluated once for the
      Boolean check, and the loop then starts over from that state, with
      the same variables. */
  lemma LoopEntry(st: State, x: string, k: int, n: nat, fuel: nat, r: Outcome) returns (o: Outcome)
    requires Counts(st, x, k) && fuel >= 3 && r == EvalNode(st, CountLoop(x, n), fuel)
    ensures Counts(o.st, x, k) && o.st.env == st.env
    ensures Finished(o.st, While(o.st, CountCondition(x, n), [Increment(x)], VNone, fuel - 1), x, k, n, VNone)
        ==> Finished(st, r, x, k, n, VNone)
  {
    o := EvalNode(st, CountCondition(x, n), fuel - 1);
    CondStep(st, x, k, n, fuel - 1, o);
    assert BooleanOf(o.st.heap, o.res.value) == Some(k < n);
    WhileTrueSend(st, CountCondition(x, n), [Increment(x)], fuel, o);
    FinishedSame(st, o.st, r, x, k, n, VNone);
  }

  /** `c whileTrue [body]` whose receiver evaluates to a Boolean runs the
      loop from the state after that first evaluation. */
  lemma WhileTrueSend(st: State, c: Node, body: seq<Node>, fuel: nat, o: Outcome)
    requires Good(st) && fuel > 0 && o == EvalNode(st, c, fuel - 1)
    requires o.res.Ok? && BooleanOf(o.st.heap, o.res.value).Some?
    ensures EvalNode(st, MessageSend(c, "whileTrue", [Block(body)]), fuel) == While(o.st, c, body, VNone, fuel - 1)
  {
    UnfoldSend(st, c, "whileTrue", [Block(body)], fuel, o);
  }

  /** What CountingLoop concludes from the loop entry and the loop run,
      with `done` standing for the loop run finishing. */
  lemma EntryThen(st: State, mid: State, x: string, k: int, n: nat, fuel: nat, r: Outcome, done: bool)
    requires Good(mid) && fuel >= 1
    requires done == Finished(mid, While(mid, CountCondition(x, n), [Increment(x)], VNone, fuel - 1), x, k, n, VNone)
    requires done ==> Finished(st, r, x, k, n, VNone)
    requires done
    ensures r.res.Ok? && Counts(r.st, x, n) && r.st.env == st.env[x := r.st.env[x]]
    ensures r.res == Ok(if k < n then r.st.env[x] else VNone)
  {
  }

  /** `x < n whileTrue` over `x = x + 1`, started with `x` bound to a
      Number holding `k <= n`, succeeds and leaves `x` bound to a Number
      holding `n`; no other variable changes. */
  lemma CountingLoop(st: State, x: string, k: int, n: nat, fuel: nat, r: Outcome)
    requires ' ' !in x && Counts(st, x, k) && k <= n && fuel >= n - k + 4
    requires r == EvalNode(st, CountLoop(x, n), fuel)
    ensures r.res.Ok? && Counts(r.st, x, n)
    ensures r.st.env == st.env[x := r.st.env[x]]
    ensures r.res == Ok(if k < n then r.st.env[x] else VNone)
  {
    var o := LoopEntry(st, x, k, n, fuel, r);
    WhileCounts(o.st, x, k, n, VNone, fuel - 1);
    EntryThen(st, o.st, x, k, n, fuel, r, Finished(o.st, While(o.st, CountCondition(x, n), [Increment(x)], VNone, fuel - 1), x, k, n, VNone));
  }
}
