/** The built-in prototypes of builtins.py (Object, Number, Boolean and
    String), the boxing helpers, and the host operators the Number methods
    apply to the raw values in `value` slots. */
module Builtins {
  import opened Wrappers
  import opened Objects

  /** The four prototypes are made at start-up, in this order. */
  const ObjectId: ObjId := 0
  const NumberId: ObjId := 1
  const BooleanId: ObjId := 2
  const StringId: ObjId := 3

  /** What the interpreter passes around: an object, or the host `None`
      that a skipped `ifTrue` or an empty block produces. */
  datatype Value = VNone | VObj(id: ObjId)

  /** Host-level failures, one per exception the runtime can raise. */
  datatype Fault =
    | NameError(name: string)         // an unbound variable
    | NoMethod(message: string)       // a receiver without the message's slot
    | MissingSlot(slot: string)       // `get_slot` found nothing
    | NoneAttribute                   // a slot read or write on `None`
    | NotCallable                     // the slot found for a message is not a method
    | Arity                           // a method called with the wrong number of arguments
    | OperandTypes                    // a host operator refused its operand types
    | ZeroDivision
    | Unmodelled                      // host behaviour outside the model: floats, `str % x`
    | BlockExpected(message: string)  // a control message without a block argument
    | NotBoolean(message: string)     // `ifTrue`/`whileTrue` to a non-Boolean
    | ConditionNotBoolean             // a `whileTrue` condition without a value slot
    | NonLocalReturn(value: Value)    // a `return`, never caught
    | NotImplemented(tag: string)     // a node kind the evaluator does not handle
    | UnknownLiteral(kind: string)
    | OutOfFuel                       // the evaluation bound of this model ran out

  function ValueSlot(v: Value): (s: SlotVal)
    ensures v.VNone? <==> s == SNone
    ensures v.VObj? ==> s == SRef(v.id)
  {
    match v
    case VNone => SNone
    case VObj(id) => SRef(id)
  }

  const ObjectSlots: map<string, SlotVal> := map["clone" := SNative(NClone), "print" := SNative(NPrint)]

  const NumberSlots: map<string, SlotVal> := map[
    "+" := SNative(NArith(Add)), "-" := SNative(NArith(Sub)), "*" := SNative(NArith(Mul)),
    "/" := SNative(NArith(Div)), "%" := SNative(NArith(Mod)),
    "<" := SNative(NCmp(Lt)), "<=" := SNative(NCmp(Le)), "==" := SNative(NCmp(Eq)),
    ">=" := SNative(NCmp(Ge)), ">" := SNative(NCmp(Gt))]

  /** The heap right after builtins.py has run. */
  function InitialHeap(): Heap
  {
    Heap(map[
      ObjectId := Obj(None, ObjectSlots),
      NumberId := Obj(Some(ObjectId), NumberSlots),
      BooleanId := Obj(Some(ObjectId), map[]),
      StringId := Obj(Some(ObjectId), map[])], 4)
  }

  /** The prototypes are in the heap. */
  predicate HasPrototypes(h: Heap)
  {
    ObjectId in h.objs && NumberId in h.objs && BooleanId in h.objs && StringId in h.objs
  }

  /** The start-up heap: well formed, acyclic, with the prototypes
      chained to Object. */
  lemma InitialHeapShape()
    ensures Valid(InitialHeap()) && Ordered(InitialHeap()) && HasPrototypes(InitialHeap())
    ensures forall p | p in {NumberId, BooleanId, StringId} :: InitialHeap().objs[p].proto == Some(ObjectId)
  {
  }

  /** Every prototype answers `clone` and `print` with Object's methods. */
  lemma InitialObjectMethods(p: ObjId, m: string)
    requires p in {ObjectId, NumberId, BooleanId, StringId} && m in ObjectSlots
    ensures Valid(InitialHeap())
    ensures GetSlot(InitialHeap(), p, m) == Found(ObjectSlots[m])
  {
    InitialHeapShape();
    var h := InitialHeap();
    GetSlotOwn(h, ObjectId, m);
    if p != ObjectId {
      GetSlotDelegates(h, p, m);
    }
  }

  /** Only Number has the arithmetic and comparison methods. */
  lemma InitialNumberMethods(p: ObjId, m: string)
    requires p in {ObjectId, NumberId, BooleanId, StringId} && m in NumberSlots
    ensures Valid(InitialHeap())
    ensures GetSlot(InitialHeap(), p, m) == (if p == NumberId then Found(NumberSlots[m]) else NotFound)
  {
    InitialHeapShape();
    var h := InitialHeap();
    assert m !in ObjectSlots;
    if p == NumberId {
      GetSlotOwn(h, p, m);
    } else {
      GetSlotRootMiss(h, ObjectId, m);
      if p != ObjectId {
        GetSlotDelegates(h, p, m);
      }
    }
  }

  /** Slot lookup on an acyclic heap: a value or nothing; never a cycle. */
  function Slot(h: Heap, id: ObjId, name: string): (r: Option<SlotVal>)
    requires Valid(h) && Ordered(h) && id in h.objs
    ensures GetSlot(h, id, name) == (if r.Some? then Found(r.value) else NotFound)
  {
    OrderedNeverCyclic(h, id, name);
    var l := GetSlot(h, id, name);
    if l.Found? then Some(l.value) else None
  }

  /** A clone of `proto` whose `value` slot holds `v`. */
  function Box(h: Heap, proto: ObjId, v: SlotVal): (r: Alloc)
    requires Valid(h) && proto in h.objs
    ensures Valid(r.heap) && (Ordered(h) ==> Ordered(r.heap)) && Extends(h, r.heap)
    ensures r.id !in h.objs && r.heap.objs.Keys == h.objs.Keys + {r.id}
    ensures r.heap.objs[r.id] == Obj(Some(proto), map["value" := v])
  {
    var a := Clone(h, proto);
    var h2 := SetSlot(a.heap, a.id, "value", v);
    assert forall o | o in h.objs :: o != a.id && h2.objs[o] == a.heap.objs[o];
    Alloc(h2, a.id)
  }

  /** `create_number` and `create_boolean`. */
  function CreateNumber(h: Heap, v: SlotVal): (r: Alloc)
    requires Valid(h) && NumberId in h.objs
    ensures Valid(r.heap) && (Ordered(h) ==> Ordered(r.heap)) && Extends(h, r.heap)
    ensures r.id !in h.objs && r.heap.objs.Keys == h.objs.Keys + {r.id}
    ensures r.heap.objs[r.id] == Obj(Some(NumberId), map["value" := v])
  {
    Box(h, NumberId, v)
  }

  function CreateBoolean(h: Heap, v: SlotVal): (r: Alloc)
    requires Valid(h) && BooleanId in h.objs
    ensures Valid(r.heap) && (Ordered(h) ==> Ordered(r.heap)) && Extends(h, r.heap)
    ensures r.id !in h.objs && r.heap.objs.Keys == h.objs.Keys + {r.id}
    ensures r.heap.objs[r.id] == Obj(Some(BooleanId), map["value" := v])
  {
    Box(h, BooleanId, v)
  }

  /** `create_string`: the text and its length. */
  function CreateString(h: Heap, s: string): (r: Alloc)
    requires Valid(h) && StringId in h.objs
    ensures Valid(r.heap) && (Ordered(h) ==> Ordered(r.heap)) && Extends(h, r.heap)
    ensures r.id !in h.objs && r.heap.objs.Keys == h.objs.Keys + {r.id}
    ensures r.heap.objs[r.id].proto == Some(StringId)
    ensures r.heap.objs[r.id].slots == map["value" := SStr(s), "length" := SInt(|s|)]
  {
    var a := Box(h, StringId, SStr(s));
    var h2 := SetSlot(a.heap, a.id, "length", SInt(|s|));
    assert forall o | o in h.objs :: o != a.id && h2.objs[o] == a.heap.objs[o];
    Alloc(h2, a.id)
  }

  /** A boxed value unboxes to what was boxed, and the box answers every
      other message the way its prototype does. */
  lemma BoxRoundTrip(h: Heap, proto: ObjId, v: SlotVal, m: string)
    requires Valid(h) && proto in h.objs
    ensures GetSlot(Box(h, proto, v).heap, Box(h, proto, v).id, "value") == Found(v)
    ensures m != "value" ==> GetSlot(Box(h, proto, v).heap, Box(h, proto, v).id, m) == GetSlot(h, proto, m)
  {
    var a := Box(h, proto, v);
    GetSlotOwn(a.heap, a.id, "value");
    if m != "value" {
      GetSlotDelegates(a.heap, a.id, m);
      ExtendsGetSlot(h, a.heap, proto, m);
    }
  }

  /** A boxed string unboxes to its text and its length. */
  lemma StringRoundTrip(h: Heap, s: string)
    requires Valid(h) && StringId in h.objs
    ensures GetSlot(CreateString(h, s).heap, CreateString(h, s).id, "value") == Found(SStr(s))
    ensures GetSlot(CreateString(h, s).heap, CreateString(h, s).id, "length") == Found(SInt(|s|))
  {
    var a := CreateString(h, s);
    GetSlotOwn(a.heap, a.id, "value");
    GetSlotOwn(a.heap, a.id, "length");
  }

  // ---------------------------------------------------------------------
  // Host operators on raw values
  // ---------------------------------------------------------------------

  /** Python booleans are the integers 0 and 1. */
  predicate IsNumeric(v: SlotVal) { v.SInt? || v.SBool? }
  predicate IsFloat(v: SlotVal) { v.SFloat? || v.SQuot? }

  function Num(v: SlotVal): int
    requires IsNumeric(v)
  {
    if v.SInt? then v.i else if v.b then 1 else 0
  }

  /** Python's `%` on integers: the remainder takes the divisor's sign. */
  function PyMod(a: int, b: int): int
    requires b != 0
  {
    if b < 0 && a % b != 0 then a % b + b else a % b
  }

  /** Python's `//` on integers: the quotient rounds towards minus infinity. */
  function PyFloorDiv(a: int, b: int): int
    requires b != 0
  {
    if b < 0 && a % b != 0 then a / b - 1 else a / b
  }

  /** Remainder and quotient are the ones floor division defines: the
      division identity holds and the remainder lies between zero and the
      divisor. */
  lemma PyModSpec(a: int, b: int)
    requires b != 0
    ensures a == b * PyFloorDiv(a, b) + PyMod(a, b)
    ensures b > 0 ==> 0 <= PyMod(a, b) < b
    ensures b < 0 ==> b < PyMod(a, b) <= 0
  {
    if b < 0 && a % b != 0 {
      assert b * (a / b - 1) == b * (a / b) - b;
    }
  }

  /** A nonzero multiple of `b` is at least as far from zero as `b`. */
  lemma {:induction false} MultipleFar(b: int, k: nat)
    requires k > 0
    ensures b >= 0 ==> b * k >= b
    ensures b < 0 ==> b * k <= b
    decreases k
  {
    if k > 1 {
      MultipleFar(b, k - 1);
      assert b * k == b * (k - 1) + b;
    }
  }

  /** ... and they are the only such pair. */
  lemma PyModUnique(a: int, b: int, q: int, r: int)
    requires b != 0 && a == b * q + r
    requires (b > 0 && 0 <= r < b) || (b < 0 && b < r <= 0)
    ensures q == PyFloorDiv(a, b) && r == PyMod(a, b)
  {
    PyModSpec(a, b);
    var q0, r0 := PyFloorDiv(a, b), PyMod(a, b);
    assert b * (q - q0) == r0 - r;
    assert b * (q0 - q) == r - r0;
    if q < q0 {
      MultipleFar(b, q0 - q);
    } else if q > q0 {
      MultipleFar(b, q - q0);
    }
  }

  /** `s * n`: the text repeated, empty for a count below one. */
  function Repeat(s: string, n: int): (r: string)
    decreases if n <= 0 then 0 else n
  {
    if n <= 0 then [] else s + Repeat(s, n - 1)
  }

  lemma {:induction false} RepeatLength(s: string, n: nat)
    ensures |Repeat(s, n)| == |s| * n
  {
    if n > 0 {
      RepeatLength(s, n - 1);
      assert |s| * n == |s| * (n - 1) + |s|;
    }
  }

  /** The repetition is `n` copies of the text laid end to end: copy `k`
      sits at offset `k * |s|`. */
  lemma {:induction false} RepeatBlock(s: string, n: nat, k: nat)
    requires k < n
    ensures |s| * k + |s| <= |Repeat(s, n)|
    ensures Repeat(s, n)[|s| * k .. |s| * k + |s|] == s
    decreases k
  {
    RepeatLength(s, n);
    RepeatLength(s, n - 1);
    if k > 0 {
      RepeatBlock(s, n - 1, k - 1);
      assert |s| * k == |s| * (k - 1) + |s|;
    }
  }

  /** Python's `<` on strings: code-point order, a proper prefix first. */
  predicate StrLess(a: string, b: string)
  {
    if |a| == 0 then |b| > 0
    else if |b| == 0 then false
    else if a[0] != b[0] then a[0] < b[0]
    else StrLess(a[1..], b[1..])
  }

  /** String order is a strict total order. */
  lemma {:induction false} StrLessTotal(a: string, b: string)
    ensures !(StrLess(a, b) && StrLess(b, a))
    ensures a != b ==> StrLess(a, b) || StrLess(b, a)
    ensures !StrLess(a, a)
  {
    if |a| > 0 && |b| > 0 {
      StrLessTotal(a[1..], b[1..]);
      if a[0] == b[0] && a != b {
        assert a == [a[0]] + a[1..] && b == [b[0]] + b[1..];
      }
    }
    if |a| > 0 {
      StrLessTotal(a[1..], a[1..]);
    }
  }

  lemma {:induction false} StrLessTrans(a: string, b: string, c: string)
    requires StrLess(a, b) && StrLess(b, c)
    ensures StrLess(a, c)
  {
    if |a| > 0 && |b| > 0 && |c| > 0 && a[0] == b[0] && b[0] == c[0] {
      StrLessTrans(a[1..], b[1..], c[1..]);
    }
  }

  /** The arithmetic methods' operator on two raw values. Integers and
      booleans are numbers; `+` joins two strings and `*` repeats one; a
      true division gives a float, kept as its two operands. */
  function Arith(op: ArithOp, a: SlotVal, b: SlotVal): Result<SlotVal, Fault>
  {
    if IsFloat(a) || IsFloat(b) then Err(Unmodelled)
    else if IsNumeric(a) && IsNumeric(b) then
      var x, y := Num(a), Num(b);
      match op
      case Add => Ok(SInt(x + y))
      case Sub => Ok(SInt(x - y))
      case Mul => Ok(SInt(x * y))
      case Div => if y == 0 then Err(ZeroDivision) else Ok(SQuot(x, y))
      case Mod => if y == 0 then Err(ZeroDivision) else Ok(SInt(PyMod(x, y)))
    else match op
      case Add => if a.SStr? && b.SStr? then Ok(SStr(a.s + b.s)) else Err(OperandTypes)
      case Mul =>
        if a.SStr? && IsNumeric(b) then Ok(SStr(Repeat(a.s, Num(b))))
        else if IsNumeric(a) && b.SStr? then Ok(SStr(Repeat(b.s, Num(a))))
        else Err(OperandTypes)
      case Mod => if a.SStr? then Err(Unmodelled) else Err(OperandTypes)
      case _ => Err(OperandTypes)
  }

  /** Python's `==` on raw values: numbers by value, everything else by
      equal contents (objects and methods by identity). */
  function Equal(a: SlotVal, b: SlotVal): bool
    requires !IsFloat(a) && !IsFloat(b)
  {
    if IsNumeric(a) && IsNumeric(b) then Num(a) == Num(b) else a == b
  }

  /** The comparison methods' operator: numbers against numbers and
      strings against strings; `==` accepts any pair. */
  function Compare(op: CmpOp, a: SlotVal, b: SlotVal): Result<SlotVal, Fault>
  {
    if IsFloat(a) || IsFloat(b) then Err(Unmodelled)
    else if op == Eq then Ok(SBool(Equal(a, b)))
    else if IsNumeric(a) && IsNumeric(b) then Ok(SBool(IntOrder(op, Num(a), Num(b))))
    else if a.SStr? && b.SStr? then Ok(SBool(StrOrder(op, a.s, b.s)))
    else Err(OperandTypes)
  }

  function IntOrder(op: CmpOp, x: int, y: int): bool
  {
    match op
    case Lt => x < y
    case Le => x <= y
    case Eq => x == y
    case Ge => x >= y
    case Gt => x > y
  }

  function StrOrder(op: CmpOp, a: string, b: string): bool
  {
    match op
    case Lt => StrLess(a, b)
    case Le => !StrLess(b, a)
    case Eq => a == b
    case Ge => !StrLess(a, b)
    case Gt => StrLess(b, a)
  }

  /** The five comparisons agree with one another on every pair of
      comparable values: `<=` is `<` or `==`, `>` and `>=` are the
      converses, and exactly one of `<`, `==`, `>` holds. */
  lemma CompareConsistent(a: SlotVal, b: SlotVal)
    requires (IsNumeric(a) && IsNumeric(b)) || (a.SStr? && b.SStr?)
    ensures Compare(Le, a, b) == Ok(SBool(Compare(Lt, a, b).value.b || Compare(Eq, a, b).value.b))
    ensures Compare(Gt, a, b) == Compare(Lt, b, a) && Compare(Ge, a, b) == Compare(Le, b, a)
    ensures Compare(Lt, a, b).value.b || Compare(Eq, a, b).value.b || Compare(Gt, a, b).value.b
    ensures !(Compare(Lt, a, b).value.b && Compare(Gt, a, b).value.b)
    ensures !(Compare(Lt, a, b).value.b && Compare(Eq, a, b).value.b)
  {
    if a.SStr? && b.SStr? {
      StrLessTotal(a.s, b.s);
    }
  }

  // ---------------------------------------------------------------------
  // The native methods
  // ---------------------------------------------------------------------

  /** The heap after a call, and what the call returned or raised. */
  datatype Applied = Applied(heap: Heap, result: Result<Value, Fault>)

  predicate ValueIn(v: Value, h: Heap)
  {
    v.VObj? ==> v.id in h.objs
  }

  /** The raw `value` of an argument, read the way `get_slot` does. */
  function RawValue(h: Heap, v: Value): Result<SlotVal, Fault>
    requires Valid(h) && Ordered(h) && ValueIn(v, h)
  {
    match v
    case VNone => Err(NoneAttribute)
    case VObj(id) =>
      match Slot(h, id, "value")
      case Some(x) => Ok(x)
      case None => Err(MissingSlot("value"))
  }

  /** Calls built-in method `n` with receiver `recv`. An arithmetic or
      comparison method first clones Number (or Boolean), then reads the
      receiver's raw value and then the argument's, and stores the
      operator's result in the clone. */
  function ApplyNative(h: Heap, n: Native, recv: ObjId, args: seq<Value>): (r: Applied)
    requires Valid(h) && Ordered(h) && HasPrototypes(h) && recv in h.objs
    requires forall i | 0 <= i < |args| :: ValueIn(args[i], h)
    ensures Valid(r.heap) && Ordered(r.heap) && Extends(h, r.heap)
    ensures r.result.Ok? ==> ValueIn(r.result.value, r.heap)
  {
    match n
    case NClone =>
      if |args| != 0 then Applied(h, Err(Arity))
      else var a := Clone(h, recv); Applied(a.heap, Ok(VObj(a.id)))
    case NPrint =>
      if |args| != 0 then Applied(h, Err(Arity)) else Applied(h, Ok(VObj(recv)))
    case NArith(op) =>
      if |args| != 1 then Applied(h, Err(Arity))
      else
        var a := Clone(h, NumberId);
        ExtendsValue(h, a.heap, args[0]);
        var r := Operate(a, recv, args[0], n);
        FrameExtends(h, a, r.heap);
        r
    case NCmp(op) =>
      if |args| != 1 then Applied(h, Err(Arity))
      else
        var a := Clone(h, BooleanId);
        ExtendsValue(h, a.heap, args[0]);
        var r := Operate(a, recv, args[0], n);
        FrameExtends(h, a, r.heap);
        r
  }

  /** `h2` differs from `h` at most in object `id`, which stays in use. */
  predicate FrameExcept(h: Heap, h2: Heap, id: ObjId)
  {
    && h.next <= h2.next && id in h2.objs
    && (forall o | o in h.objs && o != id :: o in h2.objs && h2.objs[o] == h.objs[o])
  }

  /** Changing only a fresh object extends the heap it was made from. */
  lemma FrameExtends(h: Heap, a: Alloc, h2: Heap)
    requires Extends(h, a.heap) && a.id !in h.objs && FrameExcept(a.heap, h2, a.id)
    ensures Extends(h, h2)
  {
  }

  lemma ExtendsValue(h: Heap, h2: Heap, v: Value)
    requires Extends(h, h2) && ValueIn(v, h)
    ensures ValueIn(v, h2)
  {
  }

  /** The host operator behind an arithmetic or comparison method. */
  function Operator(n: Native, x: SlotVal, y: SlotVal): Result<SlotVal, Fault>
    requires n.NArith? || n.NCmp?
  {
    if n.NArith? then Arith(n.aop, x, y) else Compare(n.cop, x, y)
  }

  /** The body shared by the operator methods, given the fresh result
      object `a.id`. */
  function Operate(a: Alloc, recv: ObjId, other: Value, n: Native): (r: Applied)
    requires Valid(a.heap) && Ordered(a.heap) && recv in a.heap.objs && a.id in a.heap.objs
    requires ValueIn(other, a.heap) && (n.NArith? || n.NCmp?)
    ensures Valid(r.heap) && Ordered(r.heap) && FrameExcept(a.heap, r.heap, a.id)
    ensures r.result.Ok? ==> r.result == Ok(VObj(a.id))
  {
    match Slot(a.heap, recv, "value")
    case None => Applied(a.heap, Err(MissingSlot("value")))
    case Some(x) =>
      match RawValue(a.heap, other)
      case Err(e) => Applied(a.heap, Err(e))
      case Ok(y) =>
        match Operator(n, x, y)
        case Err(e) => Applied(a.heap, Err(e))
        case Ok(v) =>
          var h2 := SetSlot(a.heap, a.id, "value", v);
          Applied(h2, Ok(VObj(a.id)))
  }

  /** An arithmetic method whose receiver and argument have raw values
      the operator accepts answers a fresh Number holding the result. */
  lemma ArithResult(h: Heap, op: ArithOp, recv: ObjId, other: ObjId, x: SlotVal, y: SlotVal, v: SlotVal)
    requires Valid(h) && Ordered(h) && HasPrototypes(h) && recv in h.objs && other in h.objs
    requires GetSlot(h, recv, "value") == Found(x) && GetSlot(h, other, "value") == Found(y)
    requires Arith(op, x, y) == Ok(v)
    ensures ApplyNative(h, NArith(op), recv, [VObj(other)]).result == Ok(VObj(h.next))
    ensures h.next !in h.objs && h.next in ApplyNative(h, NArith(op), recv, [VObj(other)]).heap.objs
    ensures ApplyNative(h, NArith(op), recv, [VObj(other)]).heap.objs[h.next] == Obj(Some(NumberId), map["value" := v])
  {
    var c := Clone(h, NumberId);
    ExtendsGetSlot(h, c.heap, recv, "value");
    ExtendsGetSlot(h, c.heap, other, "value");
  }

  /** ... and a comparison method answers a fresh Boolean. */
  lemma CompareResult(h: Heap, op: CmpOp, recv: ObjId, other: ObjId, x: SlotVal, y: SlotVal, v: SlotVal)
    requires Valid(h) && Ordered(h) && HasPrototypes(h) && recv in h.objs && other in h.objs
    requires GetSlot(h, recv, "value") == Found(x) && GetSlot(h, other, "value") == Found(y)
    requires Compare(op, x, y) == Ok(v)
    ensures ApplyNative(h, NCmp(op), recv, [VObj(other)]).result == Ok(VObj(h.next))
    ensures h.next !in h.objs && h.next in ApplyNative(h, NCmp(op), recv, [VObj(other)]).heap.objs
    ensures ApplyNative(h, NCmp(op), recv, [VObj(other)]).heap.objs[h.next] == Obj(Some(BooleanId), map["value" := v])
  {
    var c := Clone(h, BooleanId);
    ExtendsGetSlot(h, c.heap, recv, "value");
    ExtendsGetSlot(h, c.heap, other, "value");
  }

  /** An operator the raw values make fail raises its fault from the
      method. */
  lemma OperatorFault(h: Heap, n: Native, recv: ObjId, other: ObjId, x: SlotVal, y: SlotVal, e: Fault)
    requires Valid(h) && Ordered(h) && HasPrototypes(h) && recv in h.objs && other in h.objs
    requires n.NArith? || n.NCmp?
    requires GetSlot(h, recv, "value") == Found(x) && GetSlot(h, other, "value") == Found(y)
    requires (if n.NArith? then Arith(n.aop, x, y) else Compare(n.cop, x, y)) == Err(e)
    ensures ApplyNative(h, n, recv, [VObj(other)]).result == Err(e)
  {
    var c := Clone(h, if n.NArith? then NumberId else BooleanId);
    ExtendsGetSlot(h, c.heap, recv, "value");
    ExtendsGetSlot(h, c.heap, other, "value");
  }
}
