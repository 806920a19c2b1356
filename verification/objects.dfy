/** The prototype-based object model of objects.py, as an arena heap: every
    `MyLangObject` is an entry of a map from object ids to records holding
    its prototype link and its own slots. */
module Objects {
  import opened Wrappers

  type ObjId = nat

  datatype ArithOp = Add | Sub | Mul | Div | Mod
  datatype CmpOp = Lt | Le | Eq | Ge | Gt

  /** The built-in methods, as tags instead of host closures. */
  datatype Native = NClone | NPrint | NArith(aop: ArithOp) | NCmp(cop: CmpOp)

  /** What a slot can hold: a raw host value, an object, `None`, or a
      built-in method. Floats are not interpreted: a float literal keeps
      its digits, and a true division keeps its two integer operands. */
  datatype SlotVal =
    | SInt(i: int)
    | SBool(b: bool)
    | SStr(s: string)
    | SFloat(text: string)
    | SQuot(num: int, den: int)
    | SNone
    | SRef(ref: ObjId)
    | SNative(native: Native)

  datatype Obj = Obj(proto: Option<ObjId>, slots: map<string, SlotVal>)

  datatype Heap = Heap(objs: map<ObjId, Obj>, next: ObjId)

  /** Every id in use is below `next`, and every prototype link points at
      an object in use. Cycles are allowed: a chain can be closed by hand. */
  predicate Valid(h: Heap)
  {
    && (forall id | id in h.objs :: id < h.next)
    && (forall id | id in h.objs :: h.objs[id].proto.Some? ==> h.objs[id].proto.value in h.objs)
  }

  /** Every prototype was made before the objects that clone it, so no
      chain can close into a cycle. */
  predicate Ordered(h: Heap)
  {
    forall id | id in h.objs :: h.objs[id].proto.Some? ==> h.objs[id].proto.value < id
  }

  /** `h2` keeps every object of `h` as it was, and ids only grow. */
  predicate Extends(h: Heap, h2: Heap)
  {
    && h.next <= h2.next
    && (forall id | id in h.objs :: id in h2.objs && h2.objs[id] == h.objs[id])
  }

  /** `h2` keeps every object of `h` with its prototype link: only slots
      change and only new objects appear. */
  predicate Grows(h: Heap, h2: Heap)
  {
    && h.next <= h2.next
    && (forall id | id in h.objs :: id in h2.objs && h2.objs[id].proto == h.objs[id].proto)
  }

  datatype Alloc = Alloc(heap: Heap, id: ObjId)

  /** `clone`: a new object with no own slots whose prototype is `id`. */
  function Clone(h: Heap, id: ObjId): (r: Alloc)
    requires Valid(h) && id in h.objs
    ensures Valid(r.heap) && (Ordered(h) ==> Ordered(r.heap))
    ensures r.id !in h.objs && r.id in r.heap.objs
    ensures r.heap.objs[r.id] == Obj(Some(id), map[])
    ensures r.heap.objs.Keys == h.objs.Keys + {r.id}
    ensures Extends(h, r.heap)
  {
    Alloc(Heap(h.objs[h.next := Obj(Some(id), map[])], h.next + 1), h.next)
  }

  /** `set_slot`: writes or overwrites one own slot of `id`; its prototype
      and every other object stay as they were. */
  function SetSlot(h: Heap, id: ObjId, name: string, v: SlotVal): (h2: Heap)
    requires Valid(h) && id in h.objs
    ensures Valid(h2) && (Ordered(h) ==> Ordered(h2))
    ensures h2.next == h.next && h2.objs.Keys == h.objs.Keys
    ensures h2.objs[id].proto == h.objs[id].proto
    ensures h2.objs[id].slots == h.objs[id].slots[name := v]
    ensures forall o | o in h.objs && o != id :: h2.objs[o] == h.objs[o]
  {
    var o := h.objs[id];
    Heap(h.objs[id := Obj(o.proto, o.slots[name := v])], h.next)
  }

  datatype LookupResult = Found(value: SlotVal) | NotFound | Cyclic

  /** `get_slot` from `id`, with the ids already visited in `visited`: the
      own slot first, then the prototype. Coming back to a visited object
      means the chain is a cycle without the slot, where the source
      recurses until the host gives up. */
  function LookupFrom(h: Heap, id: ObjId, name: string, visited: set<ObjId>): LookupResult
    requires Valid(h) && id in h.objs
    decreases h.objs.Keys - visited
  {
    if id in visited then Cyclic
    else if name in h.objs[id].slots then Found(h.objs[id].slots[name])
    else match h.objs[id].proto
      case None => NotFound
      case Some(p) => LookupFrom(h, p, name, visited + {id})
  }

  function GetSlot(h: Heap, id: ObjId, name: string): LookupResult
    requires Valid(h) && id in h.objs
  {
    LookupFrom(h, id, name, {})
  }

  // ---------------------------------------------------------------------
  // The reference semantics: the chain of ancestors
  // ---------------------------------------------------------------------

  /** The `k`-th object of the prototype chain from `id` (`id` itself for
      `k` = 0), if the chain is that long. */
  function Anc(h: Heap, id: ObjId, k: nat): (r: Option<ObjId>)
    requires Valid(h) && id in h.objs
    ensures r.Some? ==> r.value in h.objs
    decreases k
  {
    if k == 0 then Some(id)
    else match h.objs[id].proto
      case None => None
      case Some(p) => Anc(h, p, k - 1)
  }

  /** The `k`-th object of the chain exists and lacks `name`. */
  predicate Missing(h: Heap, id: ObjId, name: string, k: nat)
    requires Valid(h) && id in h.objs
  {
    Anc(h, id, k).Some? && name !in h.objs[Anc(h, id, k).value].slots
  }

  /** The `k`-th object of the chain exists and has `name` as an own slot. */
  predicate HoldsAt(h: Heap, id: ObjId, name: string, k: nat)
    requires Valid(h) && id in h.objs
  {
    Anc(h, id, k).Some? && name in h.objs[Anc(h, id, k).value].slots
  }

  function ValueAt(h: Heap, id: ObjId, name: string, k: nat): SlotVal
    requires Valid(h) && id in h.objs && HoldsAt(h, id, name, k)
  {
    h.objs[Anc(h, id, k).value].slots[name]
  }

  ghost predicate MissingBelow(h: Heap, id: ObjId, name: string, k: nat)
    requires Valid(h) && id in h.objs
  {
    forall j: nat | j < k :: Missing(h, id, name, j)
  }

  /** What looking `name` up from `id` means: the value at the first
      object of the chain that has the slot; no such value when the chain
      ends first; and a cycle when the chain never ends and never has it. */
  ghost predicate Resolves(h: Heap, id: ObjId, name: string, r: LookupResult)
    requires Valid(h) && id in h.objs
  {
    match r
    case Found(v) => exists k: nat :: HoldsAt(h, id, name, k) && ValueAt(h, id, name, k) == v && MissingBelow(h, id, name, k)
    case NotFound => exists k: nat :: Anc(h, id, k).None? && MissingBelow(h, id, name, k)
    case Cyclic => forall k: nat :: Missing(h, id, name, k)
  }

  lemma {:induction false} AncNoneStays(h: Heap, id: ObjId, k: nat, k2: nat)
    requires Valid(h) && id in h.objs && Anc(h, id, k).None? && k <= k2
    ensures Anc(h, id, k2).None?
    decreases k
  {
    if k > 0 {
      match h.objs[id].proto {
        case None =>
        case Some(p) => AncNoneStays(h, p, k - 1, k2 - 1);
      }
    }
  }

  /** Walking `a` steps and then `m` more is walking `a + m` steps. */
  lemma {:induction false} AncAdd(h: Heap, id: ObjId, a: nat, m: nat)
    requires Valid(h) && id in h.objs && Anc(h, id, a).Some?
    ensures Anc(h, id, a + m) == Anc(h, Anc(h, id, a).value, m)
    decreases a
  {
    if a > 0 {
      AncAdd(h, h.objs[id].proto.value, a - 1, m);
    }
  }

  /** One more step of the chain is one prototype link further. */
  lemma AncNext(h: Heap, id: ObjId, k: nat)
    requires Valid(h) && id in h.objs && Anc(h, id, k).Some?
    ensures Anc(h, id, k + 1) == h.objs[Anc(h, id, k).value].proto
  {
    AncAdd(h, id, k, 1);
  }

  /** The ids of the first `k` objects of the chain. */
  function AncSet(h: Heap, id: ObjId, k: nat): set<ObjId>
    requires Valid(h) && id in h.objs
  {
    set j: nat | j < k && Anc(h, id, j).Some? :: Anc(h, id, j).value
  }

  lemma AncSetNext(h: Heap, id: ObjId, k: nat)
    requires Valid(h) && id in h.objs && Anc(h, id, k).Some?
    ensures AncSet(h, id, k + 1) == AncSet(h, id, k) + {Anc(h, id, k).value}
  {
  }

  lemma AncSetBounded(h: Heap, id: ObjId, k: nat)
    requires Valid(h) && id in h.objs
    ensures AncSet(h, id, k) <= h.objs.Keys
  {
  }

  /** A chain that comes back to the object it had at step `j0` repeats
      from there on. */
  lemma {:induction false} Periodic(h: Heap, id: ObjId, j0: nat, k: nat, i: nat)
    requires Valid(h) && id in h.objs && j0 < k <= i
    requires Anc(h, id, j0).Some? && Anc(h, id, j0) == Anc(h, id, k)
    ensures Anc(h, id, i) == Anc(h, id, i - (k - j0))
  {
    var x := Anc(h, id, k).value;
    AncAdd(h, id, k, i - k);
    AncAdd(h, id, j0, i - k);
  }

  /** On such a chain, an object lacking the slot at every step below `k`
      lacks it at every step. */
  lemma {:induction false} MissingForever(h: Heap, id: ObjId, name: string, j0: nat, k: nat, i: nat)
    requires Valid(h) && id in h.objs && j0 < k
    requires Anc(h, id, j0).Some? && Anc(h, id, j0) == Anc(h, id, k)
    requires MissingBelow(h, id, name, k)
    ensures Missing(h, id, name, i)
    decreases i
  {
    if i >= k {
      Periodic(h, id, j0, k, i);
      MissingForever(h, id, name, j0, k, i - (k - j0));
    }
  }

  /** The lookup loop, started at step `k` of the chain from `root` with
      the earlier steps visited and lacking the slot, gives an answer
      that the reference semantics agrees with. */
  lemma {:induction false} LookupFromSound(h: Heap, root: ObjId, name: string, k: nat, id: ObjId, visited: set<ObjId>)
    requires Valid(h) && root in h.objs && Anc(h, root, k) == Some(id)
    requires visited == AncSet(h, root, k) && MissingBelow(h, root, name, k)
    ensures id in h.objs && Resolves(h, root, name, LookupFrom(h, id, name, visited))
    decreases h.objs.Keys - visited
  {
    if id in visited {
      var j0: nat :| j0 < k && Anc(h, root, j0).Some? && Anc(h, root, j0).value == id;
      forall i: nat
        ensures Missing(h, root, name, i)
      {
        MissingForever(h, root, name, j0, k, i);
      }
    } else if name in h.objs[id].slots {
      assert HoldsAt(h, root, name, k);
    } else {
      AncNext(h, root, k);
      assert Missing(h, root, name, k);
      assert MissingBelow(h, root, name, k + 1);
      match h.objs[id].proto {
        case None =>
          assert Anc(h, root, k + 1).None?;
        case Some(p) =>
          AncSetNext(h, root, k);
          AncSetBounded(h, root, k);
          LookupFromSound(h, root, name, k + 1, p, visited + {id});
      }
    }
  }

  /** A holder at step `k1` comes no earlier than a clean prefix of `k2`. */
  lemma HolderNotBelow(h: Heap, id: ObjId, name: string, k1: nat, k2: nat)
    requires Valid(h) && id in h.objs && HoldsAt(h, id, name, k1) && MissingBelow(h, id, name, k2)
    ensures k2 <= k1
  {
    assert k1 < k2 ==> Missing(h, id, name, k1);
  }

  /** A holder at step `k1` comes before the end of the chain at `k2`. */
  lemma HolderBeforeEnd(h: Heap, id: ObjId, k1: nat, k2: nat)
    requires Valid(h) && id in h.objs && Anc(h, id, k1).Some? && Anc(h, id, k2).None?
    ensures k1 < k2
  {
    AncNoneStays(h, id, k2, if k1 < k2 then k2 else k1);
  }

  /** A chain judged a cycle lacks the slot at every step. */
  lemma CycleMissing(h: Heap, id: ObjId, name: string, k: nat)
    requires Valid(h) && id in h.objs && Resolves(h, id, name, Cyclic)
    ensures Anc(h, id, k).Some? && !HoldsAt(h, id, name, k)
  {
    assert Missing(h, id, name, k);
  }

  /** At most one answer meets the reference semantics. */
  lemma ResolvesUnique(h: Heap, id: ObjId, name: string, r1: LookupResult, r2: LookupResult)
    requires Valid(h) && id in h.objs && Resolves(h, id, name, r1) && Resolves(h, id, name, r2)
    ensures r1 == r2
  {
    match r1 {
      case Found(v1) =>
        var k1: nat :| HoldsAt(h, id, name, k1) && ValueAt(h, id, name, k1) == v1 && MissingBelow(h, id, name, k1);
        match r2 {
          case Found(v2) =>
            var k2: nat :| HoldsAt(h, id, name, k2) && ValueAt(h, id, name, k2) == v2 && MissingBelow(h, id, name, k2);
            HolderNotBelow(h, id, name, k1, k2);
            HolderNotBelow(h, id, name, k2, k1);
          case NotFound =>
            var k2: nat :| Anc(h, id, k2).None? && MissingBelow(h, id, name, k2);
            HolderNotBelow(h, id, name, k1, k2);
            HolderBeforeEnd(h, id, k1, k2);
          case Cyclic =>
            CycleMissing(h, id, name, k1);
        }
      case NotFound =>
        var k1: nat :| Anc(h, id, k1).None? && MissingBelow(h, id, name, k1);
        match r2 {
          case Found(v2) =>
            var k2: nat :| HoldsAt(h, id, name, k2) && ValueAt(h, id, name, k2) == v2 && MissingBelow(h, id, name, k2);
            HolderNotBelow(h, id, name, k2, k1);
            HolderBeforeEnd(h, id, k2, k1);
          case NotFound =>
          case Cyclic =>
            CycleMissing(h, id, name, k1);
        }
      case Cyclic =>
        match r2 {
          case Found(v2) =>
            var k2: nat :| HoldsAt(h, id, name, k2) && ValueAt(h, id, name, k2) == v2 && MissingBelow(h, id, name, k2);
            CycleMissing(h, id, name, k2);
          case NotFound =>
            var k2: nat :| Anc(h, id, k2).None? && MissingBelow(h, id, name, k2);
            CycleMissing(h, id, name, k2);
          case Cyclic =>
        }
    }
  }

  /** `get_slot` is the reference semantics: its answer is the one answer
      the chain of ancestors determines. */
  lemma GetSlotIff(h: Heap, id: ObjId, name: string, r: LookupResult)
    requires Valid(h) && id in h.objs
    ensures GetSlot(h, id, name) == r <==> Resolves(h, id, name, r)
  {
    assert AncSet(h, id, 0) == {};
    LookupFromSound(h, id, name, 0, id, {});
    if Resolves(h, id, name, r) {
      ResolvesUnique(h, id, name, r, GetSlot(h, id, name));
    }
  }

  // ---------------------------------------------------------------------
  // Consequences
  // ---------------------------------------------------------------------

  /** An own slot shadows every prototype. */
  lemma GetSlotOwn(h: Heap, id: ObjId, name: string)
    requires Valid(h) && id in h.objs && name in h.objs[id].slots
    ensures GetSlot(h, id, name) == Found(h.objs[id].slots[name])
  {
    assert HoldsAt(h, id, name, 0);
    GetSlotIff(h, id, name, Found(h.objs[id].slots[name]));
  }

  /** A missing own slot is looked up in the prototype, with the same
      answer as asking the prototype directly (even on a cycle). */
  lemma GetSlotDelegates(h: Heap, id: ObjId, name: string)
    requires Valid(h) && id in h.objs && name !in h.objs[id].slots && h.objs[id].proto.Some?
    ensures GetSlot(h, id, name) == GetSlot(h, h.objs[id].proto.value, name)
  {
    var p := h.objs[id].proto.value;
    var r := GetSlot(h, p, name);
    GetSlotIff(h, p, name, r);
    assert Missing(h, id, name, 0);
    assert forall k: nat :: Anc(h, id, k + 1) == Anc(h, p, k);
    match r {
      case Found(v) =>
        var k: nat :| HoldsAt(h, p, name, k) && ValueAt(h, p, name, k) == v && MissingBelow(h, p, name, k);
        assert HoldsAt(h, id, name, k + 1);
        assert forall j: nat | j < k + 1 :: Missing(h, id, name, j) by {
          forall j: nat | j < k + 1 ensures Missing(h, id, name, j) {
            if j > 0 { assert Missing(h, p, name, j - 1); }
          }
        }
      case NotFound =>
        var k: nat :| Anc(h, p, k).None? && MissingBelow(h, p, name, k);
        assert Anc(h, id, k + 1).None?;
        assert forall j: nat | j < k + 1 :: Missing(h, id, name, j) by {
          forall j: nat | j < k + 1 ensures Missing(h, id, name, j) {
            if j > 0 { assert Missing(h, p, name, j - 1); }
          }
        }
      case Cyclic =>
        forall k: nat ensures Missing(h, id, name, k) {
          if k > 0 { assert Missing(h, p, name, k - 1); }
        }
    }
    GetSlotIff(h, id, name, r);
  }

  /** A name on no object of a chain that ends is not found. */
  lemma GetSlotRootMiss(h: Heap, id: ObjId, name: string)
    requires Valid(h) && id in h.objs && name !in h.objs[id].slots && h.objs[id].proto.None?
    ensures GetSlot(h, id, name) == NotFound
  {
    assert Anc(h, id, 1).None? && Missing(h, id, name, 0);
    GetSlotIff(h, id, name, NotFound);
  }

  /** A chain in an ordered heap ends within `id + 1` steps. */
  lemma {:induction false} OrderedChainEnds(h: Heap, id: ObjId, k: nat)
    requires Valid(h) && Ordered(h) && id in h.objs && k > id
    ensures Anc(h, id, k).None?
    decreases k
  {
    match h.objs[id].proto {
      case None =>
      case Some(p) => OrderedChainEnds(h, p, k - 1);
    }
  }

  /** Lookup never reports a cycle on an ordered heap. */
  lemma OrderedNeverCyclic(h: Heap, id: ObjId, name: string)
    requires Valid(h) && Ordered(h) && id in h.objs
    ensures GetSlot(h, id, name) != Cyclic
  {
    GetSlotIff(h, id, name, Cyclic);
    OrderedChainEnds(h, id, id + 1);
    assert !Missing(h, id, name, id + 1);
  }

  /** Growing the heap changes no chain of an old object. */
  lemma {:induction false} ExtendsAnc(h: Heap, h2: Heap, id: ObjId, k: nat)
    requires Valid(h) && Valid(h2) && Extends(h, h2) && id in h.objs
    ensures Anc(h2, id, k) == Anc(h, id, k)
    decreases k
  {
    if k > 0 {
      match h.objs[id].proto {
        case None =>
        case Some(p) => ExtendsAnc(h, h2, p, k - 1);
      }
    }
  }

  /** ... and so no lookup from an old object. */
  lemma ExtendsGetSlot(h: Heap, h2: Heap, id: ObjId, name: string)
    requires Valid(h) && Valid(h2) && Extends(h, h2) && id in h.objs
    ensures GetSlot(h2, id, name) == GetSlot(h, id, name)
  {
    forall k: nat ensures Anc(h2, id, k) == Anc(h, id, k) {
      ExtendsAnc(h, h2, id, k);
    }
    var r := GetSlot(h, id, name);
    GetSlotIff(h, id, name, r);
    GetSlotIff(h2, id, name, r);
    assert forall k: nat :: Missing(h2, id, name, k) == Missing(h, id, name, k);
    assert forall k: nat :: HoldsAt(h2, id, name, k) == HoldsAt(h, id, name, k);
    match r {
      case Found(v) =>
        var k: nat :| HoldsAt(h, id, name, k) && ValueAt(h, id, name, k) == v && MissingBelow(h, id, name, k);
        assert HoldsAt(h2, id, name, k) && ValueAt(h2, id, name, k) == v && MissingBelow(h2, id, name, k);
      case NotFound =>
        var k: nat :| Anc(h, id, k).None? && MissingBelow(h, id, name, k);
        assert Anc(h2, id, k).None? && MissingBelow(h2, id, name, k);
      case Cyclic =>
    }
  }

  /** A clone answers every lookup the way its prototype does. */
  lemma CloneInherits(h: Heap, id: ObjId, name: string)
    requires Valid(h) && id in h.objs
    ensures GetSlot(Clone(h, id).heap, Clone(h, id).id, name) == GetSlot(h, id, name)
  {
    var a := Clone(h, id);
    GetSlotDelegates(a.heap, a.id, name);
    ExtendsGetSlot(h, a.heap, id, name);
  }

  /** Writing a slot makes it the object's answer for that name. */
  lemma SetSlotThenGet(h: Heap, id: ObjId, name: string, v: SlotVal)
    requires Valid(h) && id in h.objs
    ensures GetSlot(SetSlot(h, id, name, v), id, name) == Found(v)
  {
    GetSlotOwn(SetSlot(h, id, name, v), id, name);
  }

  /** Writing one slot leaves every lookup of another name unchanged,
      from every object. */
  lemma SetSlotOtherName(h: Heap, id: ObjId, name: string, v: SlotVal, o: ObjId, other: string)
    requires Valid(h) && id in h.objs && o in h.objs && other != name
    ensures GetSlot(SetSlot(h, id, name, v), o, other) == GetSlot(h, o, other)
  {
    var h2 := SetSlot(h, id, name, v);
    forall k: nat ensures Anc(h2, o, k) == Anc(h, o, k) {
      SetSlotAnc(h, id, name, v, o, k);
    }
    var r := GetSlot(h, o, other);
    GetSlotIff(h, o, other, r);
    GetSlotIff(h2, o, other, r);
    assert forall k: nat :: Missing(h2, o, other, k) == Missing(h, o, other, k);
    assert forall k: nat :: HoldsAt(h2, o, other, k) == HoldsAt(h, o, other, k);
    match r {
      case Found(x) =>
        var k: nat :| HoldsAt(h, o, other, k) && ValueAt(h, o, other, k) == x && MissingBelow(h, o, other, k);
        assert HoldsAt(h2, o, other, k) && ValueAt(h2, o, other, k) == x && MissingBelow(h2, o, other, k);
      case NotFound =>
        var k: nat :| Anc(h, o, k).None? && MissingBelow(h, o, other, k);
        assert Anc(h2, o, k).None? && MissingBelow(h2, o, other, k);
      case Cyclic =>
    }
  }

  /** Writing a slot changes no prototype link, so no chain. */
  lemma {:induction false} SetSlotAnc(h: Heap, id: ObjId, name: string, v: SlotVal, o: ObjId, k: nat)
    requires Valid(h) && id in h.objs && o in h.objs
    ensures Anc(SetSlot(h, id, name, v), o, k) == Anc(h, o, k)
    decreases k
  {
    if k > 0 {
      match h.objs[o].proto {
        case None =>
        case Some(p) => SetSlotAnc(h, id, name, v, p, k - 1);
      }
    }
  }

  /** A slot added to a prototype after cloning is seen through the clone. */
  lemma ProtoSlotVisible(h: Heap, p: ObjId, c: ObjId, name: string, v: SlotVal)
    requires Valid(h) && p in h.objs && c in h.objs && c != p
    requires h.objs[c].proto == Some(p) && name !in h.objs[c].slots
    ensures GetSlot(SetSlot(h, p, name, v), c, name) == Found(v)
  {
    var h2 := SetSlot(h, p, name, v);
    GetSlotDelegates(h2, c, name);
    SetSlotThenGet(h, p, name, v);
  }

  /** Two objects that are each other's prototype: a missing name is
      reported as a cycle, and a present one is still found. */
  lemma CycleExample()
    ensures var h := Heap(map[0 := Obj(Some(1), map[]), 1 := Obj(Some(0), map["x" := SInt(1)])], 2);
            Valid(h) && GetSlot(h, 0, "y") == Cyclic && GetSlot(h, 0, "x") == Found(SInt(1))
  {
    var h := Heap(map[0 := Obj(Some(1), map[]), 1 := Obj(Some(0), map["x" := SInt(1)])], 2);
    assert h.objs.Keys == {0, 1};
    assert "y" !in h.objs[0].slots && "y" !in h.objs[1].slots;
    assert LookupFrom(h, 0, "y", {0, 1}) == Cyclic;
    assert {0} + {1} == {0, 1};
    assert LookupFrom(h, 1, "y", {0}) == LookupFrom(h, 0, "y", {0, 1});
    assert {} + {0} == {0};
    assert LookupFrom(h, 0, "y", {}) == LookupFrom(h, 1, "y", {0});
    assert LookupFrom(h, 1, "x", {0}) == Found(SInt(1));
    assert LookupFrom(h, 0, "x", {}) == LookupFrom(h, 1, "x", {0});
  }
}
