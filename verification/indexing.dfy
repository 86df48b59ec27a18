/** Array literals and indexing agree: an index reads the element the literal stored there. */
module Indexing {
  import opened Types
  import opened Memory
  import opened Words
  import opened Syntax
  import opened Typing
  import opened Semantics
  import opened Layout
  import opened Slots
  import opened Expand
  import opened Desugar

  /** The values lie one after the other from `at` on, each in s bytes. */
  ghost predicate Stored(mem: Mem, at: int, s: nat, values: seq<nat>)
    decreases |values|
  {
    values != [] ==>
      Readable(mem, at, s) && Load(mem, at, s) == values[0] % Modulus(s) && Stored(mem, at + s, s, values[1..])
  }

  ghost predicate SameBytes(m0: Mem, m1: Mem, lo: int, hi: int) {
    forall x :: lo <= x < hi ==> (x in m0 ==> x in m1) && Get(m0, x) == Get(m1, x)
  }

  /** What the elements evaluate to, one after the other. */
  function ElemValues(c: Ctx, fuel: nat, vs: seq<Expr>, elem: Type, at: int, a: Act, sp: int, mem: Mem): (r: seq<nat>)
    requires mem.Keys <= a.acc && EvalElems(c, fuel, vs, elem, at, a, sp, mem).Done?
    ensures |r| == |vs|
    decreases vs
  {
    if vs == [] then []
    else
      IntoStores(c, fuel, vs[0], Size(elem), at, a, sp, mem);
      [Eval(c, fuel, vs[0], a, sp, mem).value] +
      ElemValues(c, fuel, vs[1..], elem, at + Size(elem), a, sp,
                 EvalInto(c, fuel, vs[0], Size(elem), at, a, sp, mem).mem)
  }

  /** Evaluating an element leaves the elements before it alone, which begin at lo. */
  ghost predicate Undisturbed(c: Ctx, fuel: nat, vs: seq<Expr>, elem: Type, lo: int, at: int, a: Act, sp: int, mem: Mem)
    requires mem.Keys <= a.acc
    decreases vs
  {
    vs != [] ==>
      var r := Eval(c, fuel, vs[0], a, sp, mem);
      var w := EvalInto(c, fuel, vs[0], Size(elem), at, a, sp, mem);
      (r.Done? ==> SameBytes(mem, r.mem, lo, at)) &&
      (w.Done? ==> Undisturbed(c, fuel, vs[1..], elem, lo, at + Size(elem), a, sp, w.mem))
  }

  lemma SameBytesTrans(m0: Mem, m1: Mem, m2: Mem, lo: int, hi: int, hi': int)
    requires SameBytes(m0, m1, lo, hi) && SameBytes(m1, m2, lo, hi') && hi <= hi'
    ensures SameBytes(m0, m2, lo, hi)
  {
    forall x | lo <= x < hi ensures (x in m0 ==> x in m2) && Get(m0, x) == Get(m2, x) {
      assert (x in m0 ==> x in m1) && Get(m0, x) == Get(m1, x);
      assert (x in m1 ==> x in m2) && Get(m1, x) == Get(m2, x);
    }
  }

  lemma StoreKeeps(mem: Mem, at: int, n: nat, v: nat, lo: int)
    ensures SameBytes(mem, Store(mem, at, n, v), lo, at)
  {
    forall x | lo <= x < at
      ensures (x in mem ==> x in Store(mem, at, n, v)) && Get(mem, x) == Get(Store(mem, at, n, v), x)
    {
      StoreOutside(mem, at, n, v, x);
    }
  }

  lemma StoredFirst(m0: Mem, at: int, s: nat, v: nat, m1: Mem, lo: int)
    requires s == 0 || s == 1 || s == 4 || s == 8
    requires SameBytes(Store(m0, at, s, v), m1, lo, at + s) && lo <= at
    ensures Readable(m1, at, s) && Load(m1, at, s) == v % Modulus(s)
  {
    var m := Store(m0, at, s, v);
    forall x | at <= x < at + s ensures x in m1 && Get(m, x) == Get(m1, x) {
      StoreInside(m0, m0, at, s, v, x);
      assert (x in m ==> x in m1) && Get(m, x) == Get(m1, x);
    }
    LoadSame(m, m1, at, s);
    LoadStore(m0, at, s, v);
    ModulusIsPow256(s);
  }

  lemma IntoStores(c: Ctx, fuel: nat, e: Expr, n: nat, at: int, a: Act, sp: int, mem: Mem)
    requires mem.Keys <= a.acc && EvalInto(c, fuel, e, n, at, a, sp, mem).Done?
    ensures var r := Eval(c, fuel, e, a, sp, mem);
            r.Done? && EvalInto(c, fuel, e, n, at, a, sp, mem).mem == Store(r.mem, at, n, r.value)
  {
    hide Eval;
  }

  /** After the elements of a literal have been evaluated, they are all there, and what was before
      them has not changed. */
  lemma {:induction false} ElemsStored(c: Ctx, fuel: nat, vs: seq<Expr>, elem: Type, lo: int, at: int, a: Act, sp: int,
                                       mem: Mem)
    requires mem.Keys <= a.acc && EvalElems(c, fuel, vs, elem, at, a, sp, mem).Done? && lo <= at
    requires Undisturbed(c, fuel, vs, elem, lo, at, a, sp, mem)
    ensures var m := EvalElems(c, fuel, vs, elem, at, a, sp, mem).mem;
            SameBytes(mem, m, lo, at) && Stored(m, at, Size(elem), ElemValues(c, fuel, vs, elem, at, a, sp, mem))
    decreases vs
  {
    hide Eval, SameBytes, Store, Load, Readable, Modulus, WriteTo;
    var s, m := Size(elem), EvalElems(c, fuel, vs, elem, at, a, sp, mem).mem;
    if vs == [] {
      Unchanged(mem, lo, at);
    } else {
      var r := Eval(c, fuel, vs[0], a, sp, mem);
      IntoStores(c, fuel, vs[0], s, at, a, sp, mem);
      var m1 := Store(r.mem, at, s, r.value);
      hide EvalInto;
      ElemsStored(c, fuel, vs[1..], elem, lo, at + s, a, sp, m1);
      StoreKeeps(r.mem, at, s, r.value, lo);
      SameBytesTrans(mem, r.mem, m1, lo, at, at);
      SameBytesTrans(mem, m1, m, lo, at, at + s);
      StoredFirst(r.mem, at, s, r.value, m, lo);
      var values := ElemValues(c, fuel, vs, elem, at, a, sp, mem);
      assert values[1..] == ElemValues(c, fuel, vs[1..], elem, at + s, a, sp, m1);
    }
  }

  lemma Unchanged(mem: Mem, lo: int, hi: int)
    ensures SameBytes(mem, mem, lo, hi)
  {
  }

  lemma {:induction false} StoredAt(mem: Mem, at: int, s: nat, values: seq<nat>, i: nat)
    requires Stored(mem, at, s, values) && i < |values|
    ensures Readable(mem, at + i * s, s) && Load(mem, at + i * s, s) == values[i] % Modulus(s)
    decreases i
  {
    hide Load, Readable;
    if i > 0 {
      StoredAt(mem, at + s, s, values[1..], i - 1);
      assert at + s + (i - 1) * s == at + i * s;
    }
  }

  /** Pointer and index in either order address the same element. */
  lemma ElementPlace(first: int, elem: Type, n: nat, i: nat)
    requires HasSize(elem) && 0 <= first && first + n * Size(elem) <= TWO_64 && i < n
    ensures ElementAddress(Pointer(elem), Long, first, i) == first + i * Size(elem)
    ensures ElementAddress(Long, Pointer(elem), i, first) == first + i * Size(elem)
  {
    var s := Size(elem);
    assert 0 <= i * s <= (n - 1) * s && (n - 1) * s + s == n * s;
    UniqueMod(i * s, TWO_64, 0, i * s);
    UniqueMod(first + i * s, TWO_64, 0, first + i * s);
  }

  /** Where the elements of an array literal begin. */
  function First(e: Expr, a: Act): int
    requires e.Array?
  {
    a.base - (e.offset + |e.values| * Size(e.elem))
  }

  /** The frame lies in the address space. */
  predicate InSpace(a: Act, e: Expr)
    requires e.Array?
  {
    0 <= First(e, a) && a.base <= TWO_64
  }

  lemma ArrayEval(c: Ctx, fuel: nat, e: Expr, a: Act, sp: int, mem: Mem)
    requires mem.Keys <= a.acc && e.Array? && Eval(c, fuel, e, a, sp, mem).Done?
    ensures TypeOf(e, a.env).Some? && HasSize(e.elem)
    ensures Eval(c, fuel, e, a, sp, mem) == EvalArray(c, fuel, e, a, sp, mem)
  {
    hide EvalElems;
    assert Eval(c, fuel, e, a, sp, mem) == EvalArray(c, fuel, e, a, sp, mem);
  }

  /** What an array literal leaves in memory, and the pointer it gives. */
  lemma ArrayStored(c: Ctx, fuel: nat, e: Expr, a: Act, sp: int, mem: Mem)
    requires mem.Keys <= a.acc && e.Array? && InSpace(a, e) && e.values != [] && Eval(c, fuel, e, a, sp, mem).Done?
    requires Undisturbed(c, fuel, e.values, e.elem, First(e, a), First(e, a), a, sp, mem)
    ensures TypeOf(e, a.env).Some? && HasSize(e.elem) && First(e, a) + |e.values| * Size(e.elem) <= TWO_64
    ensures EvalElems(c, fuel, e.values, e.elem, First(e, a), a, sp, mem).Done?
    ensures Eval(c, fuel, e, a, sp, mem).value == First(e, a)
    ensures Stored(Eval(c, fuel, e, a, sp, mem).mem, First(e, a), Size(e.elem),
                   ElemValues(c, fuel, e.values, e.elem, First(e, a), a, sp, mem))
  {
    hide Eval, EvalElems, Undisturbed, Stored, ElemValues, TypeOf;
    var first := First(e, a);
    ArrayEval(c, fuel, e, a, sp, mem);
    ElemsStored(c, fuel, e.values, e.elem, first, first, a, sp, mem);
    assert 0 < |e.values| * Size(e.elem) by {
      assert |e.values| >= 1 && Size(e.elem) >= 1;
    }
    UniqueMod(first, TWO_64, 0, first);
  }

  lemma ReadElement(c: Ctx, fuel: nat, e: Expr, l: nat, r: nat, at: nat, v: nat, a: Act, sp: int, mem: Mem, m1: Mem,
                    m2: Mem)
    requires mem.Keys <= a.acc && RoomFor(c, sp) && e.Index? && TypeOf(e, a.env).Some?
    requires Eval(c, fuel, e.index, a, sp, mem) == Done(r, m1) && m1.Keys <= a.acc &&
             Eval(c, fuel, e.expr, a, sp - 8, m1) == Done(l, m2)
    requires BinaryType(Ty(e.expr, a.env), Ty(e.index, a.env)).Some? &&
             ElementAddress(Ty(e.expr, a.env), Ty(e.index, a.env), l, r) == at
    requires ReadFrom(m2, at, Size(Ty(e, a.env))) == Done(v, m2)
    ensures Eval(c, fuel, e, a, sp, mem) == Done(v, m2)
  {
    assert Eval(c, fuel, e, a, sp, mem) == EvalIndex(c, fuel, e, a, sp, mem);
    hide Eval, ElementAddress, ReadFrom, TypeOf;
    ElementTyped(e, a.env);
    assert EvalElement(c, fuel, e, a, sp, mem) == Done(at, m2);
  }

  /** The elements of the literal are evaluated from stack position sp on, none disturbing another. */
  ghost predicate Literal(c: Ctx, fuel: nat, e: Expr, a: Act, sp: int, mem: Mem)
    requires mem.Keys <= a.acc
  {
    e.Array? && InSpace(a, e) && Eval(c, fuel, e, a, sp, mem).Done? &&
    Undisturbed(c, fuel, e.values, e.elem, First(e, a), First(e, a), a, sp, mem)
  }

  /** The value of element i of a literal, cut to the size of the elements. */
  function ElementOf(c: Ctx, fuel: nat, e: Expr, i: nat, a: Act, sp: int, mem: Mem): nat
    requires mem.Keys <= a.acc && e.Array? && i < |e.values| &&
             EvalElems(c, fuel, e.values, e.elem, First(e, a), a, sp, mem).Done?
  {
    ElemValues(c, fuel, e.values, e.elem, First(e, a), a, sp, mem)[i] % Modulus(Size(e.elem))
  }

  lemma ElementRead(c: Ctx, fuel: nat, e: Expr, i: nat, a: Act, sp: int, mem: Mem)
    requires mem.Keys <= a.acc && Literal(c, fuel, e, a, sp, mem) && i < |e.values|
    ensures TypeOf(e, a.env).Some? && HasSize(e.elem) && First(e, a) + |e.values| * Size(e.elem) <= TWO_64
    ensures EvalElems(c, fuel, e.values, e.elem, First(e, a), a, sp, mem).Done?
    ensures var m := Eval(c, fuel, e, a, sp, mem).mem;
            Eval(c, fuel, Grouping(e), a, sp, mem) == Done(First(e, a), m) &&
            ReadFrom(m, First(e, a) + i * Size(e.elem), Size(e.elem)) == Done(ElementOf(c, fuel, e, i, a, sp, mem), m)
  {
    ArrayStored(c, fuel, e, a, sp, mem);
    assert Eval(c, fuel, Grouping(e), a, sp, mem) == Eval(c, fuel, e, a, sp, mem);
    hide Eval, TypeOf, EvalElems, ElemValues, Stored, Undisturbed, Load, Readable;
    StoredAt(Eval(c, fuel, e, a, sp, mem).mem, First(e, a), Size(e.elem),
             ElemValues(c, fuel, e.values, e.elem, First(e, a), a, sp, mem), i);
  }

  /** An array literal indexed on the spot by any long expression, which is evaluated before it, gives
      the element of that number, before and after desugaring. */
  lemma LiteralIndexed(c: Ctx, fuel: nat, e: Expr, ix: Expr, i: nat, m1: Mem, a: Act, sp: int, mem: Mem)
    requires KeepsNames(c.procs) && mem.Keys <= a.acc && RoomFor(c, sp)
    requires TypeOf(ix, a.env) == Some(Long) && Eval(c, fuel, ix, a, sp, mem) == Done(i, m1)
    requires m1.Keys <= a.acc && Literal(c, fuel, e, a, sp - 8, m1) && i < |e.values|
    ensures EvalElems(c, fuel, e.values, e.elem, First(e, a), a, sp - 8, m1).Done?
    ensures var x, v := Index(Grouping(e), ix),
            Done(ElementOf(c, fuel, e, i, a, sp - 8, m1), Eval(c, fuel, e, a, sp - 8, m1).mem);
            Eval(c, fuel, x, a, sp, mem) == v && Eval(ExpandCtx(c), fuel, ExpandExpr(x), a, sp, mem) == v
  {
    hide Eval, ElementAddress, ElementOf, ReadFrom, EvalElems, KeepsNames, ExpandExpr, Undisturbed, TypeOf;
    ElementRead(c, fuel, e, i, a, sp - 8, m1);
    ElementPlace(First(e, a), e.elem, |e.values|, i);
    ArrayTypes(e, ix, a.env);
    hide Literal;
    var x, m := Index(Grouping(e), ix), Eval(c, fuel, e, a, sp - 8, m1).mem;
    ReadElement(c, fuel, x, First(e, a), i, First(e, a) + i * Size(e.elem),
                ElementOf(c, fuel, e, i, a, sp - 8, m1), a, sp, mem, m1, m);
    ExprMeans(c, fuel, x, true, a, sp, mem);
  }

  /** So does the long expression indexed by the array literal; it is evaluated after the literal and
      must leave its elements alone. */
  lemma NumberIndexed(c: Ctx, fuel: nat, e: Expr, ix: Expr, i: nat, m2: Mem, a: Act, sp: int, mem: Mem)
    requires KeepsNames(c.procs) && mem.Keys <= a.acc && RoomFor(c, sp)
    requires Literal(c, fuel, e, a, sp, mem) && i < |e.values|
    requires TypeOf(ix, a.env) == Some(Long) &&
             Eval(c, fuel, ix, a, sp - 8, Eval(c, fuel, e, a, sp, mem).mem) == Done(i, m2)
    requires SameBytes(Eval(c, fuel, e, a, sp, mem).mem, m2, First(e, a), First(e, a) + |e.values| * Size(e.elem))
    ensures EvalElems(c, fuel, e.values, e.elem, First(e, a), a, sp, mem).Done?
    ensures var x, v := Index(ix, Grouping(e)), Done(ElementOf(c, fuel, e, i, a, sp, mem), m2);
            Eval(c, fuel, x, a, sp, mem) == v && Eval(ExpandCtx(c), fuel, ExpandExpr(x), a, sp, mem) == v
  {
    hide Eval, ElementAddress, ElementOf, ReadFrom, EvalElems, KeepsNames, ExpandExpr, SameBytes, Undisturbed, TypeOf;
    ElementRead(c, fuel, e, i, a, sp, mem);
    ElementPlace(First(e, a), e.elem, |e.values|, i);
    var m, at := Eval(c, fuel, e, a, sp, mem).mem, First(e, a) + i * Size(e.elem);
    ArrayTypes(e, ix, a.env);
    StillRead(m, m2, First(e, a), |e.values|, i, Size(e.elem));
    hide Literal;
    var x := Index(ix, Grouping(e));
    ReadElement(c, fuel, x, i, First(e, a), at, ElementOf(c, fuel, e, i, a, sp, mem), a, sp, mem, m, m2);
    ExprMeans(c, fuel, x, true, a, sp, mem);
  }

  lemma StillRead(m0: Mem, m1: Mem, first: int, n: nat, i: nat, s: nat)
    requires i < n && (s == 1 || s == 4 || s == 8) && SameBytes(m0, m1, first, first + n * s)
    requires ReadFrom(m0, first + i * s, s).Done?
    ensures ReadFrom(m1, first + i * s, s) == Done(ReadFrom(m0, first + i * s, s).value, m1)
  {
    hide Load;
    var at := first + i * s;
    assert 0 <= i * s <= (n - 1) * s && (n - 1) * s + s == n * s;
    forall x | at <= x < at + s ensures x in m1 && Get(m1, x) == Get(m0, x) {
      assert (x in m0 ==> x in m1) && Get(m0, x) == Get(m1, x);
    }
    LoadSame(m1, m0, at, s);
  }

  lemma ArrayTypes(e: Expr, ix: Expr, env: Env)
    requires e.Array? && TypeOf(e, env).Some? && TypeOf(ix, env) == Some(Long)
    ensures HasSize(e.elem) && TypeOf(Grouping(e), env) == Some(Pointer(e.elem)) && Ty(ix, env) == Long
    ensures TypeOf(Index(Grouping(e), ix), env) == Some(e.elem) && TypeOf(Index(ix, Grouping(e)), env) == Some(e.elem)
  {
    assert TypeOf(Grouping(e), env) == TypeOf(e, env);
  }

  /** A pointer expression and a long expression that evaluate to an array and an index. */
  predicate PointsAndCounts(c: Ctx, fuel: nat, xs: Expr, ix: Expr, first: nat, elem: Type, i: nat, a: Act, sp: int,
                            mem: Mem)
    requires mem.Keys <= a.acc
  {
    TypeOf(xs, a.env) == Some(Pointer(elem)) && TypeOf(ix, a.env) == Some(Long) && HasSize(elem) &&
    Eval(c, fuel, xs, a, sp, mem) == Done(first, mem) && Eval(c, fuel, ix, a, sp, mem) == Done(i, mem)
  }

  lemma IndexTypes(xs: Expr, ix: Expr, elem: Type, env: Env)
    requires TypeOf(xs, env) == Some(Pointer(elem)) && TypeOf(ix, env) == Some(Long) && HasSize(elem)
    ensures Ty(xs, env) == Pointer(elem) && Ty(ix, env) == Long
    ensures TypeOf(Index(xs, ix), env) == Some(elem) && TypeOf(Index(ix, xs), env) == Some(elem)
  {
  }

  /** Indexing a stored array reads the element, in either order, before and after desugaring. */
  lemma IndexReads(c: Ctx, fuel: nat, xs: Expr, ix: Expr, first: nat, elem: Type, values: seq<nat>, i: nat, a: Act,
                   sp: int, mem: Mem)
    requires KeepsNames(c.procs) && mem.Keys <= a.acc && RoomFor(c, sp) && i < |values|
    requires PointsAndCounts(c, fuel, xs, ix, first, elem, i, a, sp, mem) &&
             PointsAndCounts(c, fuel, xs, ix, first, elem, i, a, sp - 8, mem)
    requires first + |values| * Size(elem) <= TWO_64 && Stored(mem, first, Size(elem), values)
    ensures forall e | e == Index(xs, ix) || e == Index(ix, xs) ::
              Eval(c, fuel, e, a, sp, mem) == Done(values[i] % Modulus(Size(elem)), mem) &&
              Eval(ExpandCtx(c), fuel, ExpandExpr(e), a, sp, mem) == Done(values[i] % Modulus(Size(elem)), mem)
  {
    hide TypeOf, Eval, Stored, Load, Readable, ElementAddress, ExpandExpr, KeepsNames, Modulus;
    var at, v := first + i * Size(elem), values[i] % Modulus(Size(elem));
    IndexTypes(xs, ix, elem, a.env);
    ElementPlace(first, elem, |values|, i);
    StoredAt(mem, first, Size(elem), values, i);
    ReadElement(c, fuel, Index(xs, ix), first, i, at, v, a, sp, mem, mem, mem);
    ReadElement(c, fuel, Index(ix, xs), i, first, at, v, a, sp, mem, mem, mem);
    ExprMeans(c, fuel, Index(xs, ix), true, a, sp, mem);
    ExprMeans(c, fuel, Index(ix, xs), true, a, sp, mem);
  }

  /** No assignment, no call and no array literal: nothing that writes. */
  predicate Quiet(e: Expr)
    decreases e
  {
    match e
    case Grouping(inner) => Quiet(inner)
    case Binary(_, l, r) => Quiet(l) && Quiet(r)
    case Unary(_, node) => Quiet(node)
    case Index(x, i) => Quiet(x) && Quiet(i)
    case Num(_, _) => true
    case Str(_) => true
    case Ident(_) => true
    case _ => false
  }

  lemma {:induction false} QuietKeeps(c: Ctx, fuel: nat, e: Expr, a: Act, sp: int, mem: Mem)
    requires mem.Keys <= a.acc && Quiet(e)
    ensures Eval(c, fuel, e, a, sp, mem).Done? ==> Eval(c, fuel, e, a, sp, mem).mem == mem
    ensures EvalAddr(c, fuel, e, a, sp, mem).Done? ==> EvalAddr(c, fuel, e, a, sp, mem).mem == mem
    decreases e
  {
    hide TypeOf, ReadFrom, AddrTypeOf;
    match e
    case Grouping(inner) => QuietKeeps(c, fuel, inner, a, sp, mem);
    case Binary(_, l, r) =>
      QuietKeeps(c, fuel, r, a, sp, mem);
      QuietKeeps(c, fuel, l, a, sp - 8, mem);
    case Unary(_, node) => QuietKeeps(c, fuel, node, a, sp, mem);
    case Index(x, i) =>
      QuietKeeps(c, fuel, i, a, sp, mem);
      QuietKeeps(c, fuel, x, a, sp - 8, mem);
      if TypeOf(e, a.env).Some? {
        ElementTyped(e, a.env);
        assert Eval(c, fuel, e, a, sp, mem) == EvalIndex(c, fuel, e, a, sp, mem);
        var r := EvalElement(c, fuel, e, a, sp, mem);
        assert r.Done? ==> r.mem == mem;
      }
    case _ =>
  }

  /** Elements that write nothing disturb nothing. */
  lemma {:induction false} QuietUndisturbed(c: Ctx, fuel: nat, vs: seq<Expr>, elem: Type, lo: int, at: int, a: Act,
                                            sp: int, mem: Mem)
    requires mem.Keys <= a.acc && forall v | v in vs :: Quiet(v)
    ensures Undisturbed(c, fuel, vs, elem, lo, at, a, sp, mem)
    decreases vs
  {
    hide Eval, EvalInto, Quiet;
    if vs != [] {
      QuietKeeps(c, fuel, vs[0], a, sp, mem);
      Unchanged(mem, lo, at);
      var w := EvalInto(c, fuel, vs[0], Size(elem), at, a, sp, mem);
      if w.Done? {
        QuietUndisturbed(c, fuel, vs[1..], elem, lo, at + Size(elem), a, sp, w.mem);
      }
    }
  }

  /** No assignment and no call; array literals may be nested. */
  predicate Still(e: Expr)
    decreases e
  {
    match e
    case Grouping(inner) => Still(inner)
    case Binary(_, l, r) => Still(l) && Still(r)
    case Unary(_, node) => Still(node)
    case Index(x, i) => Still(x) && Still(i)
    case Array(vs, _, _) => forall v | v in vs :: Still(v)
    case Num(_, _) => true
    case Str(_) => true
    case Ident(_) => true
    case _ => false
  }

  /** All slots lie between two depths of the frame. */
  ghost predicate Within(slots: seq<Slot>, lo: nat, hi: nat) {
    forall s | s in slots :: lo + s.size <= s.offset <= hi
  }

  /** Only the bytes from lo up to hi differ. */
  ghost predicate OnlyIn(m0: Mem, m1: Mem, lo: int, hi: int) {
    forall x :: !(lo <= x < hi) ==> Get(m0, x) == Get(m1, x) && (x in m0 <==> x in m1)
  }

  lemma OnlyInTrans(m0: Mem, m1: Mem, m2: Mem, lo: int, hi: int)
    requires OnlyIn(m0, m1, lo, hi) && OnlyIn(m1, m2, lo, hi)
    ensures OnlyIn(m0, m2, lo, hi)
  {
  }

  lemma WithinParts(s0: seq<Slot>, s1: seq<Slot>, lo: nat, hi: nat)
    requires Within(s0 + s1, lo, hi)
    ensures Within(s0, lo, hi) && Within(s1, lo, hi)
  {
    assert forall s :: s in s0 || s in s1 ==> s in s0 + s1;
  }

  /** Evaluating such an expression writes to its own slots only. */
  lemma {:induction false} StillWrites(c: Ctx, fuel: nat, e: Expr, a: Act, sp: int, mem: Mem, lo: nat, hi: nat)
    requires mem.Keys <= a.acc && Still(e) && Within(ExprSlots(e), lo, hi)
    ensures Eval(c, fuel, e, a, sp, mem).Done? ==>
            OnlyIn(mem, Eval(c, fuel, e, a, sp, mem).mem, a.base - hi, a.base - lo)
    ensures EvalAddr(c, fuel, e, a, sp, mem).Done? ==>
              OnlyIn(mem, EvalAddr(c, fuel, e, a, sp, mem).mem, a.base - hi, a.base - lo)
    decreases e, 1
  {
    hide TypeOf, ReadFrom, AddrTypeOf, OnlyIn, Within;
    NothingWritten(mem, a.base - hi, a.base - lo);
    match e
    case Grouping(inner) => StillWrites(c, fuel, inner, a, sp, mem, lo, hi);
    case Binary(_, l, r) =>
      WithinParts(ExprSlots(l), ExprSlots(r), lo, hi);
      StillPair(c, fuel, e, r, l, a, sp, mem, lo, hi);
    case Unary(_, node) => StillWrites(c, fuel, node, a, sp, mem, lo, hi);
    case Index(x, i) =>
      WithinParts(ExprSlots(x), ExprSlots(i), lo, hi);
      StillPair(c, fuel, e, i, x, a, sp, mem, lo, hi);
      StillIndex(c, fuel, e, a, sp, mem, lo, hi);
    case Array(vs, elem, off) => StillArray(c, fuel, e, a, sp, mem, lo, hi);
    case _ =>
  }

  lemma NothingWritten(m: Mem, lo: int, hi: int)
    ensures OnlyIn(m, m, lo, hi)
  {
  }

  /** Two operands, one above the other's temporary. */
  lemma {:induction false} StillPair(c: Ctx, fuel: nat, e: Expr, x: Expr, y: Expr, a: Act, sp: int, mem: Mem, lo: nat,
                                     hi: nat)
    requires mem.Keys <= a.acc && x < e && y < e && Still(x) && Still(y)
    requires Within(ExprSlots(x), lo, hi) && Within(ExprSlots(y), lo, hi)
    ensures var r := Eval(c, fuel, x, a, sp, mem);
            r.Done? ==>
              OnlyIn(mem, r.mem, a.base - hi, a.base - lo) &&
              (Eval(c, fuel, y, a, sp - 8, r.mem).Done? ==>
                 OnlyIn(mem, Eval(c, fuel, y, a, sp - 8, r.mem).mem, a.base - hi, a.base - lo))
    decreases e, 0
  {
    hide Eval, OnlyIn, Within, Still, ExprSlots;
    StillWrites(c, fuel, x, a, sp, mem, lo, hi);
    var r := Eval(c, fuel, x, a, sp, mem);
    if r.Done? {
      StillWrites(c, fuel, y, a, sp - 8, r.mem, lo, hi);
      if Eval(c, fuel, y, a, sp - 8, r.mem).Done? {
        OnlyInTrans(mem, r.mem, Eval(c, fuel, y, a, sp - 8, r.mem).mem, a.base - hi, a.base - lo);
      }
    }
  }

  lemma StillIndex(c: Ctx, fuel: nat, e: Expr, a: Act, sp: int, mem: Mem, lo: nat, hi: nat)
    requires mem.Keys <= a.acc && e.Index?
    requires var r := Eval(c, fuel, e.index, a, sp, mem);
             r.Done? && Eval(c, fuel, e.expr, a, sp - 8, r.mem).Done? ==>
               OnlyIn(mem, Eval(c, fuel, e.expr, a, sp - 8, r.mem).mem, a.base - hi, a.base - lo)
    ensures Eval(c, fuel, e, a, sp, mem).Done? ==>
            OnlyIn(mem, Eval(c, fuel, e, a, sp, mem).mem, a.base - hi, a.base - lo)
    ensures EvalAddr(c, fuel, e, a, sp, mem).Done? ==>
              OnlyIn(mem, EvalAddr(c, fuel, e, a, sp, mem).mem, a.base - hi, a.base - lo)
  {
    hide TypeOf, AddrTypeOf, OnlyIn;
    if TypeOf(e, a.env).Some? {
      ElementTyped(e, a.env);
      assert Eval(c, fuel, e, a, sp, mem) == EvalIndex(c, fuel, e, a, sp, mem);
    }
    if AddrTypeOf(e, a.env).Some? {
      assert EvalAddr(c, fuel, e, a, sp, mem) == EvalElement(c, fuel, e, a, sp, mem);
    }
  }

  lemma {:induction false} StillArray(c: Ctx, fuel: nat, e: Expr, a: Act, sp: int, mem: Mem, lo: nat, hi: nat)
    requires mem.Keys <= a.acc && e.Array? && Still(e) && Within(ExprSlots(e), lo, hi)
    ensures Eval(c, fuel, e, a, sp, mem).Done? ==>
            OnlyIn(mem, Eval(c, fuel, e, a, sp, mem).mem, a.base - hi, a.base - lo)
    ensures EvalAddr(c, fuel, e, a, sp, mem).Undefined?
    decreases e, 0
  {
    hide TypeOf, OnlyIn, Within;
    WithinParts(ElemSlots(|e.values|, e.offset, Size(e.elem)), ExprsSlots(e.values), lo, hi);
    NothingWritten(mem, a.base - hi, a.base - lo);
    if e.values != [] {
      ElemsWithin(|e.values|, e.offset, Size(e.elem), lo, hi);
      StillElems(c, fuel, e.values, e.elem, First(e, a), a, sp, mem, lo, hi);
    }
    if TypeOf(e, a.env).Some? {
      assert Eval(c, fuel, e, a, sp, mem) == EvalArray(c, fuel, e, a, sp, mem);
      assert e.values == [] ==> EvalElems(c, fuel, e.values, e.elem, First(e, a), a, sp, mem) == Done((), mem);
    }
  }

  lemma {:induction false} ElemsWithin(n: nat, off: nat, k: nat, lo: nat, hi: nat)
    requires 0 < n && Within(ElemSlots(n, off, k), lo, hi)
    ensures lo <= off && off + n * k <= hi
    decreases n
  {
    var s := ElemSlots(n, off, k);
    LastElem(n, off, k);
    assert s[n - 1] in s;
    if n > 1 {
      assert forall x :: x in ElemSlots(n - 1, off, k) ==> x in s;
      ElemsWithin(n - 1, off, k, lo, hi);
    }
  }

  lemma {:induction false} StillElems(c: Ctx, fuel: nat, vs: seq<Expr>, elem: Type, at: int, a: Act, sp: int, mem: Mem,
                                      lo: nat, hi: nat)
    requires mem.Keys <= a.acc && (forall v | v in vs :: Still(v)) && Within(ExprsSlots(vs), lo, hi)
    requires a.base - hi <= at && at + |vs| * Size(elem) <= a.base - lo
    ensures EvalElems(c, fuel, vs, elem, at, a, sp, mem).Done? ==>
              OnlyIn(mem, EvalElems(c, fuel, vs, elem, at, a, sp, mem).mem, a.base - hi, a.base - lo)
    decreases vs, 0
  {
    hide Eval, OnlyIn, Within, Still, ExprSlots, Store, Size;
    if vs == [] {
      NothingWritten(mem, a.base - hi, a.base - lo);
    } else {
      var k := Size(elem);
      OneFewer(|vs|, k);
      assert ExprsSlots(vs) == ExprSlots(vs[0]) + ExprsSlots(vs[1..]);
      WithinParts(ExprSlots(vs[0]), ExprsSlots(vs[1..]), lo, hi);
      var r, q := Eval(c, fuel, vs[0], a, sp, mem), EvalInto(c, fuel, vs[0], k, at, a, sp, mem);
      StillWrites(c, fuel, vs[0], a, sp, mem, lo, hi);
      if q.Done? {
        IntoStores(c, fuel, vs[0], k, at, a, sp, mem);
        StoreOnlyIn(r.mem, at, k, r.value, a.base - hi, a.base - lo);
        OnlyInTrans(mem, r.mem, q.mem, a.base - hi, a.base - lo);
        hide EvalInto;
        StillElems(c, fuel, vs[1..], elem, at + k, a, sp, q.mem, lo, hi);
        var m := EvalElems(c, fuel, vs[1..], elem, at + k, a, sp, q.mem);
        if m.Done? {
          OnlyInTrans(mem, q.mem, m.mem, a.base - hi, a.base - lo);
        }
      }
    }
  }

  lemma OneFewer(n: nat, k: nat)
    requires n > 0
    ensures n * k == (n - 1) * k + k && 0 <= (n - 1) * k
  {
  }

  lemma StoreOnlyIn(m: Mem, at: int, n: nat, v: nat, lo: int, hi: int)
    requires lo <= at && at + n <= hi
    ensures OnlyIn(m, Store(m, at, n, v), lo, hi)
  {
    forall x | !(lo <= x < hi)
      ensures Get(m, x) == Get(Store(m, at, n, v), x) && (x in m <==> x in Store(m, at, n, v))
    {
      StoreOutside(m, at, n, v, x);
    }
  }

  /** Elements whose slots are all deeper in the frame than the array do not disturb it. */
  lemma {:induction false} StillUndisturbed(c: Ctx, fuel: nat, vs: seq<Expr>, elem: Type, first: int, at: int, a: Act,
                                            sp: int, mem: Mem, lo: nat, hi: nat)
    requires mem.Keys <= a.acc && (forall v | v in vs :: Still(v)) && Within(ExprsSlots(vs), lo, hi)
    requires first == a.base - lo && first <= at
    ensures Undisturbed(c, fuel, vs, elem, first, at, a, sp, mem)
    decreases vs
  {
    hide Eval, OnlyIn, Within, Still, ExprSlots, EvalInto;
    if vs != [] {
      assert ExprsSlots(vs) == ExprSlots(vs[0]) + ExprsSlots(vs[1..]);
      WithinParts(ExprSlots(vs[0]), ExprsSlots(vs[1..]), lo, hi);
      StillWrites(c, fuel, vs[0], a, sp, mem, lo, hi);
      var r, q := Eval(c, fuel, vs[0], a, sp, mem), EvalInto(c, fuel, vs[0], Size(elem), at, a, sp, mem);
      if r.Done? {
        OutsideSame(mem, r.mem, a.base - hi, first, at);
      }
      if q.Done? {
        StillUndisturbed(c, fuel, vs[1..], elem, first, at + Size(elem), a, sp, q.mem, lo, hi);
      }
    }
  }

  lemma OutsideSame(m0: Mem, m1: Mem, lo: int, hi: int, at: int)
    requires OnlyIn(m0, m1, lo, hi)
    ensures SameBytes(m0, m1, hi, at)
  {
  }

  lemma {:induction false} LastElem(n: nat, off: nat, k: nat)
    requires 0 < n
    ensures var s := ElemSlots(n, off, k); |s| == n && s[n - 1] == Slot(off + n * k, k)
    decreases n
  {
    if n > 1 {
      LastElem(n - 1, off, k);
    }
  }

  /** An array literal of a laid-out tree, nested literals included: evaluating an element without
      assignments and calls never overwrites an element stored before. */
  lemma LaidUndisturbed(c: Ctx, fuel: nat, src: Expr, size: nat, a: Act, sp: int, mem: Mem)
    requires mem.Keys <= a.acc && src.Array? && PlainTargets(src)
    requires var e := LayExpr(src, size).0; Still(e)
    ensures var e := LayExpr(src, size).0;
            e.Array? && Undisturbed(c, fuel, e.values, e.elem, First(e, a), First(e, a), a, sp, mem)
  {
    hide Still, Undisturbed, PlainTargets, Within, LayExprs;
    var e, hi := LayExpr(src, size).0, LayExpr(src, size).1;
    ExprStacked(src, size);
    if e.values != [] {
      var k := Size(e.elem);
      DeeperSlots(ElemSlots(|e.values|, e.offset, k), ExprsSlots(e.values), size, hi, |e.values|, e.offset, k);
      StillParts(e);
      StillUndisturbed(c, fuel, e.values, e.elem, First(e, a), First(e, a), a, sp, mem, e.offset + |e.values| * k, hi);
    } else {
      NoneUndisturbed(c, fuel, e.elem, First(e, a), a, sp, mem);
    }
  }

  lemma StillParts(e: Expr)
    requires e.Array? && Still(e)
    ensures forall v | v in e.values :: Still(v)
  {
  }

  lemma NoneUndisturbed(c: Ctx, fuel: nat, elem: Type, at: int, a: Act, sp: int, mem: Mem)
    requires mem.Keys <= a.acc
    ensures Undisturbed(c, fuel, [], elem, at, at, a, sp, mem)
  {
  }

  lemma DeeperSlots(s0: seq<Slot>, s1: seq<Slot>, lo: nat, hi: nat, n: nat, off: nat, k: nat)
    requires 0 < n && s0 == ElemSlots(n, off, k) && Stacked(s0 + s1, lo, hi)
    ensures Within(s1, off + n * k, hi)
  {
    hide ElemSlots;
    LastElem(n, off, k);
    forall s | s in s1 ensures off + n * k + s.size <= s.offset <= hi {
      var j :| 0 <= j < |s1| && s1[j] == s;
      assert (s0 + s1)[n - 1] == s0[n - 1] && (s0 + s1)[n + j] == s;
    }
  }
}
