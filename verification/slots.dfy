/** Frame layout: the objects of a procedure never overlap and stay inside its frame. */
module Slots {
  import opened Types
  import opened Memory
  import opened Syntax
  import opened Typing
  import opened Layout

  /** `size` bytes that begin `offset` bytes below the frame base. */
  datatype Slot = Slot(offset: nat, size: nat)

  /** The n elements of an array as the code generator addresses them, the last one first. */
  function ElemSlots(n: nat, off: nat, k: nat): seq<Slot> {
    if n == 0 then [] else ElemSlots(n - 1, off, k) + [Slot(off + n * k, k)]
  }

  /** Everything an expression keeps in the frame. */
  function ExprSlots(e: Expr): seq<Slot>
    decreases e
  {
    match e
    case Grouping(inner) => ExprSlots(inner)
    case Binary(_, l, r) => ExprSlots(l) + ExprSlots(r)
    case Unary(_, node) => ExprSlots(node)
    case Call(callee, args) => ExprSlots(callee) + ExprsSlots(args)
    case Assign(target, v) => ExprSlots(target) + ExprSlots(v)
    case Array(vs, elem, off) => ElemSlots(|vs|, off, Size(elem)) + ExprsSlots(vs)
    case Index(x, i) => ExprSlots(x) + ExprSlots(i)
    case _ => []
  }

  function ExprsSlots(es: seq<Expr>): seq<Slot>
    decreases es
  {
    if es == [] then [] else ExprSlots(es[0]) + ExprsSlots(es[1..])
  }

  function OptionSlots(e: Option<Expr>): seq<Slot> {
    if e.None? then [] else ExprSlots(e.value)
  }

  function StmtSlots(s: Stmt): seq<Slot>
    decreases s
  {
    match s
    case ExprStmt(e) => ExprSlots(e)
    case BlockStmt(b) => BlockSlots(b)
    case VarDecl(_, ty, init, off) => [Slot(off, Size(ty))] + OptionSlots(init)
    case If(cond, thn, els) => ExprSlots(cond) + BlockSlots(thn) + if els.Some? then BlockSlots(els.value) else []
    case While(cond, body) => ExprSlots(cond) + BlockSlots(body)
    case For(_, _, _, _, _, _, _, _) => []
    case Return(e) => OptionSlots(e)
  }

  function StmtsSlots(stmts: seq<Stmt>): seq<Slot>
    decreases stmts
  {
    if stmts == [] then [] else StmtSlots(stmts[0]) + StmtsSlots(stmts[1..])
  }

  function BlockSlots(b: Block): seq<Slot>
    decreases b
  {
    StmtsSlots(b.stmts)
  }

  function ParamSlots(params: seq<Param>, slots: seq<nat>): seq<Slot>
    requires |params| == |slots|
  {
    if params == [] then [] else [Slot(slots[0], Size(params[0].ty))] + ParamSlots(params[1..], slots[1..])
  }

  function ProcSlots(p: Proc): seq<Slot>
    requires |p.slots| == |p.sig.params|
  {
    BlockSlots(p.body) + ParamSlots(p.sig.params, p.slots)
  }

  /** The slots lie one below the other between two depths. */
  ghost predicate Stacked(slots: seq<Slot>, lo: nat, hi: nat) {
    lo <= hi &&
    (forall i :: 0 <= i < |slots| ==> lo + slots[i].size <= slots[i].offset <= hi) &&
    (forall i, j :: 0 <= i < j < |slots| ==> slots[i].offset + slots[j].size <= slots[j].offset)
  }

  lemma StackedConcat(s0: seq<Slot>, lo: nat, mid: nat, s1: seq<Slot>, hi: nat)
    requires Stacked(s0, lo, mid) && Stacked(s1, mid, hi)
    ensures Stacked(s0 + s1, lo, hi)
  {
  }

  lemma StackedWider(s: seq<Slot>, lo: nat, hi: nat, lo': nat, hi': nat)
    requires Stacked(s, lo, hi) && lo' <= lo && hi <= hi'
    ensures Stacked(s, lo', hi')
  {
  }

  lemma {:induction false} ElemsStacked(n: nat, off: nat, k: nat)
    ensures Stacked(ElemSlots(n, off, k), off, off + n * k)
  {
    if n != 0 {
      assert n * k == (n - 1) * k + k;
      ElemsStacked(n - 1, off, k);
      StackedConcat(ElemSlots(n - 1, off, k), off, off + (n - 1) * k, [Slot(off + n * k, k)], off + n * k);
    }
  }

  /** No array literal and no sugar: what the passes never visit must not need them. */
  predicate Untouched(e: Expr)
    decreases e
  {
    match e
    case Grouping(inner) => Untouched(inner)
    case Binary(_, l, r) => Untouched(l) && Untouched(r)
    case Unary(_, node) => Untouched(node)
    case Call(callee, args) => Untouched(callee) && forall x | x in args :: Untouched(x)
    case Assign(target, v) => Untouched(target) && Untouched(v)
    case Array(_, _, _) => false
    case Index(_, _) => false
    case _ => true
  }

  /** Assignment targets need no visit. */
  predicate PlainTargets(e: Expr)
    decreases e
  {
    match e
    case Grouping(inner) => PlainTargets(inner)
    case Binary(_, l, r) => PlainTargets(l) && PlainTargets(r)
    case Unary(_, node) => PlainTargets(node)
    case Call(callee, args) => PlainTargets(callee) && forall x | x in args :: PlainTargets(x)
    case Assign(target, v) => Untouched(target) && PlainTargets(v)
    case Array(vs, _, _) => forall x | x in vs :: PlainTargets(x)
    case Index(x, i) => PlainTargets(x) && PlainTargets(i)
    case _ => true
  }

  predicate PlainOption(e: Option<Expr>) {
    e.Some? ==> PlainTargets(e.value)
  }

  predicate PlainStmt(s: Stmt)
    decreases s
  {
    match s
    case ExprStmt(e) => PlainTargets(e)
    case BlockStmt(b) => PlainBlock(b)
    case VarDecl(_, _, init, _) => PlainOption(init)
    case If(cond, thn, els) => PlainTargets(cond) && PlainBlock(thn) && (els.Some? ==> PlainBlock(els.value))
    case While(cond, body) => PlainTargets(cond) && PlainBlock(body)
    case For(_, _, start, cond, update, body, _, _) =>
      PlainTargets(start) && PlainTargets(cond) && PlainTargets(update) && PlainBlock(body)
    case Return(e) => PlainOption(e)
  }

  predicate PlainBlock(b: Block)
    decreases b
  {
    forall s | s in b.stmts :: PlainStmt(s)
  }

  lemma {:induction false} UntouchedSlots(e: Expr)
    requires Untouched(e)
    ensures ExprSlots(e) == []
    decreases e
  {
    match e
    case Grouping(inner) => UntouchedSlots(inner);
    case Binary(_, l, r) =>
      UntouchedSlots(l);
      UntouchedSlots(r);
    case Unary(_, node) => UntouchedSlots(node);
    case Call(callee, args) =>
      UntouchedSlots(callee);
      UntouchedAll(args);
    case Assign(target, v) =>
      UntouchedSlots(target);
      UntouchedSlots(v);
    case _ =>
  }

  lemma {:induction false} UntouchedAll(es: seq<Expr>)
    requires forall x | x in es :: Untouched(x)
    ensures ExprsSlots(es) == []
    decreases es
  {
    if es != [] {
      UntouchedSlots(es[0]);
      UntouchedAll(es[1..]);
    }
  }

  lemma {:induction false} ExprStacked(e: Expr, size: nat)
    requires PlainTargets(e)
    ensures Stacked(ExprSlots(LayExpr(e, size).0), size, LayExpr(e, size).1)
    decreases e, 1
  {
    hide Stacked, ElemSlots, SlotSize;
    match e
    case Grouping(inner) => ExprStacked(inner, size);
    case Binary(_, l, r) => PairStacked(e, l, r, size);
    case Unary(_, node) => ExprStacked(node, size);
    case Call(callee, args) =>
      ExprStacked(callee, size);
      var r := LayExpr(callee, size);
      ExprsStacked(args, r.1);
      StackedConcat(ExprSlots(r.0), size, r.1, ExprsSlots(LayExprs(args, r.1).0), LayExprs(args, r.1).1);
    case Assign(target, v) =>
      UntouchedSlots(target);
      ExprStacked(v, size);
      assert [] + ExprSlots(LayExpr(v, size).0) == ExprSlots(LayExpr(v, size).0);
    case Array(vs, elem, _) =>
      var top := size + SlotSize(elem) * |vs| + SlotSize(elem);
      ExprsStacked(vs, top);
      ArrayStacked(|vs|, elem, size);
      StackedConcat(ElemSlots(|vs|, size + SlotSize(elem), Size(elem)), size, top, ExprsSlots(LayExprs(vs, top).0),
                    LayExprs(vs, top).1);
    case Index(x, i) => PairStacked(e, x, i, size);
    case _ => NothingStacked(size);
  }

  /** The elements stay inside the room that the layout makes for them with padded sizes. */
  lemma ArrayStacked(n: nat, elem: Type, size: nat)
    ensures Stacked(ElemSlots(n, size + SlotSize(elem), Size(elem)), size, size + SlotSize(elem) * n + SlotSize(elem))
  {
    hide Stacked, ElemSlots;
    var k, s := Size(elem), SlotSize(elem);
    ElemsStacked(n, size + s, k);
    assert n * k <= n * s && n * s == s * n;
    StackedWider(ElemSlots(n, size + s, k), size + s, size + s + n * k, size, size + s * n + s);
  }

  lemma {:induction false} PairStacked(e: Expr, x: Expr, y: Expr, size: nat)
    requires x < e && y < e && PlainTargets(x) && PlainTargets(y)
    ensures var r := LayExpr(x, size); var q := LayExpr(y, r.1);
            Stacked(ExprSlots(r.0) + ExprSlots(q.0), size, q.1)
    decreases e, 0
  {
    ExprStacked(x, size);
    var r := LayExpr(x, size);
    ExprStacked(y, r.1);
    StackedConcat(ExprSlots(r.0), size, r.1, ExprSlots(LayExpr(y, r.1).0), LayExpr(y, r.1).1);
  }

  lemma {:induction false} ExprsStacked(es: seq<Expr>, size: nat)
    requires forall x | x in es :: PlainTargets(x)
    ensures Stacked(ExprsSlots(LayExprs(es, size).0), size, LayExprs(es, size).1)
    decreases es
  {
    if es != [] {
      ExprStacked(es[0], size);
      var r := LayExpr(es[0], size);
      ExprsStacked(es[1..], r.1);
      StackedConcat(ExprSlots(r.0), size, r.1, ExprsSlots(LayExprs(es[1..], r.1).0), LayExprs(es[1..], r.1).1);
    }
  }

  lemma {:induction false} OptionStacked(e: Option<Expr>, size: nat)
    requires PlainOption(e)
    ensures Stacked(OptionSlots(LayOption(e, size).0), size, LayOption(e, size).1)
  {
    if e.Some? {
      ExprStacked(e.value, size);
    }
  }

  lemma {:induction false} StmtStacked(s: Stmt, l: Lay)
    requires PlainStmt(s) && l.Valid()
    ensures Stacked(StmtSlots(LayStmt(s, l).0), l.size, LayStmt(s, l).1.size)
    decreases s
  {
    hide Stacked, ExprSlots, LayExpr;
    match s
    case ExprStmt(e) => ExprStacked(e, l.size);
    case BlockStmt(b) => BlockStacked(b, l);
    case VarDecl(x, ty, init, _) =>
      var off := l.size + SlotSize(ty);
      OptionStacked(init, off);
      OneStacked(off, Size(ty), l.size);
      StackedConcat([Slot(off, Size(ty))], l.size, off, OptionSlots(LayOption(init, off).0), LayOption(init, off).1);
    case If(cond, thn, els) =>
      ExprStacked(cond, l.size);
      var r1 := LayExpr(cond, l.size);
      var l1 := l.(size := r1.1);
      BlockStacked(thn, l1);
      var r2 := LayBlock(thn, l1);
      StackedConcat(ExprSlots(r1.0), l.size, r1.1, BlockSlots(r2.0), r2.1.size);
      if els.Some? {
        BlockStacked(els.value, r2.1);
        var r3 := LayBlock(els.value, r2.1);
        StackedConcat(ExprSlots(r1.0) + BlockSlots(r2.0), l.size, r2.1.size, BlockSlots(r3.0), r3.1.size);
      } else {
        assert ExprSlots(r1.0) + BlockSlots(r2.0) + [] == ExprSlots(r1.0) + BlockSlots(r2.0);
      }
    case While(cond, body) =>
      ExprStacked(cond, l.size);
      var r1 := LayExpr(cond, l.size);
      BlockStacked(body, l.(size := r1.1));
      var r2 := LayBlock(body, l.(size := r1.1));
      StackedConcat(ExprSlots(r1.0), l.size, r1.1, BlockSlots(r2.0), r2.1.size);
    case For(_, _, _, _, _, _, _, _) => NothingStacked(l.size);
    case Return(e) => OptionStacked(e, l.size);
  }

  lemma NothingStacked(lo: nat)
    ensures Stacked([], lo, lo)
  {
  }

  lemma OneStacked(off: nat, k: nat, lo: nat)
    requires lo + k <= off
    ensures Stacked([Slot(off, k)], lo, off)
  {
  }

  lemma {:induction false} StmtsStacked(stmts: seq<Stmt>, l: Lay)
    requires (forall s | s in stmts :: PlainStmt(s)) && l.Valid()
    ensures Stacked(StmtsSlots(LayStmts(stmts, l).0), l.size, LayStmts(stmts, l).1.size)
    decreases stmts
  {
    hide Stacked, StmtSlots, LayStmt;
    if stmts == [] {
      NothingStacked(l.size);
    } else {
      StmtStacked(stmts[0], l);
      var r := LayStmt(stmts[0], l);
      StmtsStacked(stmts[1..], r.1);
      var q := LayStmts(stmts[1..], r.1);
      StackedConcat(StmtSlots(r.0), l.size, r.1.size, StmtsSlots(q.0), q.1.size);
    }
  }

  lemma {:induction false} BlockStacked(b: Block, l: Lay)
    requires PlainBlock(b) && l.Valid()
    ensures Stacked(BlockSlots(LayBlock(b, l).0), l.size, LayBlock(b, l).1.size)
    decreases b
  {
    StmtsStacked(b.stmts, l.Push());
  }

  lemma {:induction false} ParamsStacked(params: seq<Param>, l: Lay)
    requires l.Valid()
    ensures Stacked(ParamSlots(params, LayParams(params, l).0), l.size, LayParams(params, l).1.size)
    decreases |params|
  {
    hide Stacked;
    if params == [] {
      NothingStacked(l.size);
    } else {
      var off := l.size + Size(params[0].ty);
      var l1 := l.(size := off).Insert(params[0].ident, Parameter(params[0].ty, off));
      ParamsStacked(params[1..], l1);
      var r := LayParams(params[1..], l1);
      OneStacked(off, Size(params[0].ty), l.size);
      assert ([off] + r.0)[1..] == r.0;
      StackedConcat([Slot(off, Size(params[0].ty))], l.size, off, ParamSlots(params[1..], r.0), r.1.size);
    }
  }

  /** Frame layout: in every procedure, however nested, all variables, array elements and parameters
      lie below one another between the frame base and the end of the frame. */
  lemma ProcStacked(p: Proc, l: Lay)
    requires PlainBlock(p.body) && l.Valid()
    ensures Stacked(ProcSlots(LayProc(p, l).0), 0, LayProc(p, l).0.stackSize)
  {
    hide Stacked;
    var l0 := l.Insert(p.name, Routine(p.sig)).(size := 0);
    BlockStacked(p.body, l0);
    var r := LayBlock(p.body, l0);
    var l1 := r.1.(head := r.0.table);
    ParamsStacked(p.sig.params, l1);
    var q := LayParams(p.sig.params, l1);
    StackedConcat(BlockSlots(r.0), 0, r.1.size, ParamSlots(p.sig.params, q.0), q.1.size);
  }

  /** So writing one object of a frame never changes another one, and never leaves the frame. */
  lemma SlotsIndependent(p: Proc, l: Lay, mem: Mem, base: int, i: nat, j: nat, v: nat)
    requires PlainBlock(p.body) && l.Valid()
    requires var s := ProcSlots(LayProc(p, l).0); i < |s| && j < |s| && i != j
    ensures var q := LayProc(p, l).0;
            var x, y := ProcSlots(q)[i], ProcSlots(q)[j];
            base - q.stackSize <= base - x.offset && base - x.offset + x.size <= base &&
            Load(Store(mem, base - x.offset, x.size, v), base - y.offset, y.size) == Load(mem, base - y.offset, y.size)
  {
    hide ProcSlots, LayProc, Load, Store;
    ProcStacked(p, l);
    var x, y := ProcSlots(LayProc(p, l).0)[i], ProcSlots(LayProc(p, l).0)[j];
    var m := Store(mem, base - x.offset, x.size, v);
    forall a | base - y.offset <= a < base - y.offset + y.size ensures Get(m, a) == Get(mem, a) {
      StoreOutside(mem, base - x.offset, x.size, v, a);
    }
    LoadSame(m, mem, base - y.offset, y.size);
  }
}
