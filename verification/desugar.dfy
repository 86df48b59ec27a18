/** Desugaring keeps the meaning of every program in which no loop body hides, in its own block, a
    name that the update of its for loop uses. */
module Desugar {
  import opened Types
  import opened Memory
  import opened Words
  import opened Syntax
  import opened Typing
  import opened Semantics
  import opened Expand

  /** The names in the expression mean the same in both environments. */
  predicate SameNames(e: Expr, s: Env, t: Env)
    decreases e
  {
    match e
    case Ident(x) => (x in s <==> x in t) && (x in s ==> s[x] == t[x])
    case Grouping(inner) => SameNames(inner, s, t)
    case Binary(_, l, r) => SameNames(l, s, t) && SameNames(r, s, t)
    case Unary(_, node) => SameNames(node, s, t)
    case Call(callee, args) => SameNames(callee, s, t) && forall x | x in args :: SameNames(x, s, t)
    case Assign(target, v) => SameNames(target, s, t) && SameNames(v, s, t)
    case Array(vs, _, _) => forall x | x in vs :: SameNames(x, s, t)
    case Index(x, i) => SameNames(x, s, t) && SameNames(i, s, t)
    case _ => true
  }

  lemma {:induction false} NamesType(e: Expr, s: Env, t: Env)
    requires SameNames(e, s, t)
    ensures TypeOf(e, s) == TypeOf(e, t) && AddrTypeOf(e, s) == AddrTypeOf(e, t)
    decreases e
  {
    match e
    case Grouping(inner) => NamesType(inner, s, t);
    case Binary(_, l, r) =>
      NamesType(l, s, t);
      NamesType(r, s, t);
    case Unary(_, node) => NamesType(node, s, t);
    case Call(callee, args) =>
      NamesType(callee, s, t);
      forall i | 0 <= i < |args| ensures TypeOf(args[i], s) == TypeOf(args[i], t) {
        NamesType(args[i], s, t);
      }
      forall params: seq<Param> ensures ArgsTyped(params, args, s) == ArgsTyped(params, args, t) {
      }
    case Assign(target, v) =>
      NamesType(target, s, t);
      NamesType(v, s, t);
    case Array(vs, _, _) =>
      forall v | v in vs ensures TypeOf(v, s) == TypeOf(v, t) {
        NamesType(v, s, t);
      }
    case Index(x, i) =>
      NamesType(x, s, t);
      NamesType(i, s, t);
    case _ =>
  }

  /** Two activations that differ only in names the expression does not use. */
  predicate Alike(e: Expr, a: Act, b: Act) {
    a.base == b.base && a.acc == b.acc && SameNames(e, a.env, b.env)
  }

  lemma {:induction false} NamesEval(c: Ctx, fuel: nat, e: Expr, a: Act, b: Act, sp: int, mem: Mem)
    requires mem.Keys <= a.acc && Alike(e, a, b)
    ensures Eval(c, fuel, e, a, sp, mem) == Eval(c, fuel, e, b, sp, mem)
    decreases e, 2
  {
    hide TypeOf, ReadFrom, WriteTo, CallProc, BinaryValue, ProcAt, Callable, ElementAddress, EvalAssign, EvalCall;
    NamesType(e, a.env, b.env);
    match e
    case Grouping(inner) => NamesEval(c, fuel, inner, a, b, sp, mem);
    case Binary(_, l, r) =>
      NamesType(l, a.env, b.env);
      NamesType(r, a.env, b.env);
      NamesPair(c, fuel, r, l, e, a, b, sp, mem);
    case Index(_, _) =>
      if TypeOf(e, a.env).Some? {
        ElementTyped(e, a.env);
        NamesElement(c, fuel, e, a, b, sp, mem);
      }
    case Unary(op, node) =>
      if op.AddrOf? {
        NamesAddr(c, fuel, node, a, b, sp, mem);
      } else {
        NamesEval(c, fuel, node, a, b, sp, mem);
      }
    case Assign(target, v) =>
      if TypeOf(e, a.env).Some? {
        NamesAssign(c, fuel, e, a, b, sp, mem);
      }
    case Array(vs, elem, _) => NamesElems(c, fuel, vs, elem, a.base - (e.offset + |vs| * Size(elem)), a, b, sp, mem);
    case Call(callee, args) =>
      if TypeOf(e, a.env).Some? {
        NamesCall(c, fuel, e, a, b, sp, mem);
      }
    case Ident(_) => NamesIdent(c, fuel, e, a, b, sp, mem);
    case _ =>
  }

  lemma {:induction false} NamesAssign(c: Ctx, fuel: nat, e: Expr, a: Act, b: Act, sp: int, mem: Mem)
    requires mem.Keys <= a.acc && Alike(e, a, b) && e.Assign? && TypeOf(e, a.env).Some? && TypeOf(e, b.env).Some?
    ensures EvalAssign(c, fuel, e, a, sp, mem) == EvalAssign(c, fuel, e, b, sp, mem)
    decreases e, 1
  {
    hide TypeOf, WriteTo, Eval, EvalAddr;
    NamesType(e.rvalue, a.env, b.env);
    NamesAddr(c, fuel, e.target, a, b, sp, mem);
    var r := EvalAddr(c, fuel, e.target, a, sp, mem);
    if r.Done? {
      NamesEval(c, fuel, e.rvalue, a, b, sp - 8, r.mem);
    }
  }

  lemma {:induction false} NamesCall(c: Ctx, fuel: nat, e: Expr, a: Act, b: Act, sp: int, mem: Mem)
    requires mem.Keys <= a.acc && Alike(e, a, b) && e.Call? && TypeOf(e, a.env).Some? && TypeOf(e, b.env).Some?
    ensures EvalCall(c, fuel, e, a, sp, mem) == EvalCall(c, fuel, e, b, sp, mem)
    decreases e, 1
  {
    hide TypeOf, CallProc, Eval, EvalArgs, ProcAt, Callable;
    NamesType(e.callee, a.env, b.env);
    NamesEval(c, fuel, e.callee, a, b, sp, mem);
    var r := Eval(c, fuel, e.callee, a, sp, mem);
    if r.Done? {
      NamesArgs(c, fuel, e.args, a, b, sp - 8, r.mem);
    }
  }

  lemma NamesIdent(c: Ctx, fuel: nat, e: Expr, a: Act, b: Act, sp: int, mem: Mem)
    requires mem.Keys <= a.acc && e.Ident? && Alike(e, a, b)
    ensures Eval(c, fuel, e, a, sp, mem) == Eval(c, fuel, e, b, sp, mem)
  {
    hide ReadFrom;
  }

  lemma {:induction false} NamesPair(c: Ctx, fuel: nat, x: Expr, y: Expr, e: Expr, a: Act, b: Act, sp: int, mem: Mem)
    requires mem.Keys <= a.acc && x < e && y < e && Alike(x, a, b) && Alike(y, a, b)
    ensures Eval(c, fuel, x, a, sp, mem) == Eval(c, fuel, x, b, sp, mem)
    ensures var r := Eval(c, fuel, x, a, sp, mem);
            r.Done? ==> Eval(c, fuel, y, a, sp - 8, r.mem) == Eval(c, fuel, y, b, sp - 8, r.mem)
    decreases e, 0
  {
    hide Eval, SameNames;
    NamesEval(c, fuel, x, a, b, sp, mem);
    var r := Eval(c, fuel, x, a, sp, mem);
    if r.Done? {
      NamesEval(c, fuel, y, a, b, sp - 8, r.mem);
    }
  }

  lemma {:induction false} NamesElement(c: Ctx, fuel: nat, e: Expr, a: Act, b: Act, sp: int, mem: Mem)
    requires mem.Keys <= a.acc && e.Index? && Alike(e, a, b) && AddrTypeOf(e, a.env).Some? && AddrTypeOf(e, b.env).Some?
    ensures EvalElement(c, fuel, e, a, sp, mem) == EvalElement(c, fuel, e, b, sp, mem)
    decreases e, 1
  {
    hide Eval;
    NamesType(e.expr, a.env, b.env);
    NamesType(e.index, a.env, b.env);
    NamesPair(c, fuel, e.index, e.expr, e, a, b, sp, mem);
  }

  lemma {:induction false} NamesAddr(c: Ctx, fuel: nat, e: Expr, a: Act, b: Act, sp: int, mem: Mem)
    requires mem.Keys <= a.acc && Alike(e, a, b)
    ensures EvalAddr(c, fuel, e, a, sp, mem) == EvalAddr(c, fuel, e, b, sp, mem)
    decreases e, 2
  {
    hide Eval;
    NamesType(e, a.env, b.env);
    match e
    case Unary(Deref, node) => NamesEval(c, fuel, node, a, b, sp, mem);
    case Index(_, _) =>
      if AddrTypeOf(e, a.env).Some? {
        NamesElement(c, fuel, e, a, b, sp, mem);
      }
    case _ =>
  }

  lemma {:induction false} NamesArgs(c: Ctx, fuel: nat, args: seq<Expr>, a: Act, b: Act, sp: int, mem: Mem)
    requires mem.Keys <= a.acc && a.acc == b.acc && forall x | x in args :: Alike(x, a, b)
    ensures EvalArgs(c, fuel, args, a, sp, mem) == EvalArgs(c, fuel, args, b, sp, mem)
    decreases args, 0
  {
    hide Eval, Alike;
    if args != [] {
      NamesEval(c, fuel, args[0], a, b, sp, mem);
      var r := Eval(c, fuel, args[0], a, sp, mem);
      if r.Done? {
        NamesArgs(c, fuel, args[1..], a, b, sp, r.mem);
      }
    }
  }

  lemma {:induction false} NamesElems(c: Ctx, fuel: nat, vs: seq<Expr>, elem: Type, at: int, a: Act, b: Act, sp: int,
                                      mem: Mem)
    requires mem.Keys <= a.acc && a.acc == b.acc && forall x | x in vs :: Alike(x, a, b)
    ensures EvalElems(c, fuel, vs, elem, at, a, sp, mem) == EvalElems(c, fuel, vs, elem, at, b, sp, mem)
    decreases vs, 0
  {
    hide Eval, WriteTo, Alike;
    if vs != [] {
      NamesEval(c, fuel, vs[0], a, b, sp, mem);
      var r := EvalInto(c, fuel, vs[0], Size(elem), at, a, sp, mem);
      if r.Done? {
        NamesElems(c, fuel, vs[1..], elem, at + Size(elem), a, b, sp, r.mem);
      }
    }
  }

  /** Expanded, or left alone like the targets of assignments. */
  function Keep(e: Expr, on: bool): Expr {
    if on then ExpandExpr(e) else e
  }

  function KeepAll(es: seq<Expr>, on: bool): (r: seq<Expr>)
    ensures |r| == |es| && forall i | 0 <= i < |es| :: r[i] == Keep(es[i], on)
  {
    if on then ExpandExprs(es) else es
  }

  lemma {:induction false} KeepTypes(e: Expr, on: bool, env: Env)
    ensures TypeOf(Keep(e, on), env) == TypeOf(e, env) && AddrTypeOf(Keep(e, on), env) == AddrTypeOf(e, env)
    decreases e
  {
    if on {
      match e
      case Grouping(inner) => KeepTypes(inner, true, env);
      case Binary(_, l, r) =>
        KeepTypes(l, true, env);
        KeepTypes(r, true, env);
      case Unary(_, node) => KeepTypes(node, true, env);
      case Call(callee, args) =>
        KeepTypes(callee, true, env);
        KeepArgTypes(args, env);
      case Assign(_, v) => KeepTypes(v, true, env);
      case Array(vs, _, _) =>
        forall i | 0 <= i < |vs| ensures TypeOf(ExpandExprs(vs)[i], env) == TypeOf(vs[i], env) {
          KeepTypes(vs[i], true, env);
        }
        ArrayTypes(vs, ExpandExprs(vs), env);
      case Index(x, i) =>
        KeepTypes(x, true, env);
        KeepTypes(i, true, env);
      case _ =>
    }
  }

  lemma {:induction false} KeepArgTypes(args: seq<Expr>, env: Env)
    ensures forall params: seq<Param> :: ArgsTyped(params, ExpandExprs(args), env) == ArgsTyped(params, args, env)
    decreases args
  {
    forall i | 0 <= i < |args| ensures TypeOf(ExpandExprs(args)[i], env) == TypeOf(args[i], env) {
      KeepTypes(args[i], true, env);
    }
  }

  lemma ArrayTypes(vs: seq<Expr>, ws: seq<Expr>, env: Env)
    requires |vs| == |ws| && forall i | 0 <= i < |vs| :: TypeOf(ws[i], env) == TypeOf(vs[i], env)
    ensures (forall v | v in vs :: TypeOf(v, env).Some?) <==> (forall w | w in ws :: TypeOf(w, env).Some?)
  {
    if forall v | v in vs :: TypeOf(v, env).Some? {
      forall w | w in ws ensures TypeOf(w, env).Some? {
        var i :| 0 <= i < |ws| && ws[i] == w;
        assert vs[i] in vs;
      }
    }
    if forall w | w in ws :: TypeOf(w, env).Some? {
      forall v | v in vs ensures TypeOf(v, env).Some? {
        var i :| 0 <= i < |vs| && vs[i] == v;
        assert ws[i] in ws;
      }
    }
  }

  /** None of the names occurs in the expression. */
  predicate Avoids(e: Expr, names: set<string>)
    decreases e
  {
    match e
    case Ident(x) => x !in names
    case Grouping(inner) => Avoids(inner, names)
    case Binary(_, l, r) => Avoids(l, names) && Avoids(r, names)
    case Unary(_, node) => Avoids(node, names)
    case Call(callee, args) => Avoids(callee, names) && forall x | x in args :: Avoids(x, names)
    case Assign(target, v) => Avoids(target, names) && Avoids(v, names)
    case Array(vs, _, _) => forall x | x in vs :: Avoids(x, names)
    case Index(x, i) => Avoids(x, names) && Avoids(i, names)
    case _ => true
  }

  /** Declarations that bring other symbols change what the expression refers to if and only if it
      uses one of their names. */
  lemma {:induction false} NamesShadowed(e: Expr, env: Env, d: Env)
    requires forall x | x in d :: x !in env || env[x] != d[x]
    ensures SameNames(e, env, env + d) <==> Avoids(e, d.Keys)
    decreases e
  {
    match e
    case Grouping(inner) => NamesShadowed(inner, env, d);
    case Binary(_, l, r) =>
      NamesShadowed(l, env, d);
      NamesShadowed(r, env, d);
    case Unary(_, node) => NamesShadowed(node, env, d);
    case Call(callee, args) =>
      NamesShadowed(callee, env, d);
      forall x | x in args ensures SameNames(x, env, env + d) <==> Avoids(x, d.Keys) {
        NamesShadowed(x, env, d);
      }
    case Assign(target, v) =>
      NamesShadowed(target, env, d);
      NamesShadowed(v, env, d);
    case Array(vs, _, _) =>
      forall x | x in vs ensures SameNames(x, env, env + d) <==> Avoids(x, d.Keys) {
        NamesShadowed(x, env, d);
      }
    case Index(x, i) =>
      NamesShadowed(x, env, d);
      NamesShadowed(i, env, d);
    case _ =>
  }

  lemma {:induction false} AvoidedNames(e: Expr, env: Env, d: Env)
    requires Avoids(e, d.Keys)
    ensures SameNames(e, env, env + d)
    decreases e
  {
    match e
    case Grouping(inner) => AvoidedNames(inner, env, d);
    case Binary(_, l, r) =>
      AvoidedNames(l, env, d);
      AvoidedNames(r, env, d);
    case Unary(_, node) => AvoidedNames(node, env, d);
    case Call(callee, args) =>
      AvoidedNames(callee, env, d);
      forall x | x in args ensures SameNames(x, env, env + d) {
        AvoidedNames(x, env, d);
      }
    case Assign(target, v) =>
      AvoidedNames(target, env, d);
      AvoidedNames(v, env, d);
    case Array(vs, _, _) =>
      forall x | x in vs ensures SameNames(x, env, env + d) {
        AvoidedNames(x, env, d);
      }
    case Index(x, i) =>
      AvoidedNames(x, env, d);
      AvoidedNames(i, env, d);
    case _ =>
  }

  /** No loop body declares, in its own block, a name that the update of its for loop uses. */
  predicate UpdatesKeepNames(s: Stmt)
    decreases s
  {
    match s
    case BlockStmt(b) => BlockKeepsNames(b)
    case If(_, thn, els) => BlockKeepsNames(thn) && (els.Some? ==> BlockKeepsNames(els.value))
    case While(_, body) => BlockKeepsNames(body)
    case For(_, _, _, _, update, body, _, _) => BlockKeepsNames(body) && Avoids(update, Declared(body.stmts).Keys)
    case _ => true
  }

  predicate BlockKeepsNames(b: Block)
    decreases b
  {
    forall s | s in b.stmts :: UpdatesKeepNames(s)
  }

  predicate KeepsNames(procs: seq<Proc>) {
    forall p | p in procs :: BlockKeepsNames(p.body)
  }

  /** The same world with every procedure desugared. */
  function ExpandCtx(c: Ctx): Ctx {
    c.(procs := ExpandProcs(c.procs))
  }

  lemma {:induction false} ProcAtExpanded(procs: seq<Proc>, link: map<string, word>, at: nat)
    ensures var p := ProcAt(procs, link, at);
            ProcAt(ExpandProcs(procs), link, at) == if p.Some? then Some(ExpandProc(p.value)) else None
    decreases |procs|
  {
    if procs != [] {
      ProcAtExpanded(procs[1..], link, at);
      assert ExpandProcs(procs)[1..] == ExpandProcs(procs[1..]);
    }
  }

  lemma {:induction false} ExprMeans(c: Ctx, fuel: nat, e: Expr, on: bool, a: Act, sp: int, mem: Mem)
    requires KeepsNames(c.procs) && mem.Keys <= a.acc
    ensures Eval(ExpandCtx(c), fuel, Keep(e, on), a, sp, mem) == Eval(c, fuel, e, a, sp, mem)
    decreases fuel, e, 2
  {
    hide TypeOf, ReadFrom, WriteTo, CallProc, KeepsNames, EvalBinary, EvalCall, EvalAssign, EvalIndex, EvalUnary,
      EvalElems;
    var d := ExpandCtx(c);
    KeepTypes(e, on, a.env);
    if TypeOf(e, a.env).Some? {
      match e
      case Grouping(inner) => ExprMeans(c, fuel, inner, on, a, sp, mem);
      case Binary(_, _, _) => BinaryMeans(c, fuel, e, on, a, sp, mem);
      case Index(_, _) => IndexMeans(c, fuel, e, on, a, sp, mem);
      case Unary(op, node) =>
        if op.AddrOf? {
          AddrMeans(c, fuel, node, on, a, sp, mem);
        } else {
          UnaryMeans(c, fuel, e, on, a, sp, mem);
        }
      case Assign(_, _) => AssignMeans(c, fuel, e, on, a, sp, mem);
      case Array(vs, elem, off) =>
        ElemsMean(c, fuel, vs, elem, on, a.base - (off + |vs| * Size(elem)), a, sp, mem);
        assert Keep(e, on) == Array(KeepAll(vs, on), elem, off);
      case Call(_, _) => CallMeans(c, fuel, e, on, a, sp, mem);
      case _ =>
    }
  }

  lemma {:induction false} PairMeans(c: Ctx, fuel: nat, x: Expr, y: Expr, e: Expr, on: bool, a: Act, sp: int, mem: Mem)
    requires KeepsNames(c.procs) && mem.Keys <= a.acc && x < e && y < e
    ensures Eval(ExpandCtx(c), fuel, Keep(x, on), a, sp, mem) == Eval(c, fuel, x, a, sp, mem)
    ensures var r := Eval(c, fuel, x, a, sp, mem);
            r.Done? ==> Eval(ExpandCtx(c), fuel, Keep(y, on), a, sp - 8, r.mem) == Eval(c, fuel, y, a, sp - 8, r.mem)
    decreases fuel, e, 0
  {
    hide Eval, KeepsNames, Keep;
    ExprMeans(c, fuel, x, on, a, sp, mem);
    var r := Eval(c, fuel, x, a, sp, mem);
    if r.Done? {
      ExprMeans(c, fuel, y, on, a, sp - 8, r.mem);
    }
  }

  lemma {:induction false} BinaryMeans(c: Ctx, fuel: nat, e: Expr, on: bool, a: Act, sp: int, mem: Mem)
    requires KeepsNames(c.procs) && mem.Keys <= a.acc && e.Binary? && TypeOf(e, a.env).Some?
    ensures Eval(ExpandCtx(c), fuel, Keep(e, on), a, sp, mem) == Eval(c, fuel, e, a, sp, mem)
    decreases fuel, e, 1
  {
    var d, k := ExpandCtx(c), Keep(e, on);
    KeepTypes(e, on, a.env);
    KeepTypes(e.lhs, on, a.env);
    KeepTypes(e.rhs, on, a.env);
    PairMeans(c, fuel, e.rhs, e.lhs, e, on, a, sp, mem);
    assert k == Binary(e.op, Keep(e.lhs, on), Keep(e.rhs, on));
    assert Eval(d, fuel, k, a, sp, mem) == EvalBinary(d, fuel, k, a, sp, mem);
    assert Eval(c, fuel, e, a, sp, mem) == EvalBinary(c, fuel, e, a, sp, mem);
    hide Eval, TypeOf, Keep, KeepsNames;
  }

  /** Addressing an element is adding to the pointer with the scaling of pointer arithmetic. */
  lemma ElementIsSum(lt: Type, rt: Type, l: nat, r: nat)
    requires BinaryType(lt, rt).Some? && l < Modulus(Size(lt)) && r < Modulus(Size(rt))
    ensures ElementAddress(lt, rt, l, r) == BinaryValue(Add, lt, rt, l, r)
  {
  }

  lemma {:induction false} ElementMeans(c: Ctx, fuel: nat, e: Expr, a: Act, sp: int, mem: Mem)
    requires KeepsNames(c.procs) && mem.Keys <= a.acc && e.Index? && AddrTypeOf(e, a.env).Some?
    ensures Eval(ExpandCtx(c), fuel, Binary(Add, ExpandExpr(e.expr), ExpandExpr(e.index)), a, sp, mem) ==
            EvalElement(c, fuel, e, a, sp, mem)
    decreases fuel, e, 1, 0
  {
    var d, k := ExpandCtx(c), Binary(Add, ExpandExpr(e.expr), ExpandExpr(e.index));
    KeepTypes(e.expr, true, a.env);
    KeepTypes(e.index, true, a.env);
    PairMeans(c, fuel, e.index, e.expr, e, true, a, sp, mem);
    assert Eval(d, fuel, k, a, sp, mem) == EvalBinary(d, fuel, k, a, sp, mem);
    var lt, rt := Ty(e.expr, a.env), Ty(e.index, a.env);
    assert BinaryType(lt, rt).Some?;
    hide Eval, TypeOf, KeepsNames, ElementAddress, BinaryValue, BinaryType;
    var n := Eval(c, fuel, e.index, a, sp, mem);
    if n.Done? && RoomFor(c, sp) {
      var p := Eval(c, fuel, e.expr, a, sp - 8, n.mem);
      if p.Done? {
        ElementIsSum(lt, rt, p.value, n.value);
      }
    }
  }

  lemma {:induction false} IndexMeans(c: Ctx, fuel: nat, e: Expr, on: bool, a: Act, sp: int, mem: Mem)
    requires KeepsNames(c.procs) && mem.Keys <= a.acc && e.Index? && TypeOf(e, a.env).Some?
    ensures Eval(ExpandCtx(c), fuel, Keep(e, on), a, sp, mem) == Eval(c, fuel, e, a, sp, mem)
    decreases fuel, e, 1, 1
  {
    var d, k := ExpandCtx(c), Keep(e, on);
    KeepTypes(e, on, a.env);
    ElementTyped(e, a.env);
    assert Eval(c, fuel, e, a, sp, mem) == EvalIndex(c, fuel, e, a, sp, mem);
    if on {
      ElementMeans(c, fuel, e, a, sp, mem);
      assert Eval(d, fuel, k, a, sp, mem) == EvalUnary(d, fuel, k, a, sp, mem);
      hide Eval, TypeOf, KeepsNames, ReadFrom;
    } else {
      assert Eval(d, fuel, k, a, sp, mem) == EvalIndex(d, fuel, k, a, sp, mem);
      PairMeans(c, fuel, e.index, e.expr, e, false, a, sp, mem);
      hide Eval, TypeOf, KeepsNames, ReadFrom;
      assert EvalElement(d, fuel, k, a, sp, mem) == EvalElement(c, fuel, e, a, sp, mem);
    }
  }

  lemma {:induction false} UnaryMeans(c: Ctx, fuel: nat, e: Expr, on: bool, a: Act, sp: int, mem: Mem)
    requires KeepsNames(c.procs) && mem.Keys <= a.acc && e.Unary? && !e.uop.AddrOf? && TypeOf(e, a.env).Some?
    ensures Eval(ExpandCtx(c), fuel, Keep(e, on), a, sp, mem) == Eval(c, fuel, e, a, sp, mem)
    decreases fuel, e, 1
  {
    hide Eval, TypeOf, KeepsNames, ReadFrom, ExpandCtx;
    var d, k := ExpandCtx(c), Keep(e, on);
    KeepTypes(e, on, a.env);
    ExprMeans(c, fuel, e.node, on, a, sp, mem);
    assert k == Unary(e.uop, Keep(e.node, on));
    hide Keep;
    UnaryEval(d, fuel, k, a, sp, mem);
    UnaryEval(c, fuel, e, a, sp, mem);
  }

  lemma UnaryEval(c: Ctx, fuel: nat, e: Expr, a: Act, sp: int, mem: Mem)
    requires mem.Keys <= a.acc && e.Unary? && !e.uop.AddrOf? && TypeOf(e, a.env).Some?
    ensures Eval(c, fuel, e, a, sp, mem) == EvalUnary(c, fuel, e, a, sp, mem)
  {
    hide TypeOf;
  }

  lemma {:induction false} AddrMeans(c: Ctx, fuel: nat, e: Expr, on: bool, a: Act, sp: int, mem: Mem)
    requires KeepsNames(c.procs) && mem.Keys <= a.acc
    ensures EvalAddr(ExpandCtx(c), fuel, Keep(e, on), a, sp, mem) == EvalAddr(c, fuel, e, a, sp, mem)
    decreases fuel, e, 2
  {
    hide Eval, KeepsNames;
    var d := ExpandCtx(c);
    KeepTypes(e, on, a.env);
    if AddrTypeOf(e, a.env).Some? {
      match e
      case Unary(Deref, node) => ExprMeans(c, fuel, node, on, a, sp, mem);
      case Index(x, i) =>
        if on {
          ElementMeans(c, fuel, e, a, sp, mem);
        } else {
          PairMeans(c, fuel, i, x, e, false, a, sp, mem);
        }
      case _ =>
    }
  }

  lemma {:induction false} AssignMeans(c: Ctx, fuel: nat, e: Expr, on: bool, a: Act, sp: int, mem: Mem)
    requires KeepsNames(c.procs) && mem.Keys <= a.acc && e.Assign? && TypeOf(e, a.env).Some?
    ensures Eval(ExpandCtx(c), fuel, Keep(e, on), a, sp, mem) == Eval(c, fuel, e, a, sp, mem)
    decreases fuel, e, 1
  {
    var d, k := ExpandCtx(c), Keep(e, on);
    KeepTypes(e, on, a.env);
    KeepTypes(e.rvalue, on, a.env);
    AddrMeans(c, fuel, e.target, false, a, sp, mem);
    var r := EvalAddr(c, fuel, e.target, a, sp, mem);
    if r.Done? {
      ExprMeans(c, fuel, e.rvalue, on, a, sp - 8, r.mem);
    }
    assert k == Assign(e.target, Keep(e.rvalue, on));
    assert Eval(d, fuel, k, a, sp, mem) == EvalAssign(d, fuel, k, a, sp, mem);
    assert Eval(c, fuel, e, a, sp, mem) == EvalAssign(c, fuel, e, a, sp, mem);
    hide Eval, EvalAddr, TypeOf, KeepsNames, WriteTo;
  }

  /** A call once callee and arguments have their values. */
  function Invoked(c: Ctx, fuel: nat, via: Signature, at: nat, vs: seq<nat>, sp: int, acc: set<int>,
                   mem: Mem): Outcome<nat>
    requires mem.Keys <= acc
  {
    var p := ProcAt(c.procs, c.link, at);
    if p.None? || !Callable(via, p.value) || |vs| != |via.params| then Undefined
    else if fuel == 0 then OutOfFuel
    else CallProc(c, fuel - 1, p.value, vs, sp, acc, mem)
  }

  lemma EvalOfCall(c: Ctx, fuel: nat, e: Expr, a: Act, sp: int, mem: Mem)
    requires mem.Keys <= a.acc && e.Call? && TypeOf(e, a.env).Some?
    ensures Ty(e.callee, a.env).Procedure?
    ensures var f := Eval(c, fuel, e.callee, a, sp, mem);
            if !f.Done? then Eval(c, fuel, e, a, sp, mem) == f
            else if !RoomFor(c, sp) then Eval(c, fuel, e, a, sp, mem) == Undefined
            else
              var vs := EvalArgs(c, fuel, e.args, a, sp - 8, f.mem);
              Eval(c, fuel, e, a, sp, mem) ==
              if vs.Done? then Invoked(c, fuel, Ty(e.callee, a.env).sig, f.value, vs.value, sp, a.acc, vs.mem)
              else if vs.OutOfFuel? then OutOfFuel else Undefined
  {
    hide EvalArgs, CallProc, ProcAt, Callable;
    assert Eval(c, fuel, e, a, sp, mem) == EvalCall(c, fuel, e, a, sp, mem);
  }

  lemma {:induction false} CallMeans(c: Ctx, fuel: nat, e: Expr, on: bool, a: Act, sp: int, mem: Mem)
    requires KeepsNames(c.procs) && mem.Keys <= a.acc && e.Call? && TypeOf(e, a.env).Some?
    ensures Eval(ExpandCtx(c), fuel, Keep(e, on), a, sp, mem) == Eval(c, fuel, e, a, sp, mem)
    decreases fuel, e, 1
  {
    var d, k := ExpandCtx(c), Keep(e, on);
    KeepTypes(e, on, a.env);
    KeepTypes(e.callee, on, a.env);
    assert k == Call(Keep(e.callee, on), KeepAll(e.args, on));
    hide Eval, EvalArgs, TypeOf, KeepsNames, Invoked, Keep;
    EvalOfCall(d, fuel, k, a, sp, mem);
    EvalOfCall(c, fuel, e, a, sp, mem);
    ExprMeans(c, fuel, e.callee, on, a, sp, mem);
    var f := Eval(c, fuel, e.callee, a, sp, mem);
    if f.Done? && RoomFor(c, sp) {
      ArgsMean(c, fuel, e.args, on, a, sp - 8, f.mem);
      var vs := EvalArgs(c, fuel, e.args, a, sp - 8, f.mem);
      if vs.Done? {
        InvokedMeans(c, fuel, e, Ty(e.callee, a.env).sig, f.value, vs.value, sp, a.acc, vs.mem);
      }
    }
  }

  lemma {:induction false} InvokedMeans(c: Ctx, fuel: nat, e: Expr, via: Signature, at: nat, vs: seq<nat>, sp: int,
                                        acc: set<int>, mem: Mem)
    requires KeepsNames(c.procs) && mem.Keys <= acc
    ensures Invoked(ExpandCtx(c), fuel, via, at, vs, sp, acc, mem) == Invoked(c, fuel, via, at, vs, sp, acc, mem)
    decreases fuel, e, 0
  {
    hide KeepsNames, CallProc, ProcAt, Callable;
    ProcAtExpanded(c.procs, c.link, at);
    var p := ProcAt(c.procs, c.link, at);
    if p.Some? {
      SameCallable(via, p.value);
      if Callable(via, p.value) && |vs| == |via.params| && fuel > 0 {
        CallableCounts(via, p.value);
        ProcMeans(c, fuel - 1, p.value, vs, sp, acc, mem);
      }
    }
  }

  lemma SameCallable(via: Signature, p: Proc)
    ensures Callable(via, ExpandProc(p)) == Callable(via, p)
  {
  }

  lemma CallableCounts(via: Signature, p: Proc)
    requires Callable(via, p)
    ensures |via.params| == |p.sig.params| == |p.slots|
  {
  }

  lemma {:induction false} ArgsMean(c: Ctx, fuel: nat, args: seq<Expr>, on: bool, a: Act, sp: int, mem: Mem)
    requires KeepsNames(c.procs) && mem.Keys <= a.acc
    ensures EvalArgs(ExpandCtx(c), fuel, KeepAll(args, on), a, sp, mem) == EvalArgs(c, fuel, args, a, sp, mem)
    decreases fuel, args, 0
  {
    hide Eval, KeepsNames, Keep;
    if args != [] {
      ExprMeans(c, fuel, args[0], on, a, sp, mem);
      var r := Eval(c, fuel, args[0], a, sp, mem);
      assert KeepAll(args, on)[1..] == KeepAll(args[1..], on);
      if r.Done? {
        ArgsMean(c, fuel, args[1..], on, a, sp, r.mem);
      }
    }
  }

  lemma {:induction false} ElemsMean(c: Ctx, fuel: nat, vs: seq<Expr>, elem: Type, on: bool, at: int, a: Act, sp: int,
                                     mem: Mem)
    requires KeepsNames(c.procs) && mem.Keys <= a.acc
    ensures EvalElems(ExpandCtx(c), fuel, KeepAll(vs, on), elem, at, a, sp, mem) ==
            EvalElems(c, fuel, vs, elem, at, a, sp, mem)
    decreases fuel, vs, 0
  {
    hide Eval, KeepsNames, Keep, WriteTo;
    if vs != [] {
      ExprMeans(c, fuel, vs[0], on, a, sp, mem);
      var r := EvalInto(c, fuel, vs[0], Size(elem), at, a, sp, mem);
      assert KeepAll(vs, on)[1..] == KeepAll(vs[1..], on);
      if r.Done? {
        ElemsMean(c, fuel, vs[1..], elem, on, at + Size(elem), a, sp, r.mem);
      }
    }
  }

  /** A call of a desugared procedure in the desugared world means what the call meant. */
  lemma ExpandedFrame(c: Ctx, p: Proc)
    requires |p.slots| == |p.sig.params|
    ensures var d, q := ExpandCtx(c), ExpandProc(p);
            d.limit == c.limit && d.globals == c.globals && q.sig == p.sig && q.slots == p.slots &&
            q.stackSize == p.stackSize && |q.slots| == |q.sig.params| && q.body == ExpandBlock(p.body) &&
            ProcEnv(q, d.globals) == ProcEnv(p, c.globals)
  {
    hide ExpandBlock;
  }

  lemma {:induction false} ProcMeans(c: Ctx, fuel: nat, p: Proc, vs: seq<nat>, sp: int, acc: set<int>, mem: Mem)
    requires KeepsNames(c.procs) && p in c.procs && mem.Keys <= acc && |vs| == |p.slots| == |p.sig.params|
    ensures CallProc(ExpandCtx(c), fuel, ExpandProc(p), vs, sp, acc, mem) == CallProc(c, fuel, p, vs, sp, acc, mem)
    decreases fuel, p.body, 3
  {
    assert BlockKeepsNames(p.body);
    hide ExecBlock, Bind, FinishCall, KeepsNames, BlockKeepsNames, ExpandBlock, ExpandProc, ExpandCtx, ProcEnv, Range,
      CallProc;
    ExpandedFrame(c, p);
    var base, low := sp - 16, sp - 16 - p.stackSize;
    var live := acc + Range(low, p.stackSize);
    var r := Bind(p.sig.params, p.slots, vs, base, live, mem);
    if low >= c.limit && r.Done? {
      BlockMeans(c, fuel, p.body, Act(ProcEnv(p, c.globals), base, live), low, r.mem);
    }
    SameCall(c, ExpandCtx(c), fuel, p, ExpandProc(p), vs, sp, acc, mem);
  }

  /** Two procedures with the same frame mean the same if their bodies do. */
  lemma SameCall(c: Ctx, d: Ctx, fuel: nat, p: Proc, q: Proc, vs: seq<nat>, sp: int, acc: set<int>, mem: Mem)
    requires mem.Keys <= acc && |vs| == |p.slots| == |p.sig.params|
    requires q.sig == p.sig && q.slots == p.slots && q.stackSize == p.stackSize && d.limit == c.limit
    requires var base, low := sp - 16, sp - 16 - p.stackSize;
             var live := acc + Range(low, p.stackSize);
             var r := Bind(p.sig.params, p.slots, vs, base, live, mem);
             low >= c.limit && r.Done? ==>
               ExecBlock(d, fuel, q.body, Act(ProcEnv(q, d.globals), base, live), low, r.mem) ==
               ExecBlock(c, fuel, p.body, Act(ProcEnv(p, c.globals), base, live), low, r.mem)
    ensures CallProc(d, fuel, q, vs, sp, acc, mem) == CallProc(c, fuel, p, vs, sp, acc, mem)
  {
    hide ExecBlock, Bind, FinishCall, ProcEnv, Range;
  }

  lemma {:induction false} ExpandedDeclares(stmts: seq<Stmt>)
    ensures Declared(ExpandStmts(stmts)) == Declared(stmts)
    decreases |stmts|
  {
    if stmts != [] {
      ExpandedDeclares(stmts[1..]);
      assert ExpandStmts(stmts)[1..] == ExpandStmts(stmts[1..]);
    }
  }

  lemma {:induction false} BlockMeans(c: Ctx, fuel: nat, b: Block, a: Act, sp: int, mem: Mem)
    requires KeepsNames(c.procs) && BlockKeepsNames(b) && mem.Keys <= a.acc
    ensures ExecBlock(ExpandCtx(c), fuel, ExpandBlock(b), a, sp, mem) == ExecBlock(c, fuel, b, a, sp, mem)
    decreases fuel, b, 2
  {
    hide ExecStmts, KeepsNames, UpdatesKeepNames;
    ExpandedDeclares(b.stmts);
    StmtsMean(c, fuel, b.stmts, a.(env := a.env + Declared(b.stmts)), sp, mem);
  }

  lemma {:induction false} StmtsMean(c: Ctx, fuel: nat, stmts: seq<Stmt>, a: Act, sp: int, mem: Mem)
    requires KeepsNames(c.procs) && (forall s | s in stmts :: UpdatesKeepNames(s)) && mem.Keys <= a.acc
    ensures ExecStmts(ExpandCtx(c), fuel, ExpandStmts(stmts), a, sp, mem) == ExecStmts(c, fuel, stmts, a, sp, mem)
    decreases fuel, stmts, 0
  {
    hide ExecStmt, KeepsNames, UpdatesKeepNames, ExpandStmt;
    if stmts != [] {
      StmtMeans(c, fuel, stmts[0], a, sp, mem);
      var r := ExecStmt(c, fuel, stmts[0], a, sp, mem);
      assert ExpandStmts(stmts)[1..] == ExpandStmts(stmts[1..]);
      if r.Done? {
        StmtsMean(c, fuel, stmts[1..], a, sp, r.mem);
      }
    }
  }

  lemma {:induction false} DeclareMeans(c: Ctx, fuel: nat, ty: Type, e: Expr, at: int, a: Act, sp: int, mem: Mem)
    requires KeepsNames(c.procs) && mem.Keys <= a.acc
    ensures Declare(ExpandCtx(c), fuel, ty, ExpandExpr(e), at, a, sp, mem) == Declare(c, fuel, ty, e, at, a, sp, mem)
    decreases fuel, e, 3
  {
    hide Eval, WriteTo, KeepsNames;
    KeepTypes(e, true, a.env);
    ExprMeans(c, fuel, e, true, a, sp, mem);
  }

  lemma {:induction false} StmtMeans(c: Ctx, fuel: nat, s: Stmt, a: Act, sp: int, mem: Mem)
    requires KeepsNames(c.procs) && UpdatesKeepNames(s) && mem.Keys <= a.acc
    ensures ExecStmt(ExpandCtx(c), fuel, ExpandStmt(s), a, sp, mem) == ExecStmt(c, fuel, s, a, sp, mem)
    decreases fuel, s, 3
  {
    hide Eval, ExecBlock, Declare, KeepsNames, TypeOf, ExpandExpr, ExpandBlock, ExecFor;
    match s
    case ExprStmt(e) => ExprMeans(c, fuel, e, true, a, sp, mem);
    case BlockStmt(b) => BlockMeans(c, fuel, b, a, sp, mem);
    case VarDecl(_, ty, init, off) =>
      if init.Some? {
        DeclareMeans(c, fuel, ty, init.value, a.base - off, a, sp, mem);
      }
    case If(cond, thn, els) =>
      ExprMeans(c, fuel, cond, true, a, sp, mem);
      var r := Eval(c, fuel, cond, a, sp, mem);
      if r.Done? {
        BlockMeans(c, fuel, thn, a, sp, r.mem);
        if els.Some? {
          BlockMeans(c, fuel, els.value, a, sp, r.mem);
        }
      }
    case While(_, _) => WhileMeans(c, fuel, s, a, sp, mem);
    case For(_, _, _, _, _, _, _, _) => ForMeans(c, fuel, s, a, sp, mem);
    case Return(e) =>
      if e.Some? {
        KeepTypes(e.value, true, a.env);
        ExprMeans(c, fuel, e.value, true, a, sp, mem);
      }
  }

  lemma {:induction false} WhileMeans(c: Ctx, fuel: nat, s: Stmt, a: Act, sp: int, mem: Mem)
    requires KeepsNames(c.procs) && s.While? && BlockKeepsNames(s.body) && mem.Keys <= a.acc
    ensures ExecWhile(ExpandCtx(c), fuel, ExpandStmt(s), a, sp, mem) == ExecWhile(c, fuel, s, a, sp, mem)
    decreases fuel, s, 2
  {
    hide Eval, ExecBlock, KeepsNames, BlockKeepsNames, ExpandExpr, ExpandBlock;
    ExprMeans(c, fuel, s.cond, true, a, sp, mem);
    var r := Eval(c, fuel, s.cond, a, sp, mem);
    if r.Done? && Truth(r.value) && fuel > 0 {
      BlockMeans(c, fuel - 1, s.body, a, sp, r.mem);
      var q := ExecBlock(c, fuel - 1, s.body, a, sp, r.mem);
      if q.Done? {
        WhileMeans(c, fuel - 1, s, a, sp, q.mem);
      }
    }
  }

  /** The block that a for loop becomes declares just the variable of the loop. */
  lemma ForDeclares(s: Stmt, env: Env)
    requires s.For?
    ensures env + Declared(ExpandStmt(s).block.stmts) == env[s.ident := Variable(s.ty, s.offset)]
  {
    var stmts := ExpandStmt(s).block.stmts;
    assert stmts[1..] == [stmts[1]] && [stmts[1]][1..] == [];
    assert Declared([stmts[1]]) == map[];
    assert Declared(stmts) == map[s.ident := Variable(s.ty, s.offset)];
  }

  lemma {:induction false} ForMeans(c: Ctx, fuel: nat, s: Stmt, a: Act, sp: int, mem: Mem)
    requires KeepsNames(c.procs) && s.For? && UpdatesKeepNames(s) && mem.Keys <= a.acc
    ensures ExecStmt(ExpandCtx(c), fuel, ExpandStmt(s), a, sp, mem) == ExecStmt(c, fuel, s, a, sp, mem)
    decreases fuel, s, 2
  {
    hide Eval, Declare, KeepsNames, ExpandExpr, ExpandBlock, ExecFor, UpdatesKeepNames, Declared, ExecWhile, ExecStmts;
    ForDeclares(s, a.env);
    var d, inner := ExpandCtx(c), a.(env := a.env[s.ident := Variable(s.ty, s.offset)]);
    var block := ExpandStmt(s).block;
    var decl, loop := block.stmts[0], block.stmts[1];
    assert ExecStmt(d, fuel, ExpandStmt(s), a, sp, mem) == ExecBlock(d, fuel, block, a, sp, mem);
    assert ExecBlock(d, fuel, block, a, sp, mem) == ExecStmts(d, fuel, [decl, loop], inner, sp, mem);
    DeclareMeans(c, fuel, s.ty, s.start, a.base - s.offset, inner, sp, mem);
    var r := Declare(c, fuel, s.ty, s.start, a.base - s.offset, inner, sp, mem);
    TwoStmts(d, fuel, decl, loop, inner, sp, mem);
    if r.Done? {
      RoundsMean(c, fuel, s, loop, inner, sp, r.mem);
    }
  }

  lemma TwoStmts(c: Ctx, fuel: nat, s: Stmt, t: Stmt, a: Act, sp: int, mem: Mem)
    requires mem.Keys <= a.acc
    ensures var r := ExecStmt(c, fuel, s, a, sp, mem);
            ExecStmts(c, fuel, [s, t], a, sp, mem) ==
              if r.Done? && r.value.Next? then ExecStmt(c, fuel, t, a, sp, r.mem) else r
  {
    hide ExecStmt;
    var r := ExecStmt(c, fuel, s, a, sp, mem);
    assert [s, t][1..] == [t];
    if r.Done? {
      OnlyStmt(c, fuel, t, a, sp, r.mem);
    }
  }

  lemma OnlyStmt(c: Ctx, fuel: nat, s: Stmt, a: Act, sp: int, mem: Mem)
    requires mem.Keys <= a.acc
    ensures ExecStmts(c, fuel, [s], a, sp, mem) == ExecStmt(c, fuel, s, a, sp, mem)
  {
    hide ExecStmt;
    assert [s][1..] == [];
  }

  lemma {:induction false} LastStmt(c: Ctx, fuel: nat, stmts: seq<Stmt>, last: Stmt, a: Act, sp: int, mem: Mem)
    requires mem.Keys <= a.acc
    ensures var r := ExecStmts(c, fuel, stmts, a, sp, mem);
            ExecStmts(c, fuel, stmts + [last], a, sp, mem) ==
            if r.Done? && r.value.Next? then ExecStmt(c, fuel, last, a, sp, r.mem) else r
    decreases |stmts|
  {
    hide ExecStmt;
    if stmts == [] {
      assert stmts + [last] == [last];
      OnlyStmt(c, fuel, last, a, sp, mem);
    } else {
      var r := ExecStmt(c, fuel, stmts[0], a, sp, mem);
      assert (stmts + [last])[1..] == stmts[1..] + [last];
      if r.Done? {
        LastStmt(c, fuel, stmts[1..], last, a, sp, r.mem);
      }
    }
  }

  lemma {:induction false} DeclaredLast(stmts: seq<Stmt>, e: Expr)
    ensures Declared(stmts + [ExprStmt(e)]) == Declared(stmts)
    decreases |stmts|
  {
    if stmts == [] {
      assert [ExprStmt(e)][1..] == [];
      assert stmts + [ExprStmt(e)] == [ExprStmt(e)];
    } else {
      DeclaredLast(stmts[1..], e);
      assert (stmts + [ExprStmt(e)])[1..] == stmts[1..] + [ExprStmt(e)];
    }
  }

  /** One round of the while loop is one round of the for loop with its update. */
  lemma {:induction false} RoundMeans(c: Ctx, fuel: nat, s: Stmt, loop: Stmt, a: Act, sp: int, mem: Mem)
    requires KeepsNames(c.procs) && s.For? && UpdatesKeepNames(s) && loop == ExpandStmt(s).block.stmts[1] &&
             mem.Keys <= a.acc
    ensures var r := ExecBlock(c, fuel, s.body, a, sp, mem);
            ExecBlock(ExpandCtx(c), fuel, loop.body, a, sp, mem) ==
            if r.Done? && r.value.Next? then ExecStmt(c, fuel, ExprStmt(s.update), a, sp, r.mem) else r
    decreases fuel, s, 0
  {
    hide Eval, KeepsNames, ExpandExpr, BlockKeepsNames, ExecStmts, Avoids;
    var d, stmts, update := ExpandCtx(c), ExpandStmts(s.body.stmts), ExpandExpr(s.update);
    var env := a.env + Declared(s.body.stmts);
    ExpandedDeclares(s.body.stmts);
    DeclaredLast(stmts, update);
    LastStmt(d, fuel, stmts, ExprStmt(update), a.(env := env), sp, mem);
    BlockMeans(c, fuel, s.body, a, sp, mem);
    var r := ExecBlock(c, fuel, s.body, a, sp, mem);
    if r.Done? {
      ExprMeans(c, fuel, s.update, true, a.(env := env), sp, r.mem);
      AvoidedNames(s.update, a.env, Declared(s.body.stmts));
      NamesEval(c, fuel, s.update, a, a.(env := env), sp, r.mem);
    }
  }

  lemma {:induction false} RoundsMean(c: Ctx, fuel: nat, s: Stmt, loop: Stmt, a: Act, sp: int, mem: Mem)
    requires KeepsNames(c.procs) && s.For? && UpdatesKeepNames(s) && loop == ExpandStmt(s).block.stmts[1] &&
             mem.Keys <= a.acc
    ensures ExecWhile(ExpandCtx(c), fuel, loop, a, sp, mem) == ExecFor(c, fuel, s, a, sp, mem)
    decreases fuel, s, 1
  {
    hide Eval, ExecBlock, KeepsNames, UpdatesKeepNames, ExpandStmts;
    ExprMeans(c, fuel, s.cond, true, a, sp, mem);
    var v := Eval(c, fuel, s.cond, a, sp, mem);
    if v.Done? && Truth(v.value) && fuel > 0 {
      RoundMeans(c, fuel - 1, s, loop, a, sp, v.mem);
      var r := ExecBlock(c, fuel - 1, s.body, a, sp, v.mem);
      if r.Done? && r.value.Next? {
        var u := Eval(c, fuel - 1, s.update, a, sp, r.mem);
        if u.Done? {
          RoundsMean(c, fuel - 1, s, loop, a, sp, u.mem);
        }
      }
    }
  }

  const CLEAR := Assign(Ident("x"), Num(NumChar, 0))
  const HIDING := VarDecl("x", Char, None, 32)

  /** A loop whose body hides the loop variable: `for x: char = 1, x, x = 0 { let x: char; }`. */
  const SHADOWING := For("x", Char, Num(NumChar, 1), Ident("x"), CLEAR, Block([HIDING], 0), 16, 0)

  /** The variable x lies `off` bytes below the frame base, and one temporary fits. */
  predicate Places(c: Ctx, a: Act, off: nat, sp: int, mem: Mem) {
    "x" in a.env && a.env["x"] == Variable(Char, off) && mem.Keys <= a.acc && RoomFor(c, sp) &&
    0 <= a.base - off < TWO_64 && a.base - off in a.acc
  }

  function SetTo(mem: Mem, at: int, v: byte): Mem {
    mem[at := v]
  }

  lemma CharStored(mem: Mem, acc: set<int>, at: int, v: byte)
    requires mem.Keys <= acc && at in acc
    ensures WriteTo(mem, acc, at, 1, v) == Done(v, SetTo(mem, at, v))
  {
    assert Store(mem, at, 1, v) == SetTo(mem, at, v);
    assert Writable(acc, at, 1);
  }

  lemma CharRead(mem: Mem, at: int)
    requires at in mem
    ensures ReadFrom(mem, at, 1) == Done(mem[at], mem)
  {
    assert Readable(mem, at, 1);
    assert Load(mem, at, 1) == mem[at];
  }

  lemma ClearX(c: Ctx, fuel: nat, a: Act, off: nat, sp: int, mem: Mem)
    requires Places(c, a, off, sp, mem)
    ensures Eval(c, fuel, CLEAR, a, sp, mem) == Done(0, SetTo(mem, a.base - off, 0))
  {
    hide ReadFrom, WriteTo;
    CharStored(mem, a.acc, a.base - off, 0);
    var at := EvalAddr(c, fuel, Ident("x"), a, sp, mem);
    assert at == Done(a.base - off, mem);
    assert Eval(c, fuel, Num(NumChar, 0), a, sp - 8, mem) == Done(0, mem);
  }

  lemma ReadX(c: Ctx, fuel: nat, a: Act, off: nat, sp: int, mem: Mem)
    requires Places(c, a, off, sp, mem) && a.base - off in mem
    ensures Eval(c, fuel, Ident("x"), a, sp, mem) == Done(mem[a.base - off], mem)
  {
    hide ReadFrom;
    CharRead(mem, a.base - off);
  }

  lemma StartX(c: Ctx, fuel: nat, a: Act, off: nat, sp: int, mem: Mem)
    requires Places(c, a, off, sp, mem)
    ensures Declare(c, fuel, Char, Num(NumChar, 1), a.base - off, a, sp, mem) == Done(1, SetTo(mem, a.base - off, 1))
  {
    hide ReadFrom, WriteTo;
    CharStored(mem, a.acc, a.base - off, 1);
    assert Eval(c, fuel, Num(NumChar, 1), a, sp, mem) == Done(1, mem);
  }

  /** The loop as it is written clears its own variable and ends. */
  lemma LoopEnds(c: Ctx, fuel: nat, a: Act, sp: int, mem: Mem)
    requires Places(c, a, 16, sp, mem) && a.base - 16 in mem && mem[a.base - 16] == 1 && fuel > 0
    ensures ExecFor(c, fuel, SHADOWING, a, sp, mem) == Done(Next, SetTo(mem, a.base - 16, 0))
  {
    hide Eval, ExecStmts;
    var m := SetTo(mem, a.base - 16, 0);
    ReadX(c, fuel, a, 16, sp, mem);
    OnlyStmt(c, fuel - 1, HIDING, a.(env := a.env + Declared([HIDING])), sp, mem);
    ClearX(c, fuel - 1, a, 16, sp, mem);
    ReadX(c, fuel - 1, a, 16, sp, m);
    assert ExecBlock(c, fuel - 1, SHADOWING.body, a, sp, mem) == Done(Next, mem);
    assert ExecFor(c, fuel - 1, SHADOWING, a, sp, m) == Done(Next, m);
  }

  /** The loop it is turned into clears the hidden variable instead, round after round. */
  lemma {:induction false} LoopRunsOn(c: Ctx, fuel: nat, loop: Stmt, a: Act, sp: int, mem: Mem)
    requires loop == While(Ident("x"), Block([HIDING, ExprStmt(CLEAR)], 0))
    requires Places(c, a, 16, sp, mem) && a.base - 16 in mem && mem[a.base - 16] == 1 && 32 <= a.base &&
             a.base - 32 in a.acc
    ensures ExecWhile(c, fuel, loop, a, sp, mem).OutOfFuel?
    decreases fuel
  {
    hide Eval, ExecStmts;
    ReadX(c, fuel, a, 16, sp, mem);
    if fuel > 0 {
      assert [HIDING, ExprStmt(CLEAR)][1..] == [ExprStmt(CLEAR)] && [ExprStmt(CLEAR)][1..] == [];
      assert Declared([ExprStmt(CLEAR)]) == map[];
      var inner := a.(env := a.env + Declared(loop.body.stmts));
      var m := SetTo(mem, a.base - 32, 0);
      TwoStmts(c, fuel - 1, HIDING, ExprStmt(CLEAR), inner, sp, mem);
      ClearX(c, fuel - 1, inner, 32, sp, mem);
      assert ExecBlock(c, fuel - 1, loop.body, a, sp, mem) == Done(Next, m);
      LoopRunsOn(c, fuel - 1, loop, a, sp, m);
    }
  }

  /** Without the restriction the meaning changes: the loop ends after one round, and what it is
      turned into never ends. */
  lemma HiddenUpdate(c: Ctx, fuel: nat, a: Act, sp: int, mem: Mem)
    requires mem.Keys <= a.acc && 32 <= a.base < TWO_64 && a.base - 16 in a.acc && a.base - 32 in a.acc &&
             RoomFor(c, sp)
    requires fuel > 0
    ensures ExecStmt(c, fuel, SHADOWING, a, sp, mem).Done?
    ensures ExecStmt(c, fuel, ExpandStmt(SHADOWING), a, sp, mem).OutOfFuel?
    ensures !UpdatesKeepNames(SHADOWING)
  {
    hide Eval, Declare, ExecFor, ExecWhile, ExecStmts, TypeOf, UpdatesKeepNames;
    NamesHidden();
    var inner, m := a.(env := a.env["x" := Variable(Char, 16)]), SetTo(mem, a.base - 16, 1);
    StartX(c, fuel, inner, 16, sp, mem);
    LoopEnds(c, fuel, inner, sp, m);
    ForDeclares(SHADOWING, a.env);
    var block := ExpandStmt(SHADOWING).block;
    var decl, loop := block.stmts[0], block.stmts[1];
    HidingLoop();
    assert ExecStmt(c, fuel, ExpandStmt(SHADOWING), a, sp, mem) == ExecStmts(c, fuel, [decl, loop], inner, sp, mem);
    TwoStmts(c, fuel, decl, loop, inner, sp, mem);
    LoopRunsOn(c, fuel, loop, inner, sp, m);
  }

  lemma NamesHidden()
    ensures !UpdatesKeepNames(SHADOWING)
  {
    HidingLoop();
  }

  lemma HidingLoop()
    ensures ExpandStmt(SHADOWING).block.stmts ==
            [VarDecl("x", Char, Some(Num(NumChar, 1)), 16), While(Ident("x"), Block([HIDING, ExprStmt(CLEAR)], 0))]
    ensures "x" in Declared([HIDING]).Keys
  {
    assert [HIDING][1..] == [];
    assert ExpandStmts([HIDING]) == [HIDING];
    assert ExpandExpr(CLEAR) == CLEAR && [HIDING] + [ExprStmt(CLEAR)] == [HIDING, ExprStmt(CLEAR)];
  }
}
