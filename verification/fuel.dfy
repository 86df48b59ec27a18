/** The amount of fuel only decides whether an evaluation ends, not what it ends with. */
module Fuel {
  import opened Types
  import opened Memory
  import opened Words
  import opened Syntax
  import opened Typing
  import opened Semantics

  lemma {:induction false} EvalMore(c: Ctx, f: nat, g: nat, e: Expr, a: Act, sp: int, mem: Mem)
    requires f <= g && mem.Keys <= a.acc && !Eval(c, f, e, a, sp, mem).OutOfFuel?
    ensures Eval(c, g, e, a, sp, mem) == Eval(c, f, e, a, sp, mem)
    decreases f, e, 2
  {
    hide TypeOf, ReadFrom, WriteTo;
    if TypeOf(e, a.env).Some? {
      match e
      case Grouping(inner) => EvalMore(c, f, g, inner, a, sp, mem);
      case Binary(_, _, _) => PairMore(c, f, g, e.rhs, e.lhs, e, a, sp, mem);
      case Index(_, _) =>
        ElementTyped(e, a.env);
        ElementMore(c, f, g, e, a, sp, mem);
      case Unary(op, node) =>
        if op.AddrOf? {
          AddrMore(c, f, g, node, a, sp, mem);
        } else {
          EvalMore(c, f, g, node, a, sp, mem);
        }
      case Assign(target, v) =>
        AddrMore(c, f, g, target, a, sp, mem);
        var r := EvalAddr(c, f, target, a, sp, mem);
        if r.Done? && RoomFor(c, sp) {
          EvalMore(c, f, g, v, a, sp - 8, r.mem);
        }
      case Array(vs, elem, _) => ElemsMore(c, f, g, vs, elem, a.base - (e.offset + |vs| * Size(elem)), a, sp, mem);
      case Call(_, _) => CallMore(c, f, g, e, a, sp, mem);
      case _ =>
    }
  }

  /** Two operands, the second one evaluated above the first. */
  lemma {:induction false} PairMore(c: Ctx, f: nat, g: nat, x: Expr, y: Expr, e: Expr, a: Act, sp: int, mem: Mem)
    requires f <= g && mem.Keys <= a.acc && !Eval(c, f, x, a, sp, mem).OutOfFuel? && x < e && y < e
    requires var r := Eval(c, f, x, a, sp, mem);
             r.Done? && RoomFor(c, sp) ==> !Eval(c, f, y, a, sp - 8, r.mem).OutOfFuel?
    ensures Eval(c, g, x, a, sp, mem) == Eval(c, f, x, a, sp, mem)
    ensures var r := Eval(c, f, x, a, sp, mem);
            r.Done? && RoomFor(c, sp) ==> Eval(c, g, y, a, sp - 8, r.mem) == Eval(c, f, y, a, sp - 8, r.mem)
    decreases f, e, 0
  {
    hide Eval;
    EvalMore(c, f, g, x, a, sp, mem);
    var r := Eval(c, f, x, a, sp, mem);
    if r.Done? && RoomFor(c, sp) {
      EvalMore(c, f, g, y, a, sp - 8, r.mem);
    }
  }

  lemma {:induction false} AddrMore(c: Ctx, f: nat, g: nat, e: Expr, a: Act, sp: int, mem: Mem)
    requires f <= g && mem.Keys <= a.acc && !EvalAddr(c, f, e, a, sp, mem).OutOfFuel?
    ensures EvalAddr(c, g, e, a, sp, mem) == EvalAddr(c, f, e, a, sp, mem)
    decreases f, e, 2
  {
    hide Eval;
    match e
    case Unary(Deref, node) =>
      if AddrTypeOf(e, a.env).Some? {
        EvalMore(c, f, g, node, a, sp, mem);
      }
    case Index(_, _) =>
      if AddrTypeOf(e, a.env).Some? {
        ElementMore(c, f, g, e, a, sp, mem);
      }
    case _ =>
  }

  lemma {:induction false} ElementMore(c: Ctx, f: nat, g: nat, e: Expr, a: Act, sp: int, mem: Mem)
    requires f <= g && mem.Keys <= a.acc && e.Index? && AddrTypeOf(e, a.env).Some? &&
             !EvalElement(c, f, e, a, sp, mem).OutOfFuel?
    ensures EvalElement(c, g, e, a, sp, mem) == EvalElement(c, f, e, a, sp, mem)
    decreases f, e, 1
  {
    hide Eval;
    PairMore(c, f, g, e.index, e.expr, e, a, sp, mem);
  }

  lemma {:induction false} CallMore(c: Ctx, f: nat, g: nat, e: Expr, a: Act, sp: int, mem: Mem)
    requires f <= g && mem.Keys <= a.acc && e.Call? && TypeOf(e, a.env).Some? &&
             !EvalCall(c, f, e, a, sp, mem).OutOfFuel?
    ensures EvalCall(c, g, e, a, sp, mem) == EvalCall(c, f, e, a, sp, mem)
    decreases f, e, 1
  {
    hide Eval, EvalArgs, CallProc;
    EvalMore(c, f, g, e.callee, a, sp, mem);
    var r := Eval(c, f, e.callee, a, sp, mem);
    if r.Done? && RoomFor(c, sp) {
      ArgsMore(c, f, g, e.args, a, sp - 8, r.mem);
      var q := EvalArgs(c, f, e.args, a, sp - 8, r.mem);
      var p := ProcAt(c.procs, c.link, r.value);
      if q.Done? && p.Some? && Callable(Ty(e.callee, a.env).sig, p.value) &&
         |e.args| == |Ty(e.callee, a.env).sig.params| {
        ProcMore(c, f - 1, g - 1, p.value, q.value, sp, a.acc, q.mem);
      }
    }
  }

  lemma {:induction false} ProcMore(c: Ctx, f: nat, g: nat, p: Proc, vs: seq<nat>, sp: int, acc: set<int>, mem: Mem)
    requires f <= g && mem.Keys <= acc && |vs| == |p.slots| == |p.sig.params| &&
             !CallProc(c, f, p, vs, sp, acc, mem).OutOfFuel?
    ensures CallProc(c, g, p, vs, sp, acc, mem) == CallProc(c, f, p, vs, sp, acc, mem)
    decreases f, p.body, 3
  {
    hide ExecBlock, Bind, FinishCall;
    var base, low := sp - 16, sp - 16 - p.stackSize;
    var live := acc + Range(low, p.stackSize);
    var r := Bind(p.sig.params, p.slots, vs, base, live, mem);
    if low >= c.limit && r.Done? {
      BlockMore(c, f, g, p.body, Act(ProcEnv(p, c.globals), base, live), low, r.mem);
    }
  }

  lemma {:induction false} ArgsMore(c: Ctx, f: nat, g: nat, args: seq<Expr>, a: Act, sp: int, mem: Mem)
    requires f <= g && mem.Keys <= a.acc && !EvalArgs(c, f, args, a, sp, mem).OutOfFuel?
    ensures EvalArgs(c, g, args, a, sp, mem) == EvalArgs(c, f, args, a, sp, mem)
    decreases f, args, 0
  {
    hide Eval;
    if args != [] {
      EvalMore(c, f, g, args[0], a, sp, mem);
      var r := Eval(c, f, args[0], a, sp, mem);
      if r.Done? {
        ArgsMore(c, f, g, args[1..], a, sp, r.mem);
      }
    }
  }

  lemma {:induction false} ElemsMore(c: Ctx, f: nat, g: nat, vs: seq<Expr>, elem: Type, at: int, a: Act, sp: int,
                                     mem: Mem)
    requires f <= g && mem.Keys <= a.acc && !EvalElems(c, f, vs, elem, at, a, sp, mem).OutOfFuel?
    ensures EvalElems(c, g, vs, elem, at, a, sp, mem) == EvalElems(c, f, vs, elem, at, a, sp, mem)
    decreases f, vs, 0
  {
    hide Eval, EvalInto;
    if vs != [] {
      IntoMore(c, f, g, vs[0], Size(elem), at, a, sp, mem);
      var r := EvalInto(c, f, vs[0], Size(elem), at, a, sp, mem);
      if r.Done? {
        ElemsMore(c, f, g, vs[1..], elem, at + Size(elem), a, sp, r.mem);
      }
    }
  }

  lemma {:induction false} IntoMore(c: Ctx, f: nat, g: nat, e: Expr, n: nat, at: int, a: Act, sp: int, mem: Mem)
    requires f <= g && mem.Keys <= a.acc && !EvalInto(c, f, e, n, at, a, sp, mem).OutOfFuel?
    ensures EvalInto(c, g, e, n, at, a, sp, mem) == EvalInto(c, f, e, n, at, a, sp, mem)
    decreases f, e, 3
  {
    hide Eval;
    EvalMore(c, f, g, e, a, sp, mem);
  }

  lemma {:induction false} BlockMore(c: Ctx, f: nat, g: nat, b: Block, a: Act, sp: int, mem: Mem)
    requires f <= g && mem.Keys <= a.acc && !ExecBlock(c, f, b, a, sp, mem).OutOfFuel?
    ensures ExecBlock(c, g, b, a, sp, mem) == ExecBlock(c, f, b, a, sp, mem)
    decreases f, b, 1
  {
    StmtsMore(c, f, g, b.stmts, a.(env := a.env + Declared(b.stmts)), sp, mem);
  }

  lemma {:induction false} StmtsMore(c: Ctx, f: nat, g: nat, stmts: seq<Stmt>, a: Act, sp: int, mem: Mem)
    requires f <= g && mem.Keys <= a.acc && !ExecStmts(c, f, stmts, a, sp, mem).OutOfFuel?
    ensures ExecStmts(c, g, stmts, a, sp, mem) == ExecStmts(c, f, stmts, a, sp, mem)
    decreases f, stmts, 1
  {
    hide ExecStmt;
    if stmts != [] {
      StmtMore(c, f, g, stmts[0], a, sp, mem);
      var r := ExecStmt(c, f, stmts[0], a, sp, mem);
      if r.Done? && r.value.Next? {
        StmtsMore(c, f, g, stmts[1..], a, sp, r.mem);
      }
    }
  }

  lemma {:induction false} StmtMore(c: Ctx, f: nat, g: nat, s: Stmt, a: Act, sp: int, mem: Mem)
    requires f <= g && mem.Keys <= a.acc && !ExecStmt(c, f, s, a, sp, mem).OutOfFuel?
    ensures ExecStmt(c, g, s, a, sp, mem) == ExecStmt(c, f, s, a, sp, mem)
    decreases f, s, 4
  {
    hide Eval, EvalInto, ExecBlock, ExecWhile, ExecFor, Ty;
    match s
    case ExprStmt(e) => EvalMore(c, f, g, e, a, sp, mem);
    case BlockStmt(b) => BlockMore(c, f, g, b, a, sp, mem);
    case VarDecl(_, ty, init, off) =>
      if init.Some? && SameKind(ty, Ty(init.value, a.env)) {
        IntoMore(c, f, g, init.value, Size(ty), a.base - off, a, sp, mem);
      }
    case If(cond, thn, els) =>
      EvalMore(c, f, g, cond, a, sp, mem);
      var r := Eval(c, f, cond, a, sp, mem);
      if r.Done? && Truth(r.value) {
        BlockMore(c, f, g, thn, a, sp, r.mem);
      } else if r.Done? && els.Some? {
        BlockMore(c, f, g, els.value, a, sp, r.mem);
      }
    case While(_, _) => WhileMore(c, f, g, s, a, sp, mem);
    case For(x, ty, start, _, _, _, off, _) =>
      var inner := a.(env := a.env[x := Variable(ty, off)]);
      if SameKind(ty, Ty(start, inner.env)) {
        IntoMore(c, f, g, start, Size(ty), a.base - off, inner, sp, mem);
        var r := EvalInto(c, f, start, Size(ty), a.base - off, inner, sp, mem);
        if r.Done? {
          ForMore(c, f, g, s, inner, sp, r.mem);
        }
      }
    case Return(e) =>
      if e.Some? {
        EvalMore(c, f, g, e.value, a, sp, mem);
      }
  }

  lemma {:induction false} WhileMore(c: Ctx, f: nat, g: nat, s: Stmt, a: Act, sp: int, mem: Mem)
    requires f <= g && mem.Keys <= a.acc && s.While? && !ExecWhile(c, f, s, a, sp, mem).OutOfFuel?
    ensures ExecWhile(c, g, s, a, sp, mem) == ExecWhile(c, f, s, a, sp, mem)
    decreases f, s, 3
  {
    hide Eval, ExecBlock;
    EvalMore(c, f, g, s.cond, a, sp, mem);
    var r := Eval(c, f, s.cond, a, sp, mem);
    if r.Done? && Truth(r.value) {
      BlockMore(c, f - 1, g - 1, s.body, a, sp, r.mem);
      var q := ExecBlock(c, f - 1, s.body, a, sp, r.mem);
      if q.Done? && q.value.Next? {
        WhileMore(c, f - 1, g - 1, s, a, sp, q.mem);
      }
    }
  }

  lemma {:induction false} ForMore(c: Ctx, f: nat, g: nat, s: Stmt, a: Act, sp: int, mem: Mem)
    requires f <= g && mem.Keys <= a.acc && s.For? && !ExecFor(c, f, s, a, sp, mem).OutOfFuel?
    ensures ExecFor(c, g, s, a, sp, mem) == ExecFor(c, f, s, a, sp, mem)
    decreases f, s, 3
  {
    hide Eval, ExecBlock;
    EvalMore(c, f, g, s.cond, a, sp, mem);
    var r := Eval(c, f, s.cond, a, sp, mem);
    if r.Done? && Truth(r.value) {
      BlockMore(c, f - 1, g - 1, s.body, a, sp, r.mem);
      var q := ExecBlock(c, f - 1, s.body, a, sp, r.mem);
      if q.Done? && q.value.Next? {
        EvalMore(c, f - 1, g - 1, s.update, a, sp, q.mem);
        var u := Eval(c, f - 1, s.update, a, sp, q.mem);
        if u.Done? {
          ForMore(c, f - 1, g - 1, s, a, sp, u.mem);
        }
      }
    }
  }
}
