/** The symbol-table pass only fills in fields: without them the trees before and after are the same. */
module Bare {
  import opened Types
  import opened Syntax
  import opened Layout
  import opened Grammar
  import opened Printing
  import opened Pipeline

  /** The expression without the places of its array literals. */
  function BareExpr(e: Expr): Expr
    decreases e
  {
    match e
    case Grouping(inner) => Grouping(BareExpr(inner))
    case Binary(op, l, r) => Binary(op, BareExpr(l), BareExpr(r))
    case Unary(op, node) => Unary(op, BareExpr(node))
    case Call(callee, args) => Call(BareExpr(callee), BareExprs(args))
    case Assign(target, v) => Assign(BareExpr(target), BareExpr(v))
    case Array(vs, elem, _) => Array(BareExprs(vs), elem, 0)
    case Index(x, i) => Index(BareExpr(x), BareExpr(i))
    case _ => e
  }

  function BareExprs(es: seq<Expr>): (r: seq<Expr>)
    decreases es
  {
    if es == [] then [] else [BareExpr(es[0])] + BareExprs(es[1..])
  }

  function BareOption(e: Option<Expr>): Option<Expr> {
    if e.None? then None else Some(BareExpr(e.value))
  }

  /** The statement without places and table numbers. */
  function BareStmt(s: Stmt): Stmt
    decreases s
  {
    match s
    case ExprStmt(e) => ExprStmt(BareExpr(e))
    case BlockStmt(b) => BlockStmt(BareBlock(b))
    case VarDecl(x, ty, init, _) => VarDecl(x, ty, BareOption(init), 0)
    case If(cond, thn, els) =>
      If(BareExpr(cond), BareBlock(thn), if els.Some? then Some(BareBlock(els.value)) else None)
    case While(cond, body) => While(BareExpr(cond), BareBlock(body))
    case For(x, ty, start, cond, update, body, _, _) =>
      For(x, ty, BareExpr(start), BareExpr(cond), BareExpr(update), BareBlock(body), 0, 0)
    case Return(e) => Return(BareOption(e))
  }

  function BareStmts(stmts: seq<Stmt>): seq<Stmt>
    decreases stmts
  {
    if stmts == [] then [] else [BareStmt(stmts[0])] + BareStmts(stmts[1..])
  }

  function BareBlock(b: Block): Block
    decreases b
  {
    Block(BareStmts(b.stmts), 0)
  }

  function BareProc(p: Proc): Proc {
    Proc(p.name, p.sig, BareBlock(p.body), [], 0)
  }

  lemma {:induction false} LaidExpr(e: Expr, size: nat)
    ensures BareExpr(LayExpr(e, size).0) == BareExpr(e)
    decreases e
  {
    match e
    case Grouping(inner) => LaidExpr(inner, size);
    case Binary(_, l, r) =>
      LaidExpr(l, size);
      LaidExpr(r, LayExpr(l, size).1);
    case Unary(_, node) => LaidExpr(node, size);
    case Call(callee, args) =>
      LaidExpr(callee, size);
      LaidExprs(args, LayExpr(callee, size).1);
    case Assign(_, v) => LaidExpr(v, size);
    case Array(vs, elem, _) => LaidExprs(vs, size + SlotSize(elem) * |vs| + SlotSize(elem));
    case Index(x, i) =>
      LaidExpr(x, size);
      LaidExpr(i, LayExpr(x, size).1);
    case _ =>
  }

  lemma {:induction false} LaidExprs(es: seq<Expr>, size: nat)
    ensures BareExprs(LayExprs(es, size).0) == BareExprs(es)
    decreases es
  {
    hide BareExpr, LayExpr;
    if es != [] {
      LaidExpr(es[0], size);
      LaidExprs(es[1..], LayExpr(es[0], size).1);
    }
  }

  lemma LaidOption(e: Option<Expr>, size: nat)
    ensures BareOption(LayOption(e, size).0) == BareOption(e)
  {
    if e.Some? {
      LaidExpr(e.value, size);
    }
  }

  lemma {:induction false} LaidStmt(s: Stmt, l: Lay)
    requires l.Valid()
    ensures BareStmt(LayStmt(s, l).0) == BareStmt(s)
    decreases s
  {
    hide BareExpr, LayExpr, BareOption, LayOption;
    match s
    case ExprStmt(e) => LaidExpr(e, l.size);
    case BlockStmt(b) => LaidBlock(b, l);
    case VarDecl(_, ty, init, _) => LaidOption(init, l.size + SlotSize(ty));
    case If(cond, thn, els) =>
      LaidExpr(cond, l.size);
      var l1 := l.(size := LayExpr(cond, l.size).1);
      LaidBlock(thn, l1);
      if els.Some? {
        LaidBlock(els.value, LayBlock(thn, l1).1);
      }
    case While(cond, body) =>
      LaidExpr(cond, l.size);
      LaidBlock(body, l.(size := LayExpr(cond, l.size).1));
    case For(_, _, _, _, _, _, _, _) =>
    case Return(e) => LaidOption(e, l.size);
  }

  lemma {:induction false} LaidStmts(stmts: seq<Stmt>, l: Lay)
    requires l.Valid()
    ensures BareStmts(LayStmts(stmts, l).0) == BareStmts(stmts)
    decreases stmts
  {
    hide BareStmt, LayStmt;
    if stmts != [] {
      LaidStmt(stmts[0], l);
      LaidStmts(stmts[1..], LayStmt(stmts[0], l).1);
    }
  }

  lemma {:induction false} LaidBlock(b: Block, l: Lay)
    requires l.Valid()
    ensures BareBlock(LayBlock(b, l).0) == BareBlock(b)
    decreases b
  {
    hide BareStmts, LayStmts;
    LaidStmts(b.stmts, l.Push());
  }

  lemma {:induction false} LaidProcs(procs: seq<Proc>, l: Lay)
    requires l.Valid()
    ensures forall i | 0 <= i < |procs| :: BareProc(LayProcs(procs, l).0[i]) == BareProc(procs[i])
    decreases |procs|
  {
    hide BareBlock, LayBlock, LayParams;
    if procs != [] {
      var p, r := procs[0], LayProc(procs[0], l);
      LaidBlock(p.body, l.Insert(p.name, Routine(p.sig)).(size := 0));
      assert BareProc(r.0) == BareProc(p);
      hide LayProc;
      LaidProcs(procs[1..], r.1);
      forall i | 0 <= i < |procs| ensures BareProc(LayProcs(procs, l).0[i]) == BareProc(procs[i]) {
        assert i > 0 ==> LayProcs(procs, l).0[i] == LayProcs(procs[1..], r.1).0[i - 1] && procs[i] == procs[1..][i - 1];
      }
    }
  }

  /** Layout changes nothing but places, tables and frame sizes. */
  lemma LayoutFills(procs: seq<Proc>)
    ensures forall i | 0 <= i < |procs| :: BareProc(LayProgram(procs).0[i]) == BareProc(procs[i])
  {
    LaidProcs(procs, Lay(0, [Scope(map[], None)], 0));
  }

  lemma {:induction false} StmtKept(s: Stmt, l: Lay)
    requires l.Valid()
    ensures BareStmt(PlaceStmt(s, l).0) == BareStmt(s)
    decreases s
  {
    hide BareExpr, LayExpr, BareOption, LayOption;
    match s
    case BlockStmt(b) => BlockKept(b, l);
    case If(cond, thn, els) =>
      LaidExpr(cond, l.size);
      var l1 := l.(size := LayExpr(cond, l.size).1);
      BlockKept(thn, l1);
      if els.Some? {
        BlockKept(els.value, PlaceBlock(thn, l1).1);
      }
    case While(cond, body) =>
      LaidExpr(cond, l.size);
      BlockKept(body, l.(size := LayExpr(cond, l.size).1));
    case For(_, _, _, _, _, _, _, _) => ForKept(s, l);
    case _ => LaidStmt(s, l);
  }

  lemma {:induction false} ForKept(s: Stmt, l: Lay)
    requires l.Valid() && s.For?
    ensures BareStmt(PlaceStmt(s, l).0) == BareStmt(s)
    decreases s, 0
  {
    hide BareExpr, LayExpr, BareStmts, PlaceStmts;
    var off := l.size + SlotSize(s.ty);
    var l1 := l.Push().(size := off).Insert(s.ident, Variable(s.ty, off));
    var r1 := LayExpr(s.start, off);
    var r2 := LayExpr(s.cond, r1.1);
    var l2 := l1.(size := r2.1).Push();
    LaidExpr(s.start, off);
    LaidExpr(s.cond, r1.1);
    StmtsKept(s.body.stmts, l2);
    LaidExpr(s.update, PlaceStmts(s.body.stmts, l2).1.size);
  }

  lemma {:induction false} StmtsKept(stmts: seq<Stmt>, l: Lay)
    requires l.Valid()
    ensures BareStmts(PlaceStmts(stmts, l).0) == BareStmts(stmts)
    decreases stmts
  {
    hide BareStmt, PlaceStmt;
    if stmts != [] {
      StmtKept(stmts[0], l);
      StmtsKept(stmts[1..], PlaceStmt(stmts[0], l).1);
    }
  }

  lemma {:induction false} BlockKept(b: Block, l: Lay)
    requires l.Valid()
    ensures BareBlock(PlaceBlock(b, l).0) == BareBlock(b)
    decreases b
  {
    hide BareStmts, PlaceStmts;
    StmtsKept(b.stmts, l.Push());
  }

  lemma {:induction false} ProcsKept(procs: seq<Proc>, l: Lay)
    requires l.Valid()
    ensures forall i | 0 <= i < |procs| :: BareProc(PlaceProcs(procs, l).0[i]) == BareProc(procs[i])
    decreases |procs|
  {
    hide BareBlock, PlaceBlock, LayParams;
    if procs != [] {
      var p, r := procs[0], PlaceProc(procs[0], l);
      BlockKept(p.body, l.Insert(p.name, Routine(p.sig)).(size := 0));
      assert BareProc(r.0) == BareProc(p);
      hide PlaceProc;
      ProcsKept(procs[1..], r.1);
      forall i | 0 <= i < |procs| ensures BareProc(PlaceProcs(procs, l).0[i]) == BareProc(procs[i]) {
        assert i > 0 ==>
            PlaceProcs(procs, l).0[i] == PlaceProcs(procs[1..], r.1).0[i - 1] && procs[i] == procs[1..][i - 1];
      }
    }
  }

  lemma {:induction false} ExprBare(e: Expr)
    requires Conforms(e)
    ensures BareExpr(e) == e
    decreases e
  {
    match e
    case Grouping(inner) => ExprBare(inner);
    case Binary(_, l, r) =>
      ExprBare(l);
      ExprBare(r);
    case Unary(_, node) => ExprBare(node);
    case Call(callee, args) =>
      ExprBare(callee);
      ExprsBare(args);
    case Assign(target, v) =>
      ExprBare(target);
      ExprBare(v);
    case Array(vs, _, _) => ExprsBare(vs);
    case Index(x, i) =>
      ExprBare(x);
      ExprBare(i);
    case _ =>
  }

  lemma {:induction false} ExprsBare(es: seq<Expr>)
    requires forall e | e in es :: Conforms(e)
    ensures BareExprs(es) == es
    decreases es
  {
    hide Conforms, BareExpr;
    if es != [] {
      ExprBare(es[0]);
      ExprsBare(es[1..]);
    }
  }

  lemma OptionBare(e: Option<Expr>)
    requires ConformsOption(e)
    ensures BareOption(e) == e
  {
    if e.Some? {
      ExprBare(e.value);
    }
  }

  lemma {:induction false} StmtBare(s: Stmt)
    requires ConformsStmt(s)
    ensures BareStmt(s) == s
    decreases s
  {
    hide Conforms, BareExpr, ConformsType, BareOption, ConformsOption;
    match s
    case ExprStmt(e) => ExprBare(e);
    case BlockStmt(b) => BlockBare(b);
    case VarDecl(_, _, init, _) => OptionBare(init);
    case If(cond, thn, els) =>
      ExprBare(cond);
      BlockBare(thn);
      if els.Some? {
        BlockBare(els.value);
      }
    case While(cond, body) =>
      ExprBare(cond);
      BlockBare(body);
    case For(_, _, start, cond, update, body, _, _) =>
      ExprBare(start);
      ExprBare(cond);
      ExprBare(update);
      BlockBare(body);
    case Return(e) => OptionBare(e);
  }

  lemma {:induction false} StmtsBare(stmts: seq<Stmt>)
    requires forall s | s in stmts :: ConformsStmt(s)
    ensures BareStmts(stmts) == stmts
    decreases stmts
  {
    hide ConformsStmt, BareStmt;
    if stmts != [] {
      StmtBare(stmts[0]);
      StmtsBare(stmts[1..]);
    }
  }

  lemma {:induction false} BlockBare(b: Block)
    requires ConformsBlock(b)
    ensures BareBlock(b) == b
    decreases b
  {
    StmtsBare(b.stmts);
  }

  /** What the passes work on is the program as it was parsed: each placed procedure is the parsed one
      with its places filled in. */
  lemma PlacementFills(procs: seq<Proc>)
    ensures |Placed(procs)| == |procs|
    ensures forall i | 0 <= i < |procs| :: BareProc(Placed(procs)[i]) == BareProc(procs[i])
  {
    hide BareProc;
    ProcsKept(procs, Lay(0, [Scope(map[], None)], 0));
  }
}
