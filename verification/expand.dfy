/** Desugaring as a function of the tree: a for loop becomes a block with a while loop, and an index
    becomes the dereference of a sum. Assignment targets are not visited. */
module Expand {
  import opened Types
  import opened Syntax
  import opened Typing

  function ExpandExpr(e: Expr): Expr
    decreases e
  {
    match e
    case Grouping(inner) => Grouping(ExpandExpr(inner))
    case Binary(op, l, r) => Binary(op, ExpandExpr(l), ExpandExpr(r))
    case Unary(op, node) => Unary(op, ExpandExpr(node))
    case Call(callee, args) => Call(ExpandExpr(callee), ExpandExprs(args))
    case Assign(target, v) => Assign(target, ExpandExpr(v))
    case Array(vs, elem, off) => Array(ExpandExprs(vs), elem, off)
    case Index(x, i) => Unary(Deref, Binary(Add, ExpandExpr(x), ExpandExpr(i)))
    case _ => e
  }

  function ExpandExprs(es: seq<Expr>): (r: seq<Expr>)
    ensures |r| == |es|
    ensures forall i | 0 <= i < |es| :: r[i] == ExpandExpr(es[i])
    decreases es
  {
    if es == [] then [] else [ExpandExpr(es[0])] + ExpandExprs(es[1..])
  }

  function ExpandOption(e: Option<Expr>): Option<Expr> {
    if e.None? then None else Some(ExpandExpr(e.value))
  }

  function ExpandStmt(s: Stmt): Stmt
    decreases s
  {
    match s
    case ExprStmt(e) => ExprStmt(ExpandExpr(e))
    case BlockStmt(b) => BlockStmt(ExpandBlock(b))
    case VarDecl(x, ty, init, off) => VarDecl(x, ty, ExpandOption(init), off)
    case If(cond, thn, els) =>
      If(ExpandExpr(cond), ExpandBlock(thn), if els.None? then None else Some(ExpandBlock(els.value)))
    case While(cond, body) => While(ExpandExpr(cond), ExpandBlock(body))
    case For(x, ty, start, cond, update, body, off, table) =>
      BlockStmt(Block([VarDecl(x, ty, Some(ExpandExpr(start)), off),
                       While(ExpandExpr(cond),
                             Block(ExpandStmts(body.stmts) + [ExprStmt(ExpandExpr(update))], body.table))],
                      table))
    case Return(e) => Return(ExpandOption(e))
  }

  function ExpandStmts(stmts: seq<Stmt>): (r: seq<Stmt>)
    ensures |r| == |stmts|
    ensures forall i | 0 <= i < |stmts| :: r[i] == ExpandStmt(stmts[i])
    decreases stmts
  {
    if stmts == [] then [] else [ExpandStmt(stmts[0])] + ExpandStmts(stmts[1..])
  }

  function ExpandBlock(b: Block): Block
    decreases b
  {
    Block(ExpandStmts(b.stmts), b.table)
  }

  function ExpandProc(p: Proc): Proc {
    p.(body := ExpandBlock(p.body))
  }

  function ExpandProcs(procs: seq<Proc>): (r: seq<Proc>)
    ensures |r| == |procs|
    ensures forall i | 0 <= i < |procs| :: r[i] == ExpandProc(procs[i])
  {
    if procs == [] then [] else [ExpandProc(procs[0])] + ExpandProcs(procs[1..])
  }

  /** No for and no index is left where the code generator looks. */
  predicate Desugared(e: Expr)
    decreases e
  {
    match e
    case Grouping(inner) => Desugared(inner)
    case Binary(_, l, r) => Desugared(l) && Desugared(r)
    case Unary(_, node) => Desugared(node)
    case Call(callee, args) => Desugared(callee) && forall x | x in args :: Desugared(x)
    case Assign(target, v) => Desugared(target) && Desugared(v)
    case Array(vs, _, _) => forall x | x in vs :: Desugared(x)
    case Index(_, _) => false
    case _ => true
  }

  predicate DesugaredStmt(s: Stmt)
    decreases s
  {
    match s
    case ExprStmt(e) => Desugared(e)
    case BlockStmt(b) => DesugaredBlock(b)
    case VarDecl(_, _, init, _) => init.Some? ==> Desugared(init.value)
    case If(cond, thn, els) => Desugared(cond) && DesugaredBlock(thn) && (els.Some? ==> DesugaredBlock(els.value))
    case While(cond, body) => Desugared(cond) && DesugaredBlock(body)
    case For(_, _, _, _, _, _, _, _) => false
    case Return(e) => e.Some? ==> Desugared(e.value)
  }

  predicate DesugaredBlock(b: Block)
    decreases b
  {
    forall s | s in b.stmts :: DesugaredStmt(s)
  }

  /** The targets of all assignments are free of sugar. */
  predicate CleanTargets(e: Expr)
    decreases e
  {
    match e
    case Grouping(inner) => CleanTargets(inner)
    case Binary(_, l, r) => CleanTargets(l) && CleanTargets(r)
    case Unary(_, node) => CleanTargets(node)
    case Call(callee, args) => CleanTargets(callee) && forall x | x in args :: CleanTargets(x)
    case Assign(target, v) => Desugared(target) && CleanTargets(v)
    case Array(vs, _, _) => forall x | x in vs :: CleanTargets(x)
    case Index(x, i) => CleanTargets(x) && CleanTargets(i)
    case _ => true
  }

  predicate CleanOption(e: Option<Expr>) {
    e.Some? ==> CleanTargets(e.value)
  }

  predicate CleanStmt(s: Stmt)
    decreases s
  {
    match s
    case ExprStmt(e) => CleanTargets(e)
    case BlockStmt(b) => CleanBlock(b)
    case VarDecl(_, _, init, _) => CleanOption(init)
    case If(cond, thn, els) => CleanTargets(cond) && CleanBlock(thn) && (els.Some? ==> CleanBlock(els.value))
    case While(cond, body) => CleanTargets(cond) && CleanBlock(body)
    case For(_, _, start, cond, update, body, _, _) =>
      CleanTargets(start) && CleanTargets(cond) && CleanTargets(update) && CleanBlock(body)
    case Return(e) => CleanOption(e)
  }

  predicate CleanBlock(b: Block)
    decreases b
  {
    forall s | s in b.stmts :: CleanStmt(s)
  }

  /** Expansion leaves no sugar behind if and only if no assignment target has any. */
  lemma {:induction false} NoSugarLeft(e: Expr)
    ensures Desugared(ExpandExpr(e)) <==> CleanTargets(e)
    decreases e, 1
  {
    match e
    case Grouping(inner) => NoSugarLeft(inner);
    case Binary(_, l, r) =>
      NoSugarLeft(l);
      NoSugarLeft(r);
    case Unary(_, node) => NoSugarLeft(node);
    case Call(callee, args) =>
      NoSugarLeft(callee);
      NoSugarInList(args);
    case Assign(_, v) => NoSugarLeft(v);
    case Array(vs, _, _) => NoSugarInList(vs);
    case Index(x, i) =>
      NoSugarLeft(x);
      NoSugarLeft(i);
    case _ =>
  }

  lemma {:induction false} NoSugarInList(es: seq<Expr>)
    ensures (forall x | x in ExpandExprs(es) :: Desugared(x)) <==> (forall x | x in es :: CleanTargets(x))
    decreases es, 0
  {
    var r := ExpandExprs(es);
    forall i | 0 <= i < |es| ensures Desugared(r[i]) <==> CleanTargets(es[i]) {
      NoSugarLeft(es[i]);
    }
    if forall x | x in es :: CleanTargets(x) {
      forall x | x in r ensures Desugared(x) {
        var i :| 0 <= i < |r| && r[i] == x;
        assert es[i] in es;
      }
    }
    assert forall i | 0 <= i < |es| :: r[i] in r;
  }

  lemma {:induction false} NoSugarInStmt(s: Stmt)
    ensures DesugaredStmt(ExpandStmt(s)) <==> CleanStmt(s)
    decreases s, 1
  {
    hide Desugared, CleanTargets;
    match s
    case ExprStmt(e) => NoSugarLeft(e);
    case BlockStmt(b) => NoSugarInBlock(b);
    case VarDecl(_, _, init, _) =>
      if init.Some? {
        NoSugarLeft(init.value);
      }
    case If(cond, thn, els) =>
      NoSugarLeft(cond);
      NoSugarInBlock(thn);
      if els.Some? {
        NoSugarInBlock(els.value);
      }
    case While(cond, body) =>
      NoSugarLeft(cond);
      NoSugarInBlock(body);
    case For(_, _, _, _, _, _, _, _) => NoSugarInFor(s);
    case Return(e) =>
      if e.Some? {
        NoSugarLeft(e.value);
      }
  }

  lemma {:induction false} NoSugarInFor(s: Stmt)
    requires s.For?
    ensures DesugaredStmt(ExpandStmt(s)) <==> CleanStmt(s)
    decreases s, 0
  {
    hide Desugared, CleanTargets, ExpandExpr, CleanBlock;
    NoSugarLeft(s.start);
    NoSugarLeft(s.cond);
    NoSugarLeft(s.update);
    NoSugarInBlock(s.body);
    var outer := ExpandStmt(s).block;
    var loop := outer.stmts[1];
    var stmts, last := ExpandStmts(s.body.stmts), ExprStmt(ExpandExpr(s.update));
    OneMoreDesugared(stmts, last, s.body.table);
    assert DesugaredBlock(outer) <==> DesugaredStmt(outer.stmts[0]) && DesugaredStmt(loop);
  }

  lemma OneMoreDesugared(stmts: seq<Stmt>, last: Stmt, table: nat)
    ensures DesugaredBlock(Block(stmts + [last], table)) <==> DesugaredBlock(Block(stmts, table)) && DesugaredStmt(last)
  {
    var all := Block(stmts + [last], table).stmts;
    assert forall x :: x in all <==> x in stmts || x == last;
  }

  lemma {:induction false} NoSugarInBlock(b: Block)
    ensures DesugaredBlock(ExpandBlock(b)) <==> CleanBlock(b)
    decreases b, 0
  {
    var r := ExpandStmts(b.stmts);
    forall i | 0 <= i < |b.stmts| ensures DesugaredStmt(r[i]) <==> CleanStmt(b.stmts[i]) {
      NoSugarInStmt(b.stmts[i]);
    }
    assert forall i | 0 <= i < |b.stmts| :: r[i] in r && b.stmts[i] in b.stmts;
  }
}
