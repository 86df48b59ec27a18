/** The symbol-table pass as a function: it hands out frame slots in the order the tree is
    traversed and builds one scope per block, linked to the scope around it. */
module Layout {
  import opened Types
  import opened Syntax
  import opened Typing

  /** One table: the symbols of a block and the table of the enclosing block. */
  datatype Scope = Scope(entries: Env, parent: Option<nat>)

  /** State of the pass: bytes handed out so far, all tables, and the innermost open one. */
  datatype Lay = Lay(size: nat, scopes: seq<Scope>, head: nat) {
    predicate Valid() {
      head < |scopes|
    }

    /** Inserting never replaces a symbol that is already there. */
    function Insert(x: string, sym: Symbol): (l: Lay)
      requires Valid()
      ensures l.Valid() && l.size == size && l.head == head && |l.scopes| == |scopes|
    {
      var s := scopes[head];
      this.(scopes := scopes[head := s.(entries := map[x := sym] + s.entries)])
    }

    function Push(): (l: Lay)
      requires Valid()
      ensures l.Valid() && |l.scopes| == |scopes| + 1
    {
      Lay(size, scopes + [Scope(map[], Some(head))], |scopes|)
    }
  }

  function SlotSize(t: Type): nat {
    Align16(Size(t))
  }

  function LayExpr(e: Expr, size: nat): (r: (Expr, nat))
    ensures size <= r.1
    decreases e
  {
    match e
    case Grouping(inner) =>
      var r := LayExpr(inner, size);
      (Grouping(r.0), r.1)
    case Binary(op, l, r) =>
      var r1 := LayExpr(l, size);
      var r2 := LayExpr(r, r1.1);
      (Binary(op, r1.0, r2.0), r2.1)
    case Unary(op, node) =>
      var r := LayExpr(node, size);
      (Unary(op, r.0), r.1)
    case Call(callee, args) =>
      var r1 := LayExpr(callee, size);
      var r2 := LayExprs(args, r1.1);
      (Call(r1.0, r2.0), r2.1)
    case Assign(target, v) =>
      var r := LayExpr(v, size);
      (Assign(target, r.0), r.1)
    case Array(vs, elem, _) =>
      var k := SlotSize(elem);
      var r := LayExprs(vs, size + k * |vs| + k);
      (Array(r.0, elem, size + k), r.1)
    case Index(x, i) =>
      var r1 := LayExpr(x, size);
      var r2 := LayExpr(i, r1.1);
      (Index(r1.0, r2.0), r2.1)
    case _ => (e, size)
  }

  function LayExprs(es: seq<Expr>, size: nat): (r: (seq<Expr>, nat))
    ensures size <= r.1 && |r.0| == |es|
    decreases es
  {
    if es == [] then ([], size)
    else
      var r1 := LayExpr(es[0], size);
      var r2 := LayExprs(es[1..], r1.1);
      ([r1.0] + r2.0, r2.1)
  }

  function LayOption(e: Option<Expr>, size: nat): (r: (Option<Expr>, nat))
    ensures size <= r.1 && r.0.Some? == e.Some?
  {
    if e.None? then (None, size)
    else
      var r := LayExpr(e.value, size);
      (Some(r.0), r.1)
  }

  function LayStmt(s: Stmt, l: Lay): (r: (Stmt, Lay))
    requires l.Valid()
    ensures r.1.Valid() && r.1.head == l.head && l.size <= r.1.size && |l.scopes| <= |r.1.scopes|
    decreases s
  {
    match s
    case ExprStmt(e) =>
      var r := LayExpr(e, l.size);
      (ExprStmt(r.0), l.(size := r.1))
    case BlockStmt(b) =>
      var r := LayBlock(b, l);
      (BlockStmt(r.0), r.1)
    case VarDecl(x, ty, init, _) =>
      var off := l.size + SlotSize(ty);
      var l1 := l.(size := off).Insert(x, Variable(ty, off));
      var r := LayOption(init, l1.size);
      (VarDecl(x, ty, r.0, off), l1.(size := r.1))
    case If(cond, thn, els) =>
      var r1 := LayExpr(cond, l.size);
      var r2 := LayBlock(thn, l.(size := r1.1));
      if els.None? then (If(r1.0, r2.0, None), r2.1)
      else
        var r3 := LayBlock(els.value, r2.1);
        (If(r1.0, r2.0, Some(r3.0)), r3.1)
    case While(cond, body) =>
      var r1 := LayExpr(cond, l.size);
      var r2 := LayBlock(body, l.(size := r1.1));
      (While(r1.0, r2.0), r2.1)
    case For(_, _, _, _, _, _, _, _) => (s, l)
    case Return(e) =>
      var r := LayOption(e, l.size);
      (Return(r.0), l.(size := r.1))
  }

  function LayStmts(stmts: seq<Stmt>, l: Lay): (r: (seq<Stmt>, Lay))
    requires l.Valid()
    ensures r.1.Valid() && r.1.head == l.head && l.size <= r.1.size && |l.scopes| <= |r.1.scopes|
    decreases stmts
  {
    if stmts == [] then ([], l)
    else
      var r1 := LayStmt(stmts[0], l);
      var r2 := LayStmts(stmts[1..], r1.1);
      ([r1.0] + r2.0, r2.1)
  }

  function LayBlock(b: Block, l: Lay): (r: (Block, Lay))
    requires l.Valid()
    ensures r.1.Valid() && r.1.head == l.head && l.size <= r.1.size && |l.scopes| < |r.1.scopes|
    ensures r.0.table == |l.scopes|
    decreases b
  {
    var r := LayStmts(b.stmts, l.Push());
    (Block(r.0, |l.scopes|), r.1.(head := l.head))
  }

  /** Parameters come after everything in the body, with their plain sizes, and enter the body's
      table, where they cannot replace a variable. */
  function LayParams(params: seq<Param>, l: Lay): (r: (seq<nat>, Lay))
    requires l.Valid()
    ensures r.1.Valid() && r.1.head == l.head && l.size <= r.1.size && |l.scopes| == |r.1.scopes| && |r.0| == |params|
  {
    if params == [] then ([], l)
    else
      var off := l.size + Size(params[0].ty);
      var r := LayParams(params[1..], l.(size := off).Insert(params[0].ident, Parameter(params[0].ty, off)));
      ([off] + r.0, r.1)
  }

  function LayProc(p: Proc, l: Lay): (r: (Proc, Lay))
    requires l.Valid()
    ensures r.1.Valid() && r.1.head == l.head && |l.scopes| < |r.1.scopes|
    ensures r.0.name == p.name && r.0.sig == p.sig && |r.0.slots| == |p.sig.params|
  {
    var r1 := LayBlock(p.body, l.Insert(p.name, Routine(p.sig)).(size := 0));
    var r2 := LayParams(p.sig.params, r1.1.(head := r1.0.table));
    (Proc(p.name, p.sig, r1.0, r2.0, r2.1.size), r2.1.(head := l.head))
  }

  function LayProcs(procs: seq<Proc>, l: Lay): (r: (seq<Proc>, Lay))
    requires l.Valid()
    ensures r.1.Valid() && r.1.head == l.head && |l.scopes| <= |r.1.scopes| && |r.0| == |procs|
  {
    if procs == [] then ([], l)
    else
      var r1 := LayProc(procs[0], l);
      var r2 := LayProcs(procs[1..], r1.1);
      ([r1.0] + r2.0, r2.1)
  }

  /** The pass over a whole program: table 0 is the one of the top level. */
  function LayProgram(procs: seq<Proc>): (r: (seq<Proc>, Lay))
    ensures r.1.Valid() && |r.0| == |procs|
  {
    LayProcs(procs, Lay(0, [Scope(map[], None)], 0))
  }
}
