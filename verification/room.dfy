/** How large a frame is and where in it each object lies, counted without running the layout. */
module Room {
  import opened Types
  import opened Syntax
  import opened Layout

  /** Padding goes up to the next multiple of 16, and always adds something. */
  lemma Padding(i: nat)
    ensures Align16(i) % 16 == 0 && i < Align16(i) <= i + 16
  {
  }

  /** So a variable of whatever type takes one cell of 16 bytes. */
  lemma OneCell(t: Type)
    ensures SlotSize(t) == 16
  {
  }

  /** The cells an expression needs: for each array literal one for every element and one more. */
  function ExprCells(e: Expr): nat
    decreases e
  {
    match e
    case Grouping(inner) => ExprCells(inner)
    case Binary(_, l, r) => ExprCells(l) + ExprCells(r)
    case Unary(_, node) => ExprCells(node)
    case Call(callee, args) => ExprCells(callee) + ExprsCells(args)
    case Assign(_, v) => ExprCells(v)
    case Array(vs, _, _) => |vs| + 1 + ExprsCells(vs)
    case Index(x, i) => ExprCells(x) + ExprCells(i)
    case _ => 0
  }

  function ExprsCells(es: seq<Expr>): nat
    decreases es
  {
    if es == [] then 0 else ExprCells(es[0]) + ExprsCells(es[1..])
  }

  function OptionCells(e: Option<Expr>): nat {
    if e.None? then 0 else ExprCells(e.value)
  }

  /** The cells of a statement: one for each variable, wherever it is declared. */
  function StmtCells(s: Stmt): nat
    decreases s
  {
    match s
    case ExprStmt(e) => ExprCells(e)
    case BlockStmt(b) => BlockCells(b)
    case VarDecl(_, _, init, _) => 1 + OptionCells(init)
    case If(cond, thn, els) => ExprCells(cond) + BlockCells(thn) + if els.Some? then BlockCells(els.value) else 0
    case While(cond, body) => ExprCells(cond) + BlockCells(body)
    case For(_, _, _, _, _, _, _, _) => 0
    case Return(e) => OptionCells(e)
  }

  function StmtsCells(stmts: seq<Stmt>): nat
    decreases stmts
  {
    if stmts == [] then 0 else StmtCells(stmts[0]) + StmtsCells(stmts[1..])
  }

  function BlockCells(b: Block): nat
    decreases b
  {
    StmtsCells(b.stmts)
  }

  /** Parameters take their plain sizes. */
  function ParamBytes(params: seq<Param>): nat {
    if params == [] then 0 else ParamBytes(params[..|params| - 1]) + Size(params[|params| - 1].ty)
  }

  lemma {:induction false} ExprRoom(e: Expr, size: nat)
    ensures LayExpr(e, size).1 == size + 16 * ExprCells(e)
    ensures e.Array? ==> LayExpr(e, size).0.offset == size + 16
    decreases e
  {
    match e
    case Grouping(inner) => ExprRoom(inner, size);
    case Binary(_, l, r) =>
      ExprRoom(l, size);
      ExprRoom(r, LayExpr(l, size).1);
    case Unary(_, node) => ExprRoom(node, size);
    case Call(callee, args) =>
      ExprRoom(callee, size);
      ExprsRoom(args, LayExpr(callee, size).1);
    case Assign(_, v) => ExprRoom(v, size);
    case Array(vs, elem, _) =>
      OneCell(elem);
      ExprsRoom(vs, size + SlotSize(elem) * |vs| + SlotSize(elem));
    case Index(x, i) =>
      ExprRoom(x, size);
      ExprRoom(i, LayExpr(x, size).1);
    case _ =>
  }

  lemma {:induction false} ExprsRoom(es: seq<Expr>, size: nat)
    ensures LayExprs(es, size).1 == size + 16 * ExprsCells(es)
    decreases es
  {
    hide LayExpr, ExprCells;
    if es != [] {
      ExprRoom(es[0], size);
      ExprsRoom(es[1..], LayExpr(es[0], size).1);
    }
  }

  lemma OptionRoom(e: Option<Expr>, size: nat)
    ensures LayOption(e, size).1 == size + 16 * OptionCells(e)
  {
    if e.Some? {
      ExprRoom(e.value, size);
    }
  }

  lemma {:induction false} StmtRoom(s: Stmt, l: Lay)
    requires l.Valid()
    ensures LayStmt(s, l).1.size == l.size + 16 * StmtCells(s)
    ensures s.VarDecl? ==> LayStmt(s, l).0.offset == l.size + 16
    decreases s
  {
    hide LayExpr, ExprCells, LayOption, OptionCells, SlotSize;
    match s
    case ExprStmt(e) => ExprRoom(e, l.size);
    case BlockStmt(b) => BlockRoom(b, l);
    case VarDecl(_, ty, init, _) =>
      OneCell(ty);
      OptionRoom(init, l.size + SlotSize(ty));
    case If(cond, thn, els) =>
      ExprRoom(cond, l.size);
      var l1 := l.(size := LayExpr(cond, l.size).1);
      BlockRoom(thn, l1);
      if els.Some? {
        BlockRoom(els.value, LayBlock(thn, l1).1);
      }
    case While(cond, body) =>
      ExprRoom(cond, l.size);
      BlockRoom(body, l.(size := LayExpr(cond, l.size).1));
    case For(_, _, _, _, _, _, _, _) =>
    case Return(e) => OptionRoom(e, l.size);
  }

  /** Every statement of a list is laid out behind the ones in front of it; a variable declared there
      lies in the next cell. */
  lemma {:induction false} StmtsRoom(stmts: seq<Stmt>, l: Lay)
    requires l.Valid()
    ensures var r := LayStmts(stmts, l);
            |r.0| == |stmts| && r.1.size == l.size + 16 * StmtsCells(stmts) &&
            forall i | 0 <= i < |stmts| && stmts[i].VarDecl? ::
              r.0[i].VarDecl? && r.0[i].offset == l.size + 16 * StmtsCells(stmts[..i]) + 16
    decreases stmts
  {
    hide LayStmt, StmtCells;
    if stmts != [] {
      var first, rest := LayStmt(stmts[0], l), stmts[1..];
      StmtRoom(stmts[0], l);
      StaysVariable(stmts[0], l);
      StmtsRoom(rest, first.1);
      var r, q := LayStmts(stmts, l), LayStmts(rest, first.1);
      forall i | 0 <= i < |stmts| && stmts[i].VarDecl?
        ensures r.0[i].VarDecl? && r.0[i].offset == l.size + 16 * StmtsCells(stmts[..i]) + 16
      {
        if i > 0 {
          assert r.0[i] == q.0[i - 1] && stmts[i] == rest[i - 1];
          assert stmts[..i][1..] == rest[..i - 1];
        }
      }
    }
  }

  lemma StaysVariable(s: Stmt, l: Lay)
    requires l.Valid()
    ensures s.VarDecl? ==> LayStmt(s, l).0.VarDecl?
  {
  }

  lemma {:induction false} BlockRoom(b: Block, l: Lay)
    requires l.Valid()
    ensures LayBlock(b, l).1.size == l.size + 16 * BlockCells(b)
    decreases b
  {
    hide LayStmts, StmtsCells;
    StmtsRoom(b.stmts, l.Push());
  }

  lemma {:induction false} ParamBytesFirst(params: seq<Param>)
    requires params != []
    ensures ParamBytes(params) == Size(params[0].ty) + ParamBytes(params[1..])
    decreases |params|
  {
    var init := params[..|params| - 1];
    if init == [] {
      assert params[1..] == [];
      assert ParamBytes(init) == 0;
    } else {
      ParamBytesFirst(init);
      assert params[1..][..|params| - 2] == init[1..];
    }
  }

  /** Parameter number k ends where the sizes of all parameters up to it add up to. */
  lemma {:induction false} ParamsRoom(params: seq<Param>, l: Lay)
    requires l.Valid()
    ensures var r := LayParams(params, l);
            r.1.size == l.size + ParamBytes(params) &&
            forall k | 0 <= k < |params| :: r.0[k] == l.size + ParamBytes(params[..k + 1])
    decreases |params|
  {
    hide Size, ParamBytes;
    assert ParamBytes([]) == 0 by { NoBytes(); }
    if params != [] {
      var off, rest := l.size + Size(params[0].ty), params[1..];
      var l1 := l.(size := off).Insert(params[0].ident, Parameter(params[0].ty, off));
      ParamsRoom(rest, l1);
      ParamBytesFirst(params);
      var r, q := LayParams(params, l), LayParams(rest, l1);
      forall k | 0 <= k < |params| ensures r.0[k] == l.size + ParamBytes(params[..k + 1]) {
        ParamBytesFirst(params[..k + 1]);
        assert params[..k + 1][1..] == rest[..k];
        assert params[..k + 1][0] == params[0];
        if k > 0 {
          assert r.0[k] == q.0[k - 1];
        }
      }
    }
  }

  lemma NoBytes()
    ensures ParamBytes([]) == 0
  {
  }

  /** The frame of a procedure: 16 bytes for each variable and for each array element, 16 more for each
      array literal, and the plain sizes of the parameters, which lie last, one behind the other. */
  lemma FrameSize(p: Proc, l: Lay)
    requires l.Valid()
    ensures var q, n := LayProc(p, l).0, 16 * BlockCells(p.body);
            q.stackSize == n + ParamBytes(p.sig.params) &&
            forall k | 0 <= k < |p.sig.params| :: q.slots[k] == n + ParamBytes(p.sig.params[..k + 1])
  {
    hide LayBlock, LayParams, BlockCells, ParamBytes;
    var l0 := l.Insert(p.name, Routine(p.sig)).(size := 0);
    BlockRoom(p.body, l0);
    var r := LayBlock(p.body, l0);
    ParamsRoom(p.sig.params, r.1.(head := r.0.table));
  }
}
