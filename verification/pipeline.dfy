/** Desugaring, layout and code generation one after the other, and what the result means for the
    program as it was written. */
module Pipeline {
  import opened Types
  import opened Memory
  import opened Words
  import opened Syntax
  import opened Typing
  import opened Machine
  import opened Emission
  import opened Semantics
  import opened Expand
  import opened Layout
  import opened Scopes
  import opened Linking
  import opened Desugar
  import opened Operators
  import opened Frames
  import opened Simulation
  import opened Relation
  import opened Correctness

  /** The layout of a statement as it was written: every object has the place that it gets once the
      statement has been desugared. */
  function PlaceStmt(s: Stmt, l: Lay): (r: (Stmt, Lay))
    requires l.Valid()
    ensures r.1.Valid() && r.1.head == l.head
    decreases s
  {
    match s
    case BlockStmt(b) =>
      var r := PlaceBlock(b, l);
      (BlockStmt(r.0), r.1)
    case If(cond, thn, els) =>
      var r1 := LayExpr(cond, l.size);
      var r2 := PlaceBlock(thn, l.(size := r1.1));
      if els.None? then (If(r1.0, r2.0, None), r2.1)
      else
        var r3 := PlaceBlock(els.value, r2.1);
        (If(r1.0, r2.0, Some(r3.0)), r3.1)
    case While(cond, body) =>
      var r1 := LayExpr(cond, l.size);
      var r2 := PlaceBlock(body, l.(size := r1.1));
      (While(r1.0, r2.0), r2.1)
    case For(x, ty, start, cond, update, body, _, _) =>
      var off := l.size + SlotSize(ty);
      var l1 := l.Push().(size := off).Insert(x, Variable(ty, off));
      var r1 := LayExpr(start, off);
      var r2 := LayExpr(cond, r1.1);
      var r3 := PlaceStmts(body.stmts, l1.(size := r2.1).Push());
      var r4 := LayExpr(update, r3.1.size);
      (For(x, ty, r1.0, r2.0, r4.0, Block(r3.0, |l1.scopes|), off, |l.scopes|), r3.1.(size := r4.1, head := l.head))
    case _ => LayStmt(s, l)
  }

  function PlaceStmts(stmts: seq<Stmt>, l: Lay): (r: (seq<Stmt>, Lay))
    requires l.Valid()
    ensures r.1.Valid() && r.1.head == l.head
    decreases stmts
  {
    if stmts == [] then ([], l)
    else
      var r1 := PlaceStmt(stmts[0], l);
      var r2 := PlaceStmts(stmts[1..], r1.1);
      ([r1.0] + r2.0, r2.1)
  }

  function PlaceBlock(b: Block, l: Lay): (r: (Block, Lay))
    requires l.Valid()
    ensures r.1.Valid() && r.1.head == l.head && r.0.table == |l.scopes| < |r.1.scopes|
    decreases b
  {
    var r := PlaceStmts(b.stmts, l.Push());
    (Block(r.0, |l.scopes|), r.1.(head := l.head))
  }

  function PlaceProc(p: Proc, l: Lay): (r: (Proc, Lay))
    requires l.Valid()
    ensures r.1.Valid() && r.1.head == l.head && |r.0.slots| == |p.sig.params|
  {
    var r1 := PlaceBlock(p.body, l.Insert(p.name, Routine(p.sig)).(size := 0));
    var r2 := LayParams(p.sig.params, r1.1.(head := r1.0.table));
    (Proc(p.name, p.sig, r1.0, r2.0, r2.1.size), r2.1.(head := l.head))
  }

  function PlaceProcs(procs: seq<Proc>, l: Lay): (r: (seq<Proc>, Lay))
    requires l.Valid()
    ensures r.1.Valid() && r.1.head == l.head && |r.0| == |procs|
  {
    if procs == [] then ([], l)
    else
      var r1 := PlaceProc(procs[0], l);
      var r2 := PlaceProcs(procs[1..], r1.1);
      ([r1.0] + r2.0, r2.1)
  }

  /** The program as it was written, with all its objects placed. */
  function Placed(procs: seq<Proc>): seq<Proc> {
    PlaceProcs(procs, Lay(0, [Scope(map[], None)], 0)).0
  }

  lemma {:induction false} ExprPlaced(e: Expr, size: nat)
    ensures LayExpr(ExpandExpr(e), size) == (ExpandExpr(LayExpr(e, size).0), LayExpr(e, size).1)
    decreases e, 1
  {
    match e
    case Grouping(inner) => ExprPlaced(inner, size);
    case Binary(_, l, r) =>
      ExprPlaced(l, size);
      ExprPlaced(r, LayExpr(l, size).1);
    case Unary(_, node) => ExprPlaced(node, size);
    case Call(callee, args) =>
      ExprPlaced(callee, size);
      ExprsPlaced(args, LayExpr(callee, size).1);
    case Assign(_, v) => ExprPlaced(v, size);
    case Array(vs, elem, _) => ExprsPlaced(vs, size + SlotSize(elem) * |vs| + SlotSize(elem));
    case Index(x, i) =>
      ExprPlaced(x, size);
      ExprPlaced(i, LayExpr(x, size).1);
    case _ =>
  }

  lemma {:induction false} ExprsPlaced(es: seq<Expr>, size: nat)
    ensures LayExprs(ExpandExprs(es), size) == (ExpandExprs(LayExprs(es, size).0), LayExprs(es, size).1)
    decreases es, 0
  {
    hide LayExpr, ExpandExpr;
    if es != [] {
      ExprPlaced(es[0], size);
      var r := LayExpr(es[0], size);
      ExprsPlaced(es[1..], r.1);
      assert ExpandExprs(es)[1..] == ExpandExprs(es[1..]);
      var rest := LayExprs(es[1..], r.1).0;
      assert ([r.0] + rest)[1..] == rest;
    }
  }

  lemma OptionPlaced(e: Option<Expr>, size: nat)
    ensures LayOption(ExpandOption(e), size) == (ExpandOption(LayOption(e, size).0), LayOption(e, size).1)
  {
    if e.Some? {
      ExprPlaced(e.value, size);
    }
  }

  /** Laying out the desugared statement is desugaring the placed one. */
  lemma {:induction false} StmtPlaced(s: Stmt, l: Lay)
    requires l.Valid()
    ensures LayStmt(ExpandStmt(s), l) == (ExpandStmt(PlaceStmt(s, l).0), PlaceStmt(s, l).1)
    decreases s, 1
  {
    hide LayExpr, ExpandExpr, LayBlock, ExpandBlock, PlaceBlock, LayOption, ExpandOption;
    match s
    case ExprStmt(e) => ExprPlaced(e, l.size);
    case BlockStmt(b) => BlockPlaced(b, l);
    case VarDecl(_, ty, init, _) => OptionPlaced(init, l.size + SlotSize(ty));
    case If(cond, thn, els) =>
      ExprPlaced(cond, l.size);
      var l1 := l.(size := LayExpr(cond, l.size).1);
      BlockPlaced(thn, l1);
      if els.Some? {
        BlockPlaced(els.value, PlaceBlock(thn, l1).1);
      }
    case While(cond, body) =>
      ExprPlaced(cond, l.size);
      BlockPlaced(body, l.(size := LayExpr(cond, l.size).1));
    case For(_, _, _, _, _, _, _, _) => ForPlaced(s, l);
    case Return(e) => OptionPlaced(e, l.size);
  }

  lemma {:induction false} StmtsPlaced(stmts: seq<Stmt>, l: Lay)
    requires l.Valid()
    ensures LayStmts(ExpandStmts(stmts), l) == (ExpandStmts(PlaceStmts(stmts, l).0), PlaceStmts(stmts, l).1)
    decreases stmts, 0
  {
    hide LayStmt, ExpandStmt, PlaceStmt;
    if stmts != [] {
      StmtPlaced(stmts[0], l);
      var r := PlaceStmt(stmts[0], l);
      StmtsPlaced(stmts[1..], r.1);
      assert ExpandStmts(stmts)[1..] == ExpandStmts(stmts[1..]);
      var rest := PlaceStmts(stmts[1..], r.1).0;
      assert ([r.0] + rest)[1..] == rest;
    }
  }

  lemma {:induction false} BlockPlaced(b: Block, l: Lay)
    requires l.Valid()
    ensures LayBlock(ExpandBlock(b), l) == (ExpandBlock(PlaceBlock(b, l).0), PlaceBlock(b, l).1)
    decreases b, 0
  {
    hide LayStmts, ExpandStmts, PlaceStmts;
    StmtsPlaced(b.stmts, l.Push());
  }

  lemma {:induction false} LayLast(stmts: seq<Stmt>, e: Expr, l: Lay)
    requires l.Valid()
    ensures var r := LayStmts(stmts, l); var q := LayExpr(e, r.1.size);
            LayStmts(stmts + [ExprStmt(e)], l) == (r.0 + [ExprStmt(q.0)], r.1.(size := q.1))
    decreases |stmts|
  {
    hide LayExpr;
    if stmts == [] {
      assert stmts + [ExprStmt(e)] == [ExprStmt(e)] && [ExprStmt(e)][1..] == [];
      var q := LayStmt(ExprStmt(e), l);
      assert LayStmts([], q.1) == ([], q.1);
      assert [q.0] + [] == [q.0] && [] + [q.0] == [q.0];
    } else {
      hide LayStmt;
      var r := LayStmt(stmts[0], l);
      LayLast(stmts[1..], e, r.1);
      assert (stmts + [ExprStmt(e)])[1..] == stmts[1..] + [ExprStmt(e)];
      var rest := LayStmts(stmts[1..], r.1);
      var last := [ExprStmt(LayExpr(e, rest.1.size).0)];
      assert [r.0] + (rest.0 + last) == ([r.0] + rest.0) + last;
    }
  }

  lemma LayTwo(s: Stmt, t: Stmt, l: Lay)
    requires l.Valid()
    ensures var r := LayStmt(s, l); var q := LayStmt(t, r.1); LayStmts([s, t], l) == ([r.0, q.0], q.1)
  {
    hide LayStmt;
    var r := LayStmt(s, l);
    assert [s, t][1..] == [t] && [t][1..] == [];
    var q := LayStmt(t, r.1);
    assert LayStmts([t], r.1) == ([q.0] + [], q.1);
    assert [q.0] + [] == [q.0] && [r.0] + [q.0] == [r.0, q.0];
  }

  lemma {:induction false} ForPlaced(s: Stmt, l: Lay)
    requires s.For? && l.Valid()
    ensures LayStmt(ExpandStmt(s), l) == (ExpandStmt(PlaceStmt(s, l).0), PlaceStmt(s, l).1)
    decreases s, 0
  {
    hide LayExpr, ExpandExpr, LayStmts, ExpandStmts, PlaceStmts;
    var off := l.size + SlotSize(s.ty);
    var l1 := l.Push().(size := off).Insert(s.ident, Variable(s.ty, off));
    ExprPlaced(s.start, off);
    var r1 := LayExpr(s.start, off);
    ExprPlaced(s.cond, r1.1);
    var r2 := LayExpr(s.cond, r1.1);
    var l2 := l1.(size := r2.1).Push();
    StmtsPlaced(s.body.stmts, l2);
    var r3 := PlaceStmts(s.body.stmts, l2);
    ExprPlaced(s.update, r3.1.size);
    LayLast(ExpandStmts(s.body.stmts), ExpandExpr(s.update), l2);
    var outer := ExpandStmt(s).block;
    LayTwo(outer.stmts[0], outer.stmts[1], l.Push());
  }

  lemma ProcPlaced(p: Proc, l: Lay)
    requires l.Valid()
    ensures LayProc(ExpandProc(p), l) == (ExpandProc(PlaceProc(p, l).0), PlaceProc(p, l).1)
  {
    hide LayBlock, PlaceBlock, ExpandBlock, LayParams;
    BlockPlaced(p.body, l.Insert(p.name, Routine(p.sig)).(size := 0));
    ExpandedTable(PlaceBlock(p.body, l.Insert(p.name, Routine(p.sig)).(size := 0)).0);
  }

  lemma ExpandedTable(b: Block)
    ensures ExpandBlock(b).table == b.table
  {
  }

  lemma {:induction false} ProcsPlaced(procs: seq<Proc>, l: Lay)
    requires l.Valid()
    ensures LayProcs(ExpandProcs(procs), l) == (ExpandProcs(PlaceProcs(procs, l).0), PlaceProcs(procs, l).1)
    decreases |procs|
  {
    hide LayProc, PlaceProc;
    if procs != [] {
      ProcPlaced(procs[0], l);
      var r := PlaceProc(procs[0], l);
      ProcsPlaced(procs[1..], r.1);
      assert ExpandProcs(procs)[1..] == ExpandProcs(procs[1..]);
      var rest := PlaceProcs(procs[1..], r.1).0;
      assert ([r.0] + rest)[1..] == rest;
    }
  }

  /** The two orders of desugaring and placing agree. */
  lemma PlacedExpands(procs: seq<Proc>)
    ensures ExpandProcs(Placed(procs)) == LayProgram(ExpandProcs(procs)).0
  {
    ProcsPlaced(procs, Lay(0, [Scope(map[], None)], 0));
  }

  lemma {:induction false} LaidAvoids(e: Expr, size: nat, names: set<string>)
    ensures Avoids(LayExpr(e, size).0, names) == Avoids(e, names)
    decreases e, 1
  {
    match e
    case Grouping(inner) => LaidAvoids(inner, size, names);
    case Binary(_, l, r) =>
      LaidAvoids(l, size, names);
      LaidAvoids(r, LayExpr(l, size).1, names);
    case Unary(_, node) => LaidAvoids(node, size, names);
    case Call(callee, args) =>
      LaidAvoids(callee, size, names);
      AllLaidAvoid(args, LayExpr(callee, size).1, names);
    case Assign(_, v) => LaidAvoids(v, size, names);
    case Array(vs, elem, _) => AllLaidAvoid(vs, size + SlotSize(elem) * |vs| + SlotSize(elem), names);
    case Index(x, i) =>
      LaidAvoids(x, size, names);
      LaidAvoids(i, LayExpr(x, size).1, names);
    case _ =>
  }

  lemma {:induction false} AllLaidAvoid(es: seq<Expr>, size: nat, names: set<string>)
    ensures (forall x | x in LayExprs(es, size).0 :: Avoids(x, names)) <==> (forall x | x in es :: Avoids(x, names))
    decreases es, 0
  {
    hide LayExpr, Avoids;
    if es != [] {
      LaidAvoids(es[0], size, names);
      var r := LayExpr(es[0], size);
      AllLaidAvoid(es[1..], r.1, names);
      assert forall x :: x in es <==> x == es[0] || x in es[1..];
    }
  }

  lemma {:induction false} PlacedDeclares(stmts: seq<Stmt>, l: Lay)
    requires l.Valid()
    ensures Declared(PlaceStmts(stmts, l).0).Keys == Declared(stmts).Keys
    decreases |stmts|
  {
    if stmts != [] {
      hide LayExpr, LayOption, PlaceBlock;
      var r := PlaceStmt(stmts[0], l);
      PlacedDeclares(stmts[1..], r.1);
      var rest := PlaceStmts(stmts[1..], r.1).0;
      assert ([r.0] + rest)[1..] == rest;
    }
  }

  lemma {:induction false} StmtKeepsPlaced(s: Stmt, l: Lay)
    requires l.Valid()
    ensures UpdatesKeepNames(PlaceStmt(s, l).0) == UpdatesKeepNames(s)
    decreases s, 1
  {
    hide LayExpr, LayOption, Avoids, BlockKeepsNames, PlaceBlock;
    match s
    case BlockStmt(b) => BlockKeepsPlaced(b, l);
    case If(cond, thn, els) =>
      var l1 := l.(size := LayExpr(cond, l.size).1);
      BlockKeepsPlaced(thn, l1);
      if els.Some? {
        BlockKeepsPlaced(els.value, PlaceBlock(thn, l1).1);
      }
    case While(cond, body) => BlockKeepsPlaced(body, l.(size := LayExpr(cond, l.size).1));
    case For(_, _, _, _, _, _, _, _) => ForKeepsPlaced(s, l);
    case _ =>
  }

  lemma {:induction false} ForKeepsPlaced(s: Stmt, l: Lay)
    requires s.For? && l.Valid()
    ensures UpdatesKeepNames(PlaceStmt(s, l).0) == UpdatesKeepNames(s)
    decreases s, 0
  {
    hide LayExpr, Avoids, PlaceStmts, UpdatesKeepNames, Declared;
    var off := l.size + SlotSize(s.ty);
    var l1 := l.Push().(size := off).Insert(s.ident, Variable(s.ty, off));
    var l2 := l1.(size := LayExpr(s.cond, LayExpr(s.start, off).1).1).Push();
    StmtsKeepPlaced(s.body.stmts, l2);
    PlacedDeclares(s.body.stmts, l2);
    LaidAvoids(s.update, PlaceStmts(s.body.stmts, l2).1.size, Declared(s.body.stmts).Keys);
    ForKeeps(s);
    ForKeeps(PlaceStmt(s, l).0);
  }

  lemma ForKeeps(s: Stmt)
    requires s.For?
    ensures UpdatesKeepNames(s) <==>
            (forall x | x in s.body.stmts :: UpdatesKeepNames(x)) && Avoids(s.update, Declared(s.body.stmts).Keys)
  {
  }

  lemma {:induction false} StmtsKeepPlaced(stmts: seq<Stmt>, l: Lay)
    requires l.Valid()
    ensures (forall x | x in PlaceStmts(stmts, l).0 :: UpdatesKeepNames(x)) <==>
            (forall x | x in stmts :: UpdatesKeepNames(x))
    decreases stmts, 0
  {
    hide PlaceStmt, UpdatesKeepNames;
    if stmts != [] {
      StmtKeepsPlaced(stmts[0], l);
      StmtsKeepPlaced(stmts[1..], PlaceStmt(stmts[0], l).1);
      assert forall x :: x in stmts <==> x == stmts[0] || x in stmts[1..];
    }
  }

  lemma {:induction false} BlockKeepsPlaced(b: Block, l: Lay)
    requires l.Valid()
    ensures BlockKeepsNames(PlaceBlock(b, l).0) == BlockKeepsNames(b)
    decreases b, 0
  {
    hide PlaceStmts, UpdatesKeepNames;
    StmtsKeepPlaced(b.stmts, l.Push());
    BlockKeeps(b);
    BlockKeeps(PlaceBlock(b, l).0);
  }

  lemma BlockKeeps(b: Block)
    ensures BlockKeepsNames(b) <==> forall x | x in b.stmts :: UpdatesKeepNames(x)
  {
  }

  /** Whether updates keep their names can be seen in the program as it was written. */
  lemma {:induction false} PlacedKeepsNames(procs: seq<Proc>, l: Lay)
    requires l.Valid()
    ensures KeepsNames(PlaceProcs(procs, l).0) == KeepsNames(procs)
    decreases |procs|
  {
    hide PlaceBlock, BlockKeepsNames, LayParams;
    if procs != [] {
      var p := procs[0];
      BlockKeepsPlaced(p.body, l.Insert(p.name, Routine(p.sig)).(size := 0));
      var r := PlaceProc(p, l);
      PlacedKeepsNames(procs[1..], r.1);
      assert r.0.body == PlaceBlock(p.body, l.Insert(p.name, Routine(p.sig)).(size := 0)).0;
      assert forall x :: x in procs <==> x == p || x in procs[1..];
      assert forall x :: x in PlaceProcs(procs, l).0 <==> x == r.0 || x in PlaceProcs(procs[1..], r.1).0;
    }
  }

  /** The world in which the program as it was written runs: its procedures with their objects placed,
      at the addresses that linking gives the compiled ones. */
  function SourceCtx(procs: seq<Proc>, c: Ctx): Ctx {
    c.(procs := Placed(procs))
  }

  /** The compiled form of a program, in its fragment and linked in front of other code. */
  ghost predicate Compiled(procs: seq<Proc>, laid: seq<Proc>, post: Code) {
    laid == LayProgram(ExpandProcs(procs)).0 && Compilable(laid, post) && KeepsNames(procs)
  }

  lemma SourceMeaning(procs: seq<Proc>, laid: seq<Proc>, post: Code, limit: nat, p: Proc, vs: seq<nat>, fuel: nat,
                      sp: int, acc: set<int>, mem: Mem)
    requires Compiled(procs, laid, post) && p in Placed(procs) && mem.Keys <= acc && |vs| == |p.slots| == |p.sig.params|
    ensures var c := Program(laid, post, limit).c;
            CallProc(c, fuel, ExpandProc(p), vs, sp, acc, mem) ==
            CallProc(SourceCtx(procs, c), fuel, p, vs, sp, acc, mem)
  {
    hide CallProc, ProgramCode, LinkMap, SupportedProc, KeepsNames, LayProgram;
    var c := Program(laid, post, limit).c;
    PlacedExpands(procs);
    PlacedKeepsNames(procs, Lay(0, [Scope(map[], None)], 0));
    assert ExpandCtx(SourceCtx(procs, c)) == c;
    ProcMeans(SourceCtx(procs, c), fuel, p, vs, sp, acc, mem);
  }

  /** From source to machine: if a call of a procedure returns by the rules of the program as it was
      written, for loops and indexing included, then the machine running the compiled program comes
      back from the call with that result and that memory. */
  lemma SourceReturns(procs: seq<Proc>, laid: seq<Proc>, post: Code, limit: nat, p: Proc, vs: seq<nat>, fuel: nat,
                      s: State, acc: set<int>, mem: Mem)
    returns (n: nat, t: State)
    requires Compiled(procs, laid, post) && p in Placed(procs)
    requires var w := Program(laid, post, limit);
             Calling(w, ExpandProc(p), vs, s, acc, mem) &&
             CallProc(SourceCtx(procs, w.c), fuel, p, vs, s.regs.rsp, acc, mem).Done?
    ensures var w := Program(laid, post, limit);
            var r := CallProc(SourceCtx(procs, w.c), fuel, p, vs, s.regs.rsp, acc, mem);
            Run(w.code, n, s) == Some(t) && t.pc == s.pc + 1 && t.regs.rsp == s.regs.rsp && t.regs.rbp == s.regs.rbp &&
            t.regs.rax % Modulus(Size(p.sig.ret)) == r.value && Stays(w, n, s, s.regs.rsp, acc) &&
            forall x :: !(limit <= x < s.regs.rsp) ==> Get(t.mem, x) == if x in r.mem then r.mem[x] else Get(s.mem, x)
  {
    hide Run, CallProc, ProgramCode, LinkMap, SupportedProc, KeepsNames, LayProgram, At, Passed;
    SourceMeaning(procs, laid, post, limit, p, vs, fuel, s.regs.rsp, acc, mem);
    n, t := CallReturns(laid, post, limit, ExpandProc(p), vs, fuel, s, acc, mem);
  }

  /** If it never returns there, the machine never stops, and keeps to the free stack and the live
      objects however long it runs. */
  lemma SourceDiverges(procs: seq<Proc>, laid: seq<Proc>, post: Code, limit: nat, p: Proc, vs: seq<nat>, s: State,
                       acc: set<int>, mem: Mem, n: nat)
    requires Compiled(procs, laid, post) && p in Placed(procs)
    requires var w := Program(laid, post, limit);
             Calling(w, ExpandProc(p), vs, s, acc, mem) &&
             forall fuel: nat :: CallProc(SourceCtx(procs, w.c), fuel, p, vs, s.regs.rsp, acc, mem).OutOfFuel?
    ensures var w := Program(laid, post, limit);
            Run(w.code, n, s).Some? && InStack(w, s, Run(w.code, n, s).value, s.regs.rsp, acc)
  {
    hide Run, CallProc, ProgramCode, LinkMap, SupportedProc, KeepsNames, LayProgram, At, Passed;
    var w := Program(laid, post, limit);
    forall fuel: nat ensures CallProc(w.c, fuel, ExpandProc(p), vs, s.regs.rsp, acc, mem).OutOfFuel? {
      SourceMeaning(procs, laid, post, limit, p, vs, fuel, s.regs.rsp, acc, mem);
    }
    CallDiverges(laid, post, limit, ExpandProc(p), vs, s, acc, mem, n);
  }
}
