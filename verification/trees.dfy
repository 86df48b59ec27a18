/** The linked nodes of a program, and what the in-place traversal does to the program. */
module Trees {
  import opened Types
  import opened Syntax
  import opened Expand
  import opened Nodes

  /** The nodes the parser builds for an expression. */
  function ExprTree(e: Expr): Tree
    decreases e
  {
    match e
    case Num(k, n) => Tree(KNum(k, n), [])
    case Str(s) => Tree(KStr(s), [])
    case Ident(x) => Tree(KIdent(x), [])
    case Grouping(inner) => Tree(KGrouping, [ExprTree(inner)])
    case Binary(op, l, r) => Tree(KBinary(op), [ExprTree(l), ExprTree(r)])
    case Unary(op, node) => Tree(KUnary(op), [ExprTree(node)])
    case Call(callee, args) => Tree(KCall, [ExprTree(callee)] + ExprTrees(args))
    case Assign(target, v) => Tree(KAssign, [ExprTree(target), ExprTree(v)])
    case Array(vs, elem, _) => Tree(KArray(elem), ExprTrees(vs))
    case Index(x, i) => Tree(KIndex, [ExprTree(x), ExprTree(i)])
  }

  function ExprTrees(es: seq<Expr>): (r: seq<Tree>)
    ensures |r| == |es|
    decreases es
  {
    if es == [] then [] else [ExprTree(es[0])] + ExprTrees(es[1..])
  }

  function OptionTree(e: Option<Expr>): seq<Tree> {
    if e.None? then [] else [ExprTree(e.value)]
  }

  function StmtTree(s: Stmt): Tree
    decreases s
  {
    match s
    case ExprStmt(e) => ExprTree(e)
    case BlockStmt(b) => BlockTree(b)
    case VarDecl(x, ty, init, _) => Tree(KVarDecl(x, ty), OptionTree(init))
    case If(cond, thn, els) =>
      Tree(KIf, [ExprTree(cond), BlockTree(thn)] + if els.Some? then [BlockTree(els.value)] else [])
    case While(cond, body) => Tree(KWhile, [ExprTree(cond), BlockTree(body)])
    case For(x, ty, start, cond, update, body, _, _) =>
      Tree(KFor(x, ty), [ExprTree(start), ExprTree(cond), ExprTree(update), BlockTree(body)])
    case Return(e) => Tree(KReturn, OptionTree(e))
  }

  function StmtTrees(stmts: seq<Stmt>): (r: seq<Tree>)
    ensures |r| == |stmts|
    decreases stmts
  {
    if stmts == [] then [] else [StmtTree(stmts[0])] + StmtTrees(stmts[1..])
  }

  function BlockTree(b: Block): Tree
    decreases b
  {
    Tree(KBlock, StmtTrees(b.stmts))
  }

  function ProcTrees(procs: seq<Proc>): seq<Tree> {
    if procs == [] then []
       else [Tree(KProc(procs[0].name, procs[0].sig), [BlockTree(procs[0].body)])] + ProcTrees(procs[1..])
  }

  function ProgramTree(procs: seq<Proc>): Tree {
    Tree(KBlock, ProcTrees(procs))
  }

  /** Visiting the trees one after the other gives the other ones. */
  predicate Becomes(ts: seq<Tree>, us: seq<Tree>) {
    (forall t | t in ts :: Shaped(t)) && ExpandedKids(ts, 0) == us
  }

  lemma NoneBecome()
    ensures Becomes([], [])
  {
  }

  lemma MoreBecome(t: Tree, ts: seq<Tree>, us: seq<Tree>)
    requires Shaped(t) && Becomes(ts, us)
    ensures Becomes([t] + ts, [Expanded(t)] + us)
  {
    hide Shaped, Expanded;
    assert ([t] + ts)[1..] == ts;
  }

  lemma OneBecomes(t: Tree)
    requires Shaped(t)
    ensures Becomes([t], [Expanded(t)])
  {
    hide Becomes, Expanded, Shaped;
    NoneBecome();
    MoreBecome(t, [], []);
    assert [t] + [] == [t] && [Expanded(t)] + [] == [Expanded(t)];
  }

  lemma TwoBecome(t: Tree, s: Tree)
    requires Shaped(t) && Shaped(s)
    ensures Becomes([t, s], [Expanded(t), Expanded(s)])
  {
    hide Becomes, Expanded, Shaped;
    OneBecomes(s);
    MoreBecome(t, [s], [Expanded(s)]);
    assert [t] + [s] == [t, s] && [Expanded(t)] + [Expanded(s)] == [Expanded(t), Expanded(s)];
  }

  /** A node that is neither rewritten nor an assignment only has its children visited. */
  lemma NodeBecomes(k: Kind, ts: seq<Tree>, us: seq<Tree>)
    requires !k.KFor? && !k.KIndex? && !k.KAssign? && Becomes(ts, us)
    ensures Shaped(Tree(k, ts)) && Expanded(Tree(k, ts)) == Tree(k, us)
  {
  }

  lemma {:induction false} ExprExpanded(e: Expr)
    ensures Shaped(ExprTree(e)) && Expanded(ExprTree(e)) == ExprTree(ExpandExpr(e))
    decreases e, 1
  {
    hide Shaped, Expanded, Becomes;
    match e
    case Grouping(inner) =>
      ExprExpanded(inner);
      OneBecomes(ExprTree(inner));
      NodeBecomes(KGrouping, [ExprTree(inner)], [ExprTree(ExpandExpr(inner))]);
    case Unary(op, node) =>
      ExprExpanded(node);
      OneBecomes(ExprTree(node));
      NodeBecomes(KUnary(op), [ExprTree(node)], [ExprTree(ExpandExpr(node))]);
    case Binary(op, l, r) =>
      ExprExpanded(l);
      ExprExpanded(r);
      TwoBecome(ExprTree(l), ExprTree(r));
      NodeBecomes(KBinary(op), [ExprTree(l), ExprTree(r)], [ExprTree(ExpandExpr(l)), ExprTree(ExpandExpr(r))]);
    case Index(x, i) =>
      ExprExpanded(x);
      ExprExpanded(i);
      IndexBecomes(ExprTree(x), ExprTree(i));
    case Assign(target, v) =>
      ExprExpanded(target);
      ExprExpanded(v);
      AssignBecomes(ExprTree(target), ExprTree(v));
    case Call(callee, args) =>
      ExprExpanded(callee);
      ExprsExpanded(args);
      MoreBecome(ExprTree(callee), ExprTrees(args), ExprTrees(ExpandExprs(args)));
      NodeBecomes(KCall, [ExprTree(callee)] + ExprTrees(args),
                  [ExprTree(ExpandExpr(callee))] + ExprTrees(ExpandExprs(args)));
    case Array(vs, elem, _) =>
      ExprsExpanded(vs);
      NodeBecomes(KArray(elem), ExprTrees(vs), ExprTrees(ExpandExprs(vs)));
    case _ =>
      NoneBecome();
      NodeBecomes(ExprTree(e).kind, [], []);
  }

  lemma {:induction false} ExprsExpanded(es: seq<Expr>)
    ensures Becomes(ExprTrees(es), ExprTrees(ExpandExprs(es)))
    decreases es, 0
  {
    hide Becomes, Shaped, Expanded;
    if es == [] {
      NoneBecome();
    } else {
      ExprExpanded(es[0]);
      ExprsExpanded(es[1..]);
      MoreBecome(ExprTree(es[0]), ExprTrees(es[1..]), ExprTrees(ExpandExprs(es[1..])));
      assert ExpandExprs(es)[1..] == ExpandExprs(es[1..]);
    }
  }

  lemma AssignBecomes(t: Tree, s: Tree)
    requires Shaped(t) && Shaped(s)
    ensures Shaped(Tree(KAssign, [t, s])) && Expanded(Tree(KAssign, [t, s])) == Tree(KAssign, [t, Expanded(s)])
  {
    var a := Tree(KAssign, [t, s]);
    assert Shaped(a);
    ExpandedIs(a);
    ExpandedAt([t, s], 1, 0);
    ExpandedAt([t, s], 1, 1);
  }

  lemma IndexBecomes(t: Tree, s: Tree)
    requires Shaped(t) && Shaped(s)
    ensures Shaped(Tree(KIndex, [t, s]))
    ensures Expanded(Tree(KIndex, [t, s])) == Tree(KUnary(Deref), [Tree(KBinary(Add), [Expanded(t), Expanded(s)])])
  {
    var sum := Tree(KBinary(Add), [t, s]);
    TwoBecome(t, s);
    NodeBecomes(KBinary(Add), [t, s], [Expanded(t), Expanded(s)]);
    OneBecomes(sum);
    var a := Tree(KIndex, [t, s]);
    RewrittenShaped(a);
    ExpandedIs(a);
  }

  lemma {:induction false} StmtExpanded(s: Stmt)
    ensures Shaped(StmtTree(s)) && Expanded(StmtTree(s)) == StmtTree(ExpandStmt(s))
    decreases s, 1
  {
    hide Shaped, Expanded, Becomes, ExprTree, ExpandExpr;
    match s
    case ExprStmt(e) => ExprExpanded(e);
    case BlockStmt(b) => BlockExpanded(b);
    case VarDecl(x, ty, init, _) =>
      OptionExpanded(init);
      NodeBecomes(KVarDecl(x, ty), OptionTree(init), OptionTree(ExpandOption(init)));
    case If(cond, thn, els) =>
      ExprExpanded(cond);
      BlockExpanded(thn);
      if els.Some? {
        BlockExpanded(els.value);
        TwoBecome(BlockTree(thn), BlockTree(els.value));
        var both, both' := [BlockTree(thn), BlockTree(els.value)],
            [BlockTree(ExpandBlock(thn)), BlockTree(ExpandBlock(els.value))];
        MoreBecome(ExprTree(cond), both, both');
        assert StmtTree(s).kids == [ExprTree(cond)] + both;
        assert StmtTree(ExpandStmt(s)).kids == [ExprTree(ExpandExpr(cond))] + both';
      } else {
        TwoBecome(ExprTree(cond), BlockTree(thn));
        assert StmtTree(s).kids == [ExprTree(cond), BlockTree(thn)];
        assert StmtTree(ExpandStmt(s)).kids == [ExprTree(ExpandExpr(cond)), BlockTree(ExpandBlock(thn))];
      }
      NodeBecomes(KIf, StmtTree(s).kids, StmtTree(ExpandStmt(s)).kids);
    case While(cond, body) =>
      ExprExpanded(cond);
      BlockExpanded(body);
      TwoBecome(ExprTree(cond), BlockTree(body));
      NodeBecomes(KWhile, [ExprTree(cond), BlockTree(body)],
                  [ExprTree(ExpandExpr(cond)), BlockTree(ExpandBlock(body))]);
    case For(_, _, _, _, _, _, _, _) => ForExpanded(s);
    case Return(e) =>
      OptionExpanded(e);
      NodeBecomes(KReturn, OptionTree(e), OptionTree(ExpandOption(e)));
  }

  lemma OptionExpanded(e: Option<Expr>)
    ensures Becomes(OptionTree(e), OptionTree(ExpandOption(e)))
  {
    hide Becomes, Shaped, Expanded;
    if e.None? {
      NoneBecome();
    } else {
      ExprExpanded(e.value);
      OneBecomes(ExprTree(e.value));
    }
  }

  lemma {:induction false} StmtsExpanded(stmts: seq<Stmt>, more: seq<Tree>, more': seq<Tree>)
    requires Becomes(more, more')
    ensures Becomes(StmtTrees(stmts) + more, StmtTrees(ExpandStmts(stmts)) + more')
    decreases stmts, 0
  {
    hide Becomes, Shaped, Expanded, StmtTree, ExpandStmt;
    if stmts == [] {
      assert [] + more == more && [] + more' == more';
    } else {
      StmtExpanded(stmts[0]);
      StmtsExpanded(stmts[1..], more, more');
      var t, rest, rest' := StmtTree(stmts[0]), StmtTrees(stmts[1..]) + more,
          StmtTrees(ExpandStmts(stmts[1..])) + more';
      MoreBecome(t, rest, rest');
      assert [t] + rest == StmtTrees(stmts) + more;
      assert ExpandStmts(stmts)[1..] == ExpandStmts(stmts[1..]);
      assert [Expanded(t)] + rest' == StmtTrees(ExpandStmts(stmts)) + more';
    }
  }

  lemma {:induction false} BlockExpanded(b: Block)
    ensures Shaped(BlockTree(b)) && Expanded(BlockTree(b)) == BlockTree(ExpandBlock(b))
    decreases b, 0
  {
    hide Becomes, Shaped, Expanded;
    NoneBecome();
    StmtsExpanded(b.stmts, [], []);
    var ts, us := StmtTrees(b.stmts), StmtTrees(ExpandStmts(b.stmts));
    assert ts + [] == ts && us + [] == us;
    NodeBecomes(KBlock, ts, us);
  }

  lemma {:induction false} ForExpanded(s: Stmt)
    requires s.For?
    ensures Shaped(StmtTree(s)) && Expanded(StmtTree(s)) == StmtTree(ExpandStmt(s))
    decreases s, 0
  {
    hide Becomes, Shaped, Expanded, ExprTree, ExpandExpr, StmtTrees, ExpandStmts;
    var start, cond, update := ExprTree(s.start), ExprTree(s.cond), ExprTree(s.update);
    ExprExpanded(s.start);
    ExprExpanded(s.cond);
    ExprExpanded(s.update);
    BlockExpanded(s.body);
    OneBecomes(update);
    StmtsExpanded(s.body.stmts, [update], [Expanded(update)]);
    var ts, us := StmtTrees(s.body.stmts) + [update], StmtTrees(ExpandStmts(s.body.stmts)) + [Expanded(update)];
    NodeBecomes(KBlock, ts, us);
    TwoBecome(cond, Tree(KBlock, ts));
    NodeBecomes(KWhile, [cond, Tree(KBlock, ts)], [Expanded(cond), Tree(KBlock, us)]);
    OneBecomes(start);
    NodeBecomes(KVarDecl(s.ident, s.ty), [start], [Expanded(start)]);
    TwoBecome(Tree(KVarDecl(s.ident, s.ty), [start]), Tree(KWhile, [cond, Tree(KBlock, ts)]));
    TreesOfTwo(ExpandStmt(s).block.stmts[0], ExpandStmt(s).block.stmts[1]);
    TreesOfMore(ExpandStmts(s.body.stmts), ExprStmt(ExpandExpr(s.update)));
    ForBecomes(s.ident, s.ty, start, cond, update, BlockTree(s.body));
  }

  lemma ForBecomes(x: string, ty: Type, a: Tree, c: Tree, u: Tree, b: Tree)
    requires Shaped(a) && Shaped(c) && Shaped(u) && Shaped(b) && b.kind.KBlock?
    requires Shaped(Tree(KVarDecl(x, ty), [a])) && Shaped(Tree(KWhile, [c, Tree(KBlock, b.kids + [u])]))
    ensures var t := Tree(KFor(x, ty), [a, c, u, b]);
            Shaped(t) && Expanded(t) ==
                   Tree(KBlock,
                   [Expanded(Tree(KVarDecl(x, ty), [a])), Expanded(Tree(KWhile, [c, Tree(KBlock, b.kids + [u])]))])
  {
    var t := Tree(KFor(x, ty), [a, c, u, b]);
    assert Shaped(t);
    RewrittenShaped(t);
    ExpandedIs(t);
    hide Shaped, Expanded;
    TwoBecome(Rewritten(t).kids[0], Rewritten(t).kids[1]);
  }

  lemma TreesOfTwo(s: Stmt, t: Stmt)
    ensures StmtTrees([s, t]) == [StmtTree(s), StmtTree(t)]
  {
    assert [s, t][1..] == [t] && [t][1..] == [];
  }

  lemma {:induction false} TreesOfMore(stmts: seq<Stmt>, last: Stmt)
    ensures StmtTrees(stmts + [last]) == StmtTrees(stmts) + [StmtTree(last)]
    decreases |stmts|
  {
    hide StmtTree;
    if stmts == [] {
      assert stmts + [last] == [last] && [last][1..] == [];
    } else {
      TreesOfMore(stmts[1..], last);
      assert (stmts + [last])[1..] == stmts[1..] + [last];
    }
  }

  lemma {:induction false} ProcsExpanded(procs: seq<Proc>)
    ensures Becomes(ProcTrees(procs), ProcTrees(ExpandProcs(procs)))
    decreases |procs|
  {
    hide Becomes, Shaped, Expanded, BlockTree;
    if procs == [] {
      NoneBecome();
    } else {
      var p := procs[0];
      BlockExpanded(p.body);
      OneBecomes(BlockTree(p.body));
      NodeBecomes(KProc(p.name, p.sig), [BlockTree(p.body)], [BlockTree(ExpandBlock(p.body))]);
      ProcsExpanded(procs[1..]);
      MoreBecome(Tree(KProc(p.name, p.sig), [BlockTree(p.body)]), ProcTrees(procs[1..]),
                 ProcTrees(ExpandProcs(procs[1..])));
      assert ExpandProcs(procs)[1..] == ExpandProcs(procs[1..]);
    }
  }

  /** The pass over the linked nodes of a program: they form the desugared program afterwards. */
  method ExpandAst(root: Node, ghost procs: seq<Proc>)
    requires Shows(root, ProgramTree(procs))
    modifies root.repr
    ensures Shows(root, ProgramTree(ExpandProcs(procs))) && fresh(root.repr - old(root.repr))
  {
    ProcsExpanded(procs);
    NodeBecomes(KBlock, ProcTrees(procs), ProcTrees(ExpandProcs(procs)));
    Traverse(root, ProgramTree(procs));
  }
}
