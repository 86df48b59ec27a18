/** Labels of the emitted code: each is defined once, every jump has its target in the same
    procedure, and every procedure name has one place. */
module Labels {
  import opened Types
  import opened Words
  import opened Syntax
  import opened Typing
  import opened Machine
  import opened Emission
  import opened Operators
  import opened Control

  /** No procedure label, and only numbered local labels lo..hi, each at most once. */
  ghost predicate Fresh(c: Code, lo: nat, hi: nat) {
    (forall i :: 0 <= i < |c| ==> !c[i].GlobalLabel?) &&
    (forall i :: 0 <= i < |c| && c[i].LocalLabel? ==> c[i].label_ != ReturnLabel && lo <= c[i].label_.n < hi) &&
    (forall i, j :: 0 <= i < |c| && 0 <= j < |c| && c[i].LocalLabel? && c[i] == c[j] ==> i == j)
  }

  lemma FreshConcat(c0: Code, lo: nat, mid: nat, c1: Code, hi: nat)
    requires Fresh(c0, lo, mid) && Fresh(c1, mid, hi) && lo <= mid <= hi
    ensures Fresh(c0 + c1, lo, hi)
  {
  }

  /** The label of a jump. */
  function JumpLabel(i: Instr): Option<Label> {
    if i.Jmp? || i.JumpIf? then Some(i.target) else None
  }

  /** Every jump goes to a label of the same piece of code, or to the return label. */
  ghost predicate Closed(c: Code) {
    forall i :: 0 <= i < |c| && JumpLabel(c[i]).Some? ==>
      JumpLabel(c[i]).value == ReturnLabel || LocalLabel(JumpLabel(c[i]).value) in c
  }

  lemma ClosedConcat(c0: Code, c1: Code)
    requires Closed(c0) && Closed(c1)
    ensures Closed(c0 + c1)
  {
  }

  predicate Plain(c: Code) {
    forall i :: 0 <= i < |c| ==> !c[i].GlobalLabel? && !c[i].LocalLabel? && JumpLabel(c[i]).None?
  }

  lemma PlainConcat(c0: Code, c1: Code)
    requires Plain(c0) && Plain(c1)
    ensures Plain(c0 + c1)
  {
  }

  lemma PlainIsFresh(c: Code, n: nat)
    requires Plain(c)
    ensures Fresh(c, n, n) && Closed(c)
  {
  }

  lemma PlainPieces(c0: Code, c1: Code, c2: Code, c3: Code)
    requires Plain(c0) && Plain(c1) && Plain(c2) && Plain(c3)
    ensures Plain(c0 + c1 + c2 + c3) && Plain(c0 + c1 + c2) && Plain(c0 + c1)
  {
  }

  lemma TailsPlain(op: BinOp, lt: Type, rt: Type, uop: UnaryOp)
    ensures Plain(BinaryTail(op, lt, rt)) && Plain(UnaryTail(uop, lt))
  {
  }

  /** Expressions use no labels and no jumps. */
  lemma {:induction false} ExprPlain(e: Expr, env: Env)
    ensures Plain(ExprCode(e, env))
    decreases e
  {
    hide BinaryTail, UnaryTail, Ty, AddrCode, ArgsCode, ElemsCode;
    var push := [Push(RAX)];
    match e
    case Grouping(inner) => ExprPlain(inner, env);
    case Binary(op, l, r) =>
      ExprPlain(l, env);
      ExprPlain(r, env);
      TailsPlain(op, Ty(l, env), Ty(r, env), Minus);
      PlainPieces(ExprCode(r, env), push, ExprCode(l, env), BinaryTail(op, Ty(l, env), Ty(r, env)));
    case Unary(op, node) =>
      ExprPlain(node, env);
      AddrPlain(node, env);
      TailsPlain(Add, Ty(node, env), Void, op);
      PlainPieces(ExprCode(node, env), UnaryTail(op, Ty(node, env)), push, push);
    case Call(callee, args) =>
      var ps := ParamsOf(Ty(callee, env));
      ExprPlain(callee, env);
      ArgsPlain(ps, args, 0, env);
      PlainPieces(ExprCode(callee, env), push, ArgsCode(ps, args, 0, env), [Pop(RAX), CallReg(RAX)]);
    case Assign(target, v) =>
      AddrPlain(target, env);
      ExprPlain(v, env);
      PlainPieces(AddrCode(target, env), push, ExprCode(v, env), [Pop(RDI), StoreTo(RDI, 0, Operand(RAX, Ty(v, env)))]);
    case Array(vs, elem, off) => ElemsPlain(vs, elem, off, env);
    case _ =>
  }

  lemma {:induction false} AddrPlain(e: Expr, env: Env)
    ensures Plain(AddrCode(e, env))
    decreases e
  {
    match e
    case Unary(Deref, node) => ExprPlain(node, env);
    case _ =>
  }

  lemma {:induction false} ArgsPlain(params: seq<Param>, args: seq<Expr>, i: nat, env: Env)
    ensures Plain(ArgsCode(params, args, i, env))
    decreases args
  {
    if args != [] {
      ExprPlain(args[0], env);
      ArgsPlain(params, args[1..], i + 1, env);
    }
  }

  lemma {:induction false} ElemsPlain(vs: seq<Expr>, elem: Type, off: nat, env: Env)
    ensures Plain(ElemsCode(vs, elem, off, env))
    decreases vs
  {
    if vs != [] {
      ExprPlain(vs[0], env);
      ElemsPlain(vs[1..], elem, off, env);
    }
  }

  lemma {:induction false} StmtLabels(s: Stmt, env: Env, n: nat)
    ensures Fresh(StmtCode(s, env, n), n, n + Labels(s)) && Closed(StmtCode(s, env, n))
    decreases s
  {
    hide Plain, ExprCode, BlockCode;
    match s
    case ExprStmt(e) =>
      ExprPlain(e, env);
      PlainIsFresh(ExprCode(e, env), n);
    case BlockStmt(b) => BlockLabelsFresh(b, env, n);
    case VarDecl(_, ty, init, off) =>
      if init.Some? {
        var store := [StoreTo(RBP, Below(off), Operand(RAX, Ty(init.value, env)))];
        ExprPlain(init.value, env);
        PlainIsFresh(ExprCode(init.value, env), n);
        FreshConcat(ExprCode(init.value, env), n, n, store, n);
        ClosedConcat(ExprCode(init.value, env), store);
      }
    case If(cond, thn, els) => IfLabels(s, env, n);
    case While(cond, body) => WhileLabels(s, env, n);
    case For(_, _, _, _, _, _, _, _) =>
    case Return(e) =>
      if e.Some? {
        ExprPlain(e.value, env);
        PlainIsFresh(ExprCode(e.value, env), n);
        FreshConcat(ExprCode(e.value, env), n, n, [Jmp(ReturnLabel)], n);
        ClosedConcat(ExprCode(e.value, env), [Jmp(ReturnLabel)]);
      }
  }

  lemma {:induction false} BlockLabelsFresh(b: Block, env: Env, n: nat)
    ensures Fresh(BlockCode(b, env, n), n, n + BlockLabels(b)) && Closed(BlockCode(b, env, n))
    decreases b
  {
    StmtsLabelsFresh(b.stmts, env + Declared(b.stmts), n);
  }

  lemma {:induction false} StmtsLabelsFresh(stmts: seq<Stmt>, env: Env, n: nat)
    ensures Fresh(StmtsCode(stmts, env, n), n, n + StmtsLabels(stmts)) && Closed(StmtsCode(stmts, env, n))
    decreases stmts
  {
    hide StmtCode;
    if stmts != [] {
      var k := n + Labels(stmts[0]);
      StmtLabels(stmts[0], env, n);
      StmtsLabelsFresh(stmts[1..], env, k);
      FreshConcat(StmtCode(stmts[0], env, n), n, k, StmtsCode(stmts[1..], env, k), k + StmtsLabels(stmts[1..]));
      ClosedConcat(StmtCode(stmts[0], env, n), StmtsCode(stmts[1..], env, k));
    }
  }

  lemma {:induction false} WhileLabels(s: Stmt, env: Env, n: nat)
    requires s.While?
    ensures Fresh(StmtCode(s, env, n), n, n + Labels(s)) && Closed(StmtCode(s, env, n))
    decreases s, 0
  {
    hide Plain, ExprCode, BlockCode;
    var body, cond := BlockCode(s.body, env, n + 1), ExprCode(s.cond, env);
    var head, mid := [Jmp(CondLabel(n)), LocalLabel(WhileLabel(n))], [LocalLabel(CondLabel(n))];
    var test := [CmpZero(Operand(RAX, Ty(s.cond, env))), JumpIf(NE, WhileLabel(n))];
    var hi := n + 1 + BlockLabels(s.body);
    BlockLabelsFresh(s.body, env, n + 1);
    ExprPlain(s.cond, env);
    PlainIsFresh(cond, hi);
    var c := head + body + mid + cond + test;
    assert c[1] == LocalLabel(WhileLabel(n)) && c[2 + |body|] == LocalLabel(CondLabel(n));
    FreshAround(n, head, body, mid, cond, test, hi, hi);
    ClosedAround(head, body, mid, cond, test);
  }

  /** Two pieces of fresh code between glue whose labels carry the number n. */
  lemma FreshAround(n: nat, c0: Code, x: Code, c1: Code, y: Code, c2: Code, mid: nat, hi: nat)
    requires n < mid <= hi
    requires Fresh(c0 + c1 + c2, n, n + 1) && Fresh(x, n + 1, mid) && Fresh(y, mid, hi)
    ensures Fresh(c0 + x + c1 + y + c2, n, hi)
  {
    var glue, c := c0 + c1 + c2, c0 + x + c1 + y + c2;
    forall i | 0 <= i < |c|
      ensures !c[i].GlobalLabel?
      ensures c[i].LocalLabel? ==> c[i].label_ != ReturnLabel && n <= c[i].label_.n < hi
    {
      var k := Origin(n, c0, x, c1, y, c2, i);
    }
    forall i, j | 0 <= i < |c| && 0 <= j < |c| && c[i].LocalLabel? && c[i] == c[j]
      ensures i == j
    {
      var k := Origin(n, c0, x, c1, y, c2, i);
      var l := Origin(n, c0, x, c1, y, c2, j);
    }
  }

  /** Where an instruction of the whole comes from: 0 for glue, 1 for x, 2 for y, and its place there. */
  lemma Origin(n: nat, c0: Code, x: Code, c1: Code, y: Code, c2: Code, i: nat) returns (r: (nat, nat))
    requires i < |c0 + x + c1 + y + c2|
    ensures var c, glue := c0 + x + c1 + y + c2, c0 + c1 + c2;
            r.0 <= 2 && (r.0 == 0 ==> r.1 < |glue| && glue[r.1] == c[i]) &&
            (r.0 == 1 ==> r.1 < |x| && x[r.1] == c[i]) &&
            (r.0 == 2 ==> r.1 < |y| && y[r.1] == c[i]) &&
            i == if r.0 == 1 then |c0| + r.1 else if r.0 == 2 then |c0 + x + c1| + r.1
                 else if r.1 < |c0| then r.1 else if r.1 < |c0 + c1| then r.1 + |x| else r.1 + |x| + |y|
  {
    if i < |c0| { r := (0, i); }
    else if i < |c0 + x| { r := (1, i - |c0|); }
    else if i < |c0 + x + c1| { r := (0, i - |x|); }
    else if i < |c0 + x + c1 + y| { r := (2, i - |c0 + x + c1|); }
    else { r := (0, i - |x| - |y|); }
  }

  lemma ClosedAround(c0: Code, x: Code, c1: Code, y: Code, c2: Code)
    requires Closed(c0 + c1 + c2) && Closed(x) && Closed(y)
    ensures Closed(c0 + x + c1 + y + c2)
  {
    var glue, c := c0 + c1 + c2, c0 + x + c1 + y + c2;
    forall l | l in glue || l in x || l in y ensures l in c {
    }
    forall i | 0 <= i < |c| && JumpLabel(c[i]).Some?
      ensures JumpLabel(c[i]).value == ReturnLabel || LocalLabel(JumpLabel(c[i]).value) in c
    {
      var k := Origin(0, c0, x, c1, y, c2, i);
    }
  }

  lemma {:induction false} IfLabels(s: Stmt, env: Env, n: nat)
    requires s.If?
    ensures Fresh(StmtCode(s, env, n), n, n + Labels(s)) && Closed(StmtCode(s, env, n))
    decreases s, 0
  {
    hide Plain, ExprCode, BlockCode, Fresh, Closed;
    var en := n + 1 + BlockLabels(s.then_);
    var els := if s.else_.Some? then BlockCode(s.else_.value, env, en) else [];
    ExprPlain(s.cond, env);
    BlockLabelsFresh(s.then_, env, n + 1);
    if s.else_.Some? {
      BlockLabelsFresh(s.else_.value, env, en);
    } else {
      NothingFresh(en);
    }
    IfShape(n, Operand(RAX, Ty(s.cond, env)), ExprCode(s.cond, env), BlockCode(s.then_, env, n + 1), en, els,
            n + Labels(s));
  }

  lemma NothingFresh(n: nat)
    ensures Fresh([], n, n) && Closed([])
  {
  }

  lemma IfShape(n: nat, r: SubReg, cond: Code, thn: Code, en: nat, els: Code, hi: nat)
    requires n < en <= hi && Plain(cond) && Fresh(thn, n + 1, en) && Fresh(els, en, hi) && Closed(thn) && Closed(els)
    ensures var c := cond + [CmpZero(r), JumpIf(E, ElseLabel(n))] + thn + [Jmp(EndLabel(n)), LocalLabel(ElseLabel(n))] +
                     els + [LocalLabel(EndLabel(n))];
            Fresh(c, n, hi) && Closed(c)
  {
    var test, mid, end := [CmpZero(r), JumpIf(E, ElseLabel(n))], [Jmp(EndLabel(n)), LocalLabel(ElseLabel(n))],
        [LocalLabel(EndLabel(n))];
    GlueOk(n, r);
    FreshAround(n, test, thn, mid, els, end, en, hi);
    ClosedAround(test, thn, mid, els, end);
    var rest := test + thn + mid + els + end;
    hide Fresh, Closed;
    PlainIsFresh(cond, n);
    FreshConcat(cond, n, n, rest, hi);
    ClosedConcat(cond, rest);
    assert cond + test + thn + mid + els + end == cond + rest;
  }

  lemma GlueOk(n: nat, r: SubReg)
    ensures var glue := [CmpZero(r), JumpIf(E, ElseLabel(n))] + [Jmp(EndLabel(n)), LocalLabel(ElseLabel(n))] +
            [LocalLabel(EndLabel(n))];
            Fresh(glue, n, n + 1) && Closed(glue)
  {
    var glue := [CmpZero(r), JumpIf(E, ElseLabel(n))] + [Jmp(EndLabel(n)), LocalLabel(ElseLabel(n))] +
        [LocalLabel(EndLabel(n))];
    assert glue[3] == LocalLabel(ElseLabel(n)) && glue[4] == LocalLabel(EndLabel(n));
  }
}
