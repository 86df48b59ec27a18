/** The code generator on its own state: the text written so far, the label counter and the table
    of the block it is in. It stops with an error exactly where a tree has no type or fails a kind
    check, and otherwise writes the code the tree stands for. */
module Codegen {
  import opened Types
  import opened Words
  import opened Syntax
  import opened Typing
  import opened Machine
  import opened Emission
  import opened Expand
  import opened Layout
  import opened Scopes
  import opened SymbolTables

  /** Every assignment in the expression passes the kind check. */
  predicate GuardsPass(g: Guard, e: Expr, env: Env)
    decreases e
  {
    match e
    case Grouping(inner) => GuardsPass(g, inner, env)
    case Binary(_, l, r) => GuardsPass(g, l, env) && GuardsPass(g, r, env)
    case Unary(_, node) => GuardsPass(g, node, env)
    case Call(callee, args) => GuardsPass(g, callee, env) && forall x | x in args :: GuardsPass(g, x, env)
    case Assign(target, v) =>
      GuardsPass(g, target, env) && GuardsPass(g, v, env) &&
      (AddrTypeOf(target, env).Some? && TypeOf(v, env).Some? ==>
         GuardAccepts(g, AddrTypeOf(target, env).value, TypeOf(v, env).value))
    case Array(vs, _, _) => forall x | x in vs :: GuardsPass(g, x, env)
    case _ => true
  }

  /** The type of an expression the generator gets through; nothing where it stops. */
  function Accepted(g: Guard, e: Expr, env: Env): Option<Type> {
    if Desugared(e) && GuardsPass(g, e, env) then TypeOf(e, env) else None
  }

  function AcceptedAddr(g: Guard, e: Expr, env: Env): Option<Type> {
    if Desugared(e) && GuardsPass(g, e, env) then AddrTypeOf(e, env) else None
  }

  predicate ArgsAccepted(g: Guard, params: seq<Param>, args: seq<Expr>, env: Env) {
    |args| <= |params| && forall i | 0 <= i < |args| :: HasSize(params[i].ty) && Accepted(g, args[i], env).Some?
  }

  lemma BinaryAccepted(g: Guard, e: Expr, env: Env)
    requires e.Binary?
    ensures var l, r := Accepted(g, e.lhs, env), Accepted(g, e.rhs, env);
            Accepted(g, e, env) == if l.Some? && r.Some? then BinaryType(l.value, r.value) else None
  {
  }

  lemma AcceptedTyped(g: Guard, e: Expr, env: Env)
    ensures Accepted(g, e, env).Some? ==> Ty(e, env) == Accepted(g, e, env).value
  {
  }

  lemma BinaryParts(g: Guard, e: Expr, env: Env)
    requires e.Binary?
    ensures var l, r := Accepted(g, e.lhs, env), Accepted(g, e.rhs, env);
            l.Some? && r.Some? ==>
              ExprCode(e, env) == ExprCode(e.rhs, env) + [Push(RAX)] + ExprCode(e.lhs, env) +
                                  BinaryTail(e.op, l.value, r.value)
  {
    AcceptedTyped(g, e.lhs, env);
    AcceptedTyped(g, e.rhs, env);
  }

  lemma ArrayParts(e: Expr, env: Env)
    requires e.Array?
    ensures ExprCode(e, env) ==
              ElemsCode(e.values, e.elem, e.offset, env) + [Lea(RAX, RBP, Below(e.offset + |e.values| * Size(e.elem)))]
  {
  }

  lemma NoElems(elem: Type, off: nat, env: Env)
    ensures ElemsCode([], elem, off, env) == []
  {
  }

  lemma ElemsStep(vs: seq<Expr>, i: nat, elem: Type, off: nat, env: Env)
    requires i < |vs|
    ensures ElemsCode(vs[i..], elem, off, env) ==
              ExprCode(vs[i], env) + [StoreTo(RBP, Below(off + (|vs| - i) * Size(elem)), Operand(RAX, elem))] +
              ElemsCode(vs[i + 1..], elem, off, env)
  {
    hide ExprCode;
    assert vs[i..][0] == vs[i] && vs[i..][1..] == vs[i + 1..];
  }

  lemma CallAccepted(g: Guard, e: Expr, env: Env)
    requires e.Call?
    ensures var f := Accepted(g, e.callee, env);
            Accepted(g, e, env) ==
              if f.Some? && f.value.Procedure? && ArgsAccepted(g, f.value.sig.params, e.args, env)
              then Some(f.value.sig.ret)
              else None
  {
    var f := Accepted(g, e.callee, env);
    if f.Some? && f.value.Procedure? && ArgsAccepted(g, f.value.sig.params, e.args, env) {
      forall x | x in e.args ensures Accepted(g, x, env).Some? {
        var i :| 0 <= i < |e.args| && e.args[i] == x;
      }
      assert ArgsTyped(f.value.sig.params, e.args, env);
    } else if Accepted(g, e, env).Some? {
      assert ArgsTyped(f.value.sig.params, e.args, env);
    }
  }

  lemma AssignAccepted(g: Guard, e: Expr, env: Env)
    requires e.Assign?
    ensures var target, v := AcceptedAddr(g, e.target, env), Accepted(g, e.rvalue, env);
            Accepted(g, e, env) ==
              (if target.Some? && v.Some? && GuardAccepts(g, target.value, v.value) && HasSize(v.value) then v
               else None) &&
            (v.Some? ==>
               ExprCode(e, env) ==
               AddrCode(e.target, env) + [Push(RAX)] + ExprCode(e.rvalue, env) +
               [Pop(RDI), StoreTo(RDI, 0, Operand(RAX, v.value))])
  {
  }

  lemma UnaryAccepted(g: Guard, e: Expr, env: Env)
    requires e.Unary?
    ensures e.uop.AddrOf? ==>
              Accepted(g, e, env) == AcceptedAddr(g, e.node, env) && ExprCode(e, env) == AddrCode(e.node, env)
    ensures var v := Accepted(g, e.node, env);
            !e.uop.AddrOf? ==>
              Accepted(g, e, env) == (if v.None? || !HasSize(v.value) then None
                                      else if e.uop.Deref? then Pointee(v) else v) &&
              (v.Some? ==> ExprCode(e, env) == ExprCode(e.node, env) + UnaryTail(e.uop, v.value))
  {
    AcceptedTyped(g, e.node, env);
  }

  lemma ArrayAccepted(g: Guard, e: Expr, env: Env)
    requires e.Array?
    ensures Accepted(g, e, env) ==
              if HasSize(e.elem) && forall i | 0 <= i < |e.values| :: Accepted(g, e.values[i], env).Some?
              then Some(Pointer(e.elem))
              else None
  {
  }

  predicate StmtAccepted(g: Guard, s: Stmt, env: Env)
    decreases s
  {
    match s
    case ExprStmt(e) => Accepted(g, e, env).Some?
    case BlockStmt(b) => BlockAccepted(g, b, env)
    case VarDecl(_, ty, init, _) =>
      init.Some? ==> Accepted(g, init.value, env).Some? && SameKind(ty, Ty(init.value, env)) && HasSize(ty)
    case If(cond, thn, els) =>
      Accepted(g, cond, env).Some? && HasSize(Ty(cond, env)) && BlockAccepted(g, thn, env) &&
      (els.Some? ==> BlockAccepted(g, els.value, env))
    case While(cond, body) =>
      BlockAccepted(g, body, env) && Accepted(g, cond, env).Some? && HasSize(Ty(cond, env))
    case For(_, _, _, _, _, _, _, _) => false
    case Return(e) => e.Some? ==> Accepted(g, e.value, env).Some?
  }

  predicate BlockAccepted(g: Guard, b: Block, env: Env)
    decreases b
  {
    forall s | s in b.stmts :: StmtAccepted(g, s, env + Declared(b.stmts))
  }

  lemma ProcPieces(p: Proc, globals: Env, n: nat)
    requires |p.slots| == |p.sig.params|
    ensures ProcCode(p, globals, n) ==
              [GlobalLabel(p.name), Push(RBP), Mov(SubReg(RBP, 8), SubReg(RSP, 8)), SubRsp(p.stackSize)] +
              ParamsCode(p.sig.params, p.slots, 0, 16) + BlockCode(p.body, ProcEnv(p, globals), n) + EPILOGUE
  {
    hide BlockCode, ParamsCode, ProcEnv;
  }

  lemma IfAccepted(g: Guard, s: Stmt, env: Env, n: nat)
    requires s.If?
    ensures StmtAccepted(g, s, env) <==>
            Accepted(g, s.cond, env).Some? && HasSize(Ty(s.cond, env)) && BlockAccepted(g, s.then_, env) &&
            (s.else_.Some? ==> BlockAccepted(g, s.else_.value, env))
    ensures Labels(s) == 1 + BlockLabels(s.then_) + if s.else_.Some? then BlockLabels(s.else_.value) else 0
    ensures StmtCode(s, env, n) ==
            (ExprCode(s.cond, env) + [CmpZero(Operand(RAX, Ty(s.cond, env))), JumpIf(E, ElseLabel(n))]) +
            BlockCode(s.then_, env, n + 1) + [Jmp(EndLabel(n)), LocalLabel(ElseLabel(n))] +
            (if s.else_.Some? then BlockCode(s.else_.value, env, n + 1 + BlockLabels(s.then_)) else []) +
            [LocalLabel(EndLabel(n))]
  {
    hide Accepted, BlockAccepted, BlockCode, ExprCode;
  }

  predicate ProcAccepted(g: Guard, p: Proc, globals: Env)
    requires |p.slots| == |p.sig.params|
  {
    (forall q | q in p.sig.params :: HasSize(q.ty)) && BlockAccepted(g, p.body, ProcEnv(p, globals))
  }

  class Codegen {
    const guard: Guard
    const symbols: Symboltable
    var text: Code
    var labelCount: nat
    var scope: nat

    ghost predicate Valid()
      reads this`scope, symbols, symbols.repr
    {
      this !in symbols.repr && symbols.Valid() && WellFounded(symbols.scopes) && scope < |symbols.scopes|
    }

    /** The names visible from the current block. */
    ghost function Visible(): Env
      requires Valid()
      reads this`scope, symbols, symbols.repr
    {
      EnvAt(symbols.scopes, scope)
    }

    constructor (guard: Guard, symbols: Symboltable, scope: nat)
      requires symbols.Valid() && WellFounded(symbols.scopes) && scope < |symbols.scopes|
      ensures Valid() && this.guard == guard && this.symbols == symbols && this.scope == scope
      ensures text == [] && labelCount == 0
    {
      this.guard, this.symbols, this.scope := guard, symbols, scope;
      text, labelCount := [], 0;
    }

    method Write(i: Instr)
      modifies this`text
      ensures text == old(text) + [i]
    {
      text := text + [i];
    }

    method EmitIdent(x: string, addr: bool) returns (t: Option<Type>)
      requires Valid()
      modifies this`text
      ensures t == if addr then AddrTypeOf(Ident(x), Visible()) else TypeOf(Ident(x), Visible())
      ensures t.Some? ==>
                text == old(text) + if addr then AddrCode(Ident(x), Visible()) else ExprCode(Ident(x), Visible())
    {
      var sym := symbols.Lookup(scope, x);
      FindIsEnvAt(symbols.scopes, scope, x);
      t := None;
      if sym.Some? {
        match sym.value
        case Routine(sig) =>
          Write(MovProc(x));
          t := Some(Procedure(sig));
        case _ =>
          if addr {
            Write(Lea(RAX, RBP, Below(sym.value.offset)));
            t := Some(Pointer(sym.value.ty));
          } else if HasSize(sym.value.ty) {
            Write(LoadFrom(Operand(RAX, sym.value.ty), RBP, Below(sym.value.offset)));
            t := Some(sym.value.ty);
          }
      }
    }

    method EmitAddr(e: Expr) returns (t: Option<Type>)
      requires Valid()
      modifies this`text
      ensures t == AcceptedAddr(guard, e, Visible())
      ensures t.Some? ==> text == old(text) + AddrCode(e, Visible())
      decreases e, 0
    {
      t := None;
      match e
      case Ident(x) => t := EmitIdent(x, true);
      case Unary(Deref, node) => t := Emit(node);
      case _ =>
    }

    method Emit(e: Expr) returns (t: Option<Type>)
      requires Valid()
      modifies this`text
      ensures t == Accepted(guard, e, Visible())
      ensures t.Some? ==> text == old(text) + ExprCode(e, Visible())
      decreases e, 1
    {
      t := None;
      match e
      case Num(k, n) =>
        Write(MovImm(Operand(RAX, LiteralType(k)), Printed(n)));
        t := Some(LiteralType(k));
      case Ident(x) => t := EmitIdent(x, false);
      case Grouping(inner) => t := Emit(inner);
      case Binary(_, _, _) => t := EmitBinary(e);
      case Unary(_, _) => t := EmitUnary(e);
      case Call(_, _) => t := EmitCall(e);
      case Assign(_, _) => t := EmitAssign(e);
      case Array(_, _, _) => t := EmitArray(e);
      case _ =>
    }

    method EmitBinary(e: Expr) returns (t: Option<Type>)
      requires Valid() && e.Binary?
      modifies this`text
      ensures t == Accepted(guard, e, Visible())
      ensures t.Some? ==> text == old(text) + ExprCode(e, Visible())
      decreases e, 0
    {
      hide Accepted, ExprCode, OpCode, EnvAt, Symboltable.Valid;
      BinaryAccepted(guard, e, Visible());
      BinaryParts(guard, e, Visible());
      t := None;
      var rhs := Emit(e.rhs);
      if rhs.None? || !HasSize(rhs.value) {
        return;
      }
      Write(Push(RAX));
      var lhs := Emit(e.lhs);
      if lhs.None? || !HasSize(lhs.value) {
        return;
      }
      Write(Pop(RDI));
      ghost var code := ExprCode(e.rhs, Visible()) + [Push(RAX)] + ExprCode(e.lhs, Visible());
      assert text == old(text) + code + [Pop(RDI)];
      var l, r := lhs.value, rhs.value;
      if l.Pointer? && !r.Pointer? {
        if !HasSize(l.pointee) {
          return;
        }
        Write(ImulImm(Operand(RDI, r), Size(l.pointee)));
      } else if !l.Pointer? && r.Pointer? {
        if !HasSize(r.pointee) {
          return;
        }
        Write(ImulImm(Operand(RAX, l), Size(r.pointee)));
      } else if !SameKind(l, r) {
        return;
      }
      assert text == old(text) + code + ([Pop(RDI)] + ScaleCode(l, r));
      EmitOperation(e.op, Operand(RAX, l), Operand(RDI, r));
      t := Some(if r.Pointer? then r else l);
    }

    method EmitOperation(op: BinOp, rax: SubReg, rdi: SubReg)
      modifies this`text
      ensures text == old(text) + OpCode(op, rax, rdi)
    {
      var al := SubReg(RAX, 1);
      match op
      case Add => Write(Alu(AddOp, rax, rdi));
      case Sub => Write(Alu(SubOp, rax, rdi));
      case Mul => Write(ImulOne(rdi));
      case Div => Write(Idiv(rdi));
      case Eq => Write(Cmp(rax, rdi)); Write(SetCC(E, al));
      case Neq => Write(Cmp(rax, rdi)); Write(SetCC(NE, al));
      case Gt => Write(Cmp(rax, rdi)); Write(SetCC(G, al));
      case GtEq => Write(Cmp(rax, rdi)); Write(SetCC(GE, al));
      case Lt => Write(Cmp(rax, rdi)); Write(SetCC(L, al));
      case LtEq => Write(Cmp(rax, rdi)); Write(SetCC(LE, al));
      case BitwiseOr => Write(Alu(OrOp, rax, rdi));
      case BitwiseAnd => Write(Alu(AndOp, rax, rdi));
      case LogOr => Write(Alu(OrOp, rax, rdi)); Write(CmpZero(rax)); Write(SetCC(NE, al));
      case LogAnd => Write(Alu(AndOp, rax, rdi)); Write(CmpZero(rax)); Write(SetCC(NE, al));
    }

    method EmitUnary(e: Expr) returns (t: Option<Type>)
      requires Valid() && e.Unary?
      modifies this`text
      ensures t == Accepted(guard, e, Visible())
      ensures t.Some? ==> text == old(text) + ExprCode(e, Visible())
      decreases e, 0
    {
      hide Accepted, AcceptedAddr, ExprCode, AddrCode, EnvAt, Symboltable.Valid;
      UnaryAccepted(guard, e, Visible());
      t := None;
      if e.uop.AddrOf? {
        t := EmitAddr(e.node);
        return;
      }
      var ty := Emit(e.node);
      if ty.None? || !HasSize(ty.value) {
        return;
      }
      var rax := Operand(RAX, ty.value);
      match e.uop
      case Not =>
        Write(CmpZero(rax));
        Write(SetCC(E, rax));
        t := ty;
      case Minus =>
        Write(ImulImm(rax, -1));
        t := ty;
      case Deref =>
        Write(LoadFrom(rax, RAX, 0));
        t := Pointee(ty);
      case AddrOf =>
    }

    method EmitCall(e: Expr) returns (t: Option<Type>)
      requires Valid() && e.Call?
      modifies this`text
      ensures t == Accepted(guard, e, Visible())
      ensures t.Some? ==> text == old(text) + ExprCode(e, Visible())
      decreases e, 0
    {
      hide Accepted, ArgsAccepted, ArgsCode, EnvAt;
      AcceptedTyped(guard, e.callee, Visible());
      CallAccepted(guard, e, Visible());
      t := None;
      var ty := Emit(e.callee);
      if ty.None? || !ty.value.Procedure? {
        return;
      }
      Write(Push(RAX));
      var ok := EmitArgs(ty.value.sig.params, e.args);
      if !ok {
        return;
      }
      Write(Pop(RAX));
      Write(CallReg(RAX));
      t := Some(ty.value.sig.ret);
    }

    method EmitArgs(params: seq<Param>, args: seq<Expr>) returns (ok: bool)
      requires Valid()
      modifies this`text
      ensures ok == ArgsAccepted(guard, params, args, Visible())
      ensures ok ==> text == old(text) + ArgsCode(params, args, 0, Visible())
      decreases args
    {
      hide Accepted, ExprCode, PassCode, EnvAt, Symboltable.Valid;
      ghost var env := Visible();
      ok := false;
      if |args| > |params| {
        return;
      }
      assert args[0..] == args;
      for i := 0 to |args|
        invariant forall j | 0 <= j < i :: HasSize(params[j].ty) && Accepted(guard, args[j], env).Some?
        invariant old(text) + ArgsCode(params, args, 0, env) == text + ArgsCode(params, args[i..], i, env)
      {
        if !HasSize(params[i].ty) {
          return;
        }
        assert args[i..][0] == args[i] && args[i..][1..] == args[i + 1..];
        var t := Emit(args[i]);
        if t.None? {
          return;
        }
        PassArg(i, params[i].ty);
      }
      ok := true;
    }

    /** Puts the value in rax where argument number i goes. */
    method PassArg(i: nat, t: Type)
      modifies this`text
      ensures text == old(text) + PassCode(i, t)
    {
      if i < 6 {
        Write(Mov(Operand(ARG_REGS[i], t), Operand(RAX, t)));
      } else {
        Write(Push(RAX));
      }
    }

    method EmitAssign(e: Expr) returns (t: Option<Type>)
      requires Valid() && e.Assign?
      modifies this`text
      ensures t == Accepted(guard, e, Visible())
      ensures t.Some? ==> text == old(text) + ExprCode(e, Visible())
      decreases e, 0
    {
      hide ExprCode, AddrCode, EnvAt, Symboltable.Valid, TypeOf, AddrTypeOf, GuardsPass, Desugared;
      AssignAccepted(guard, e, Visible());
      t := None;
      var target := EmitAddr(e.target);
      if target.None? {
        return;
      }
      Write(Push(RAX));
      var ty := Emit(e.rvalue);
      if ty.None? || !GuardAccepts(guard, target.value, ty.value) || !HasSize(ty.value) {
        return;
      }
      Write(Pop(RDI));
      Write(StoreTo(RDI, 0, Operand(RAX, ty.value)));
      t := ty;
    }

    method EmitArray(e: Expr) returns (t: Option<Type>)
      requires Valid() && e.Array?
      modifies this`text
      ensures t == Accepted(guard, e, Visible())
      ensures t.Some? ==> text == old(text) + ExprCode(e, Visible())
      decreases e, 0
    {
      hide Accepted, ExprCode, EnvAt, Symboltable.Valid, ElemsCode;
      ghost var env := Visible();
      NoElems(e.elem, e.offset, env);
      ArrayAccepted(guard, e, env);
      ArrayParts(e, env);
      t := None;
      if !HasSize(e.elem) {
        return;
      }
      var vs, size := e.values, Size(e.elem);
      assert vs[0..] == vs;
      for i := 0 to |vs|
        invariant forall j | 0 <= j < i :: Accepted(guard, vs[j], env).Some?
        invariant old(text) + ElemsCode(vs, e.elem, e.offset, env) == text + ElemsCode(vs[i..], e.elem, e.offset, env)
      {
        ElemsStep(vs, i, e.elem, e.offset, env);
        var ty := Emit(vs[i]);
        if ty.None? {
          return;
        }
        Write(StoreTo(RBP, Below(e.offset + (|vs| - i) * size), Operand(RAX, e.elem)));
      }
      assert vs[|vs|..] == [];
      assert text == old(text) + ElemsCode(vs, e.elem, e.offset, env);
      Write(Lea(RAX, RBP, Below(e.offset + |vs| * size)));
      t := Some(Pointer(e.elem));
    }

    method EmitStmt(s: Stmt, ghost env: Env) returns (ok: bool)
      requires Valid() && Visible() == env && ScopedStmt(s, symbols.scopes, env)
      modifies this
      ensures scope == old(scope) && ok == StmtAccepted(guard, s, env)
      ensures ok ==> text == old(text) + StmtCode(s, env, old(labelCount)) && labelCount == old(labelCount) + Labels(s)
      decreases s
    {
      ok := false;
      match s
      case ExprStmt(e) =>
        var t := Emit(e);
        ok := t.Some?;
      case BlockStmt(b) => ok := EmitBlock(b, env);
      case VarDecl(_, ty, init, off) =>
        ok := true;
        if init.Some? {
          var t := Emit(init.value);
          ok := t.Some? && SameKind(ty, t.value) && HasSize(t.value);
          if ok {
            Write(StoreTo(RBP, Below(off), Operand(RAX, t.value)));
          }
        }
      case If(_, _, _) => ok := EmitIf(s, env);
      case While(_, _) => ok := EmitWhile(s, env);
      case For(_, _, _, _, _, _, _, _) =>
      case Return(e) =>
        ok := true;
        if e.Some? {
          var t := Emit(e.value);
          ok := t.Some?;
        }
        if ok {
          Write(Jmp(ReturnLabel));
        }
    }

    method EmitIf(s: Stmt, ghost env: Env) returns (ok: bool)
      requires s.If? && Valid() && Visible() == env && ScopedStmt(s, symbols.scopes, env)
      modifies this
      ensures scope == old(scope) && ok == StmtAccepted(guard, s, env)
      ensures ok ==> text == old(text) + StmtCode(s, env, old(labelCount)) && labelCount == old(labelCount) + Labels(s)
      decreases s, 0
    {
      hide Accepted, ExprCode, BlockCode, BlockAccepted, EnvAt, ScopedBlock, Symboltable.Valid, StmtAccepted, StmtCode,
        Labels;
      ok := false;
      var n := labelCount;
      labelCount := labelCount + 1;
      IfAccepted(guard, s, env, n);
      AcceptedTyped(guard, s.cond, env);
      var t := Emit(s.cond);
      if t.None? || !HasSize(t.value) {
        return;
      }
      Write(CmpZero(Operand(RAX, t.value)));
      Write(JumpIf(E, ElseLabel(n)));
      ghost var code := ExprCode(s.cond, env) + [CmpZero(Operand(RAX, t.value)), JumpIf(E, ElseLabel(n))];
      assert text == old(text) + code;
      ok := EmitBlock(s.then_, env);
      if !ok {
        return;
      }
      Write(Jmp(EndLabel(n)));
      Write(LocalLabel(ElseLabel(n)));
      code := code + BlockCode(s.then_, env, n + 1) + [Jmp(EndLabel(n)), LocalLabel(ElseLabel(n))];
      assert text == old(text) + code;
      if s.else_.Some? {
        ok := EmitBlock(s.else_.value, env);
        if !ok {
          return;
        }
        code := code + BlockCode(s.else_.value, env, n + 1 + BlockLabels(s.then_));
      }
      assert text == old(text) + code;
      Write(LocalLabel(EndLabel(n)));
    }

    method EmitWhile(s: Stmt, ghost env: Env) returns (ok: bool)
      requires s.While? && Valid() && Visible() == env && ScopedStmt(s, symbols.scopes, env)
      modifies this
      ensures scope == old(scope) && ok == StmtAccepted(guard, s, env)
      ensures ok ==> text == old(text) + StmtCode(s, env, old(labelCount)) && labelCount == old(labelCount) + Labels(s)
      decreases s, 0
    {
      hide Accepted, ExprCode, BlockCode, BlockAccepted, EnvAt, ScopedBlock, Symboltable.Valid;
      ok := false;
      var n := labelCount;
      labelCount := labelCount + 1;
      Write(Jmp(CondLabel(n)));
      Write(LocalLabel(WhileLabel(n)));
      ok := EmitBlock(s.body, env);
      if !ok {
        return;
      }
      Write(LocalLabel(CondLabel(n)));
      ghost var code := [Jmp(CondLabel(n)), LocalLabel(WhileLabel(n))] + BlockCode(s.body, env, n + 1) +
                        [LocalLabel(CondLabel(n))];
      assert text == old(text) + code;
      AcceptedTyped(guard, s.cond, env);
      var t := Emit(s.cond);
      ok := t.Some? && HasSize(t.value);
      if ok {
        Write(CmpZero(Operand(RAX, t.value)));
        Write(JumpIf(NE, WhileLabel(n)));
        code := code + ExprCode(s.cond, env) + [CmpZero(Operand(RAX, t.value)), JumpIf(NE, WhileLabel(n))];
        assert text == old(text) + code;
      }
    }

    /** Enters the table of the block and comes back to the one it was in. */
    method EmitBlock(b: Block, ghost env: Env) returns (ok: bool)
      requires Valid() && ScopedBlock(b, symbols.scopes, env)
      modifies this
      ensures scope == old(scope) && ok == BlockAccepted(guard, b, env)
      ensures ok ==>
                text == old(text) + BlockCode(b, env, old(labelCount)) &&
                labelCount == old(labelCount) + BlockLabels(b)
      decreases b
    {
      hide StmtAccepted, StmtCode, EnvAt, ScopedStmt, Labels, Symboltable.Valid;
      ok := false;
      var saved := scope;
      scope := b.table;
      ghost var inner := env + Declared(b.stmts);
      var stmts := b.stmts;
      assert stmts[0..] == stmts;
      for i := 0 to |stmts|
        invariant Valid() && scope == b.table && Visible() == inner
        invariant forall j | 0 <= j < i :: StmtAccepted(guard, stmts[j], inner)
        invariant old(text) + StmtsCode(stmts, inner, old(labelCount)) ==
                  text + StmtsCode(stmts[i..], inner, labelCount)
        invariant old(labelCount) + StmtsLabels(stmts) == labelCount + StmtsLabels(stmts[i..])
      {
        assert stmts[i..][0] == stmts[i] && stmts[i..][1..] == stmts[i + 1..];
        var fine := EmitStmt(stmts[i], inner);
        if !fine {
          scope := saved;
          return;
        }
      }
      scope := saved;
      ok := true;
    }

    /** Moves the parameters to their slots. */
    method EmitParams(params: seq<Param>, slots: seq<nat>) returns (ok: bool)
      requires |params| == |slots|
      modifies this`text
      ensures ok == forall q | q in params :: HasSize(q.ty)
      ensures ok ==> text == old(text) + ParamsCode(params, slots, 0, 16)
    {
      ok := false;
      var offset := 16;
      assert params[0..] == params && slots[0..] == slots;
      for i := 0 to |params|
        invariant forall j | 0 <= j < i :: HasSize(params[j].ty)
        invariant offset >= 0
        invariant old(text) + ParamsCode(params, slots, 0, 16) == text + ParamsCode(params[i..], slots[i..], i, offset)
      {
        var t := params[i].ty;
        assert params[i..][0] == params[i] && params[i..][1..] == params[i + 1..];
        assert slots[i..][0] == slots[i] && slots[i..][1..] == slots[i + 1..];
        if !HasSize(t) {
          return;
        }
        if i < 6 {
          Write(StoreTo(RBP, Below(slots[i]), Operand(ARG_REGS[i], t)));
        } else {
          Write(LoadFrom(Operand(RAX, t), RBP, offset));
          Write(StoreTo(RBP, Below(slots[i]), Operand(RAX, t)));
          offset := offset + 8;
        }
      }
      ok := true;
    }

    method EmitProc(p: Proc, ghost globals: Env) returns (ok: bool)
      requires |p.slots| == |p.sig.params|
      requires Valid() && ScopedBlock(p.body, symbols.scopes, ProcEnv(p, globals))
      modifies this
      ensures scope == old(scope) && ok == ProcAccepted(guard, p, globals)
      ensures ok ==>
                text == old(text) + ProcCode(p, globals, old(labelCount)) &&
                labelCount == old(labelCount) + BlockLabels(p.body)
    {
      hide BlockAccepted, BlockCode, BlockLabels, ParamsCode, ScopedBlock, ProcEnv, ProcCode, EnvAt, Symboltable.Valid;
      ProcPieces(p, globals, labelCount);
      ghost var before, n := text, labelCount;
      Write(GlobalLabel(p.name));
      Write(Push(RBP));
      Write(Mov(SubReg(RBP, 8), SubReg(RSP, 8)));
      Write(SubRsp(p.stackSize));
      ghost var head := [GlobalLabel(p.name), Push(RBP), Mov(SubReg(RBP, 8), SubReg(RSP, 8)), SubRsp(p.stackSize)];
      assert text == before + head;
      ok := EmitParams(p.sig.params, p.slots);
      if !ok {
        return;
      }
      ok := EmitBlock(p.body, ProcEnv(p, globals));
      if !ok {
        return;
      }
      ghost var code := head + ParamsCode(p.sig.params, p.slots, 0, 16) + BlockCode(p.body, ProcEnv(p, globals), n);
      assert text == before + code;
      Write(LocalLabel(ReturnLabel));
      Write(Mov(SubReg(RSP, 8), SubReg(RBP, 8)));
      Write(Pop(RBP));
      Write(Ret);
      assert text == before + (code + EPILOGUE);
    }
  }

  predicate ProgramAccepted(g: Guard, procs: seq<Proc>)
    requires SlotsMatch(procs)
  {
    forall p | p in procs :: ProcAccepted(g, p, GlobalEnv(procs))
  }

  /** The back end: both passes over a desugared program. */
  method Compile(guard: Guard, procs: seq<Proc>) returns (ok: bool, laid: seq<Proc>, text: Code)
    ensures laid == LayProgram(procs).0 && SlotsMatch(laid) && ok == ProgramAccepted(guard, laid)
    ensures ok ==> text == ProgramCode(laid, GlobalEnv(laid), 0)
  {
    hide ProcAccepted, ProcCode, ScopedBlock, BlockLabels, Symboltable.Valid, LayProcs, GlobalEnv;
    var st;
    laid, st := Build(procs);
    ScopesAgree(procs);
    ghost var globals := GlobalEnv(laid);
    ok, text := false, [];
    var gen := new Codegen(guard, st, 0);
    assert laid[0..] == laid;
    for i := 0 to |laid|
      invariant gen.Valid() && gen.symbols == st && gen.guard == guard && st.scopes == LayProgram(procs).1.scopes
      invariant forall j | 0 <= j < i :: ProcAccepted(guard, laid[j], globals)
      invariant ProgramCode(laid, globals, 0) == gen.text + ProgramCode(laid[i..], globals, gen.labelCount)
    {
      assert laid[i..][0] == laid[i] && laid[i..][1..] == laid[i + 1..];
      var fine := gen.EmitProc(laid[i], globals);
      if !fine {
        return;
      }
    }
    ok, text := true, gen.text;
  }

  /** What is proved right also gets through the generator, once it compares what an assignment needs. */
  lemma {:induction false} SupportedExpr(e: Expr, env: Env)
    requires Supported(e, env)
    ensures Accepted(Pointed, e, env).Some?
    decreases e, 1
  {
    match e
    case Grouping(inner) => SupportedExpr(inner, env);
    case Binary(_, l, r) =>
      SupportedExpr(l, env);
      SupportedExpr(r, env);
    case Unary(op, node) =>
      if op.AddrOf? {
        SupportedTarget(node, env);
      } else {
        SupportedExpr(node, env);
      }
    case Call(callee, args) =>
      SupportedExpr(callee, env);
      forall x | x in args ensures Accepted(Pointed, x, env).Some? {
        SupportedExpr(x, env);
      }
    case Assign(target, v) =>
      SupportedTarget(target, env);
      SupportedExpr(v, env);
    case Array(vs, _, _) =>
      forall x | x in vs ensures Accepted(Pointed, x, env).Some? {
        SupportedExpr(x, env);
      }
    case _ =>
  }

  lemma {:induction false} SupportedTarget(e: Expr, env: Env)
    requires SupportedAddr(e, env)
    ensures AcceptedAddr(Pointed, e, env).Some?
    decreases e, 0
  {
    if e.Unary? {
      SupportedExpr(e.node, env);
    }
  }

  lemma {:induction false} SupportedStmtAccepted(s: Stmt, env: Env)
    requires SupportedStmt(s, env)
    ensures StmtAccepted(Pointed, s, env)
    decreases s
  {
    match s
    case ExprStmt(e) => SupportedExpr(e, env);
    case BlockStmt(b) => SupportedBlockAccepted(b, env);
    case VarDecl(_, _, init, _) =>
      if init.Some? {
        SupportedExpr(init.value, env);
      }
    case If(cond, thn, els) =>
      SupportedExpr(cond, env);
      SupportedBlockAccepted(thn, env);
      if els.Some? {
        SupportedBlockAccepted(els.value, env);
      }
    case While(cond, body) =>
      SupportedExpr(cond, env);
      SupportedBlockAccepted(body, env);
    case Return(e) =>
      if e.Some? {
        SupportedExpr(e.value, env);
      }
    case _ =>
  }

  lemma {:induction false} SupportedBlockAccepted(b: Block, env: Env)
    requires SupportedBlock(b, env)
    ensures BlockAccepted(Pointed, b, env)
    decreases b
  {
    forall s | s in b.stmts ensures StmtAccepted(Pointed, s, env + Declared(b.stmts)) {
      SupportedStmtAccepted(s, env + Declared(b.stmts));
    }
  }

  /** The expressions of a statement are in the fragment and its variables have a size; nothing is said
      about kinds. */
  predicate PartsSupported(s: Stmt, env: Env)
    decreases s
  {
    match s
    case ExprStmt(e) => Supported(e, env)
    case BlockStmt(b) => BlockPartsSupported(b, env)
    case VarDecl(_, ty, init, _) => HasSize(ty) && (init.Some? ==> Supported(init.value, env))
    case If(cond, thn, els) =>
      Supported(cond, env) && BlockPartsSupported(thn, env) && (els.Some? ==> BlockPartsSupported(els.value, env))
    case While(cond, body) => Supported(cond, env) && BlockPartsSupported(body, env)
    case For(_, _, _, _, _, _, _, _) => true
    case Return(e) => e.Some? ==> Supported(e.value, env)
  }

  predicate BlockPartsSupported(b: Block, env: Env)
    decreases b
  {
    forall s | s in b.stmts :: PartsSupported(s, env + Declared(b.stmts))
  }

  /** A statement made of expressions of the fragment is in the fragment if and only if the generator
      accepts it: its own checks are exactly the missing ones. */
  lemma {:induction false} AcceptedIsSupported(s: Stmt, env: Env)
    ensures SupportedStmt(s, env) <==> StmtAccepted(Pointed, s, env) && PartsSupported(s, env)
    decreases s
  {
    hide Supported, Accepted, SameKind;
    if SupportedStmt(s, env) {
      SupportedStmtAccepted(s, env);
    }
    match s
    case BlockStmt(b) => AcceptedBlockIsSupported(b, env);
    case If(_, thn, els) =>
      AcceptedBlockIsSupported(thn, env);
      if els.Some? {
        AcceptedBlockIsSupported(els.value, env);
      }
    case While(_, body) => AcceptedBlockIsSupported(body, env);
    case _ =>
  }

  lemma {:induction false} AcceptedBlockIsSupported(b: Block, env: Env)
    ensures SupportedBlock(b, env) <==> BlockAccepted(Pointed, b, env) && BlockPartsSupported(b, env)
    decreases b
  {
    hide SupportedStmt, StmtAccepted, PartsSupported;
    var inner := env + Declared(b.stmts);
    forall s | s in b.stmts
      ensures SupportedStmt(s, inner) <==> StmtAccepted(Pointed, s, inner) && PartsSupported(s, inner)
    {
      AcceptedIsSupported(s, inner);
    }
  }

  lemma SupportedProgram(procs: seq<Proc>)
    requires SlotsMatch(procs) && forall p | p in procs :: SupportedProc(p, GlobalEnv(procs))
    ensures ProgramAccepted(Pointed, procs)
  {
    forall p | p in procs ensures ProcAccepted(Pointed, p, GlobalEnv(procs)) {
      SupportedBlockAccepted(p.body, ProcEnv(p, GlobalEnv(procs)));
    }
  }
}
