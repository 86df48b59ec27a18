/** The code of expressions, statements and calls does what their meaning says. */
module Simulation {
  import opened Types
  import opened Memory
  import opened Words
  import opened Syntax
  import opened Typing
  import opened Machine
  import opened Emission
  import opened Semantics
  import opened Operators
  import opened Relation
  import opened Leaves
  import opened Control
  import opened Frames

  ghost predicate Placed(w: World, p: Proc, n: nat) {
    p.name in w.c.link && SupportedProc(p, w.c.globals) &&
    var at, code := w.c.link[p.name], ProcCode(p, w.c.globals, n);
    At(w.code, at, code) && Region(w.code, at, at + |code|)
  }

  /** Every procedure the source can reach is in the code where its name says. */
  ghost predicate Linked(w: World) {
    Resolved(w) && forall p :: p in w.c.procs && p.name in w.c.link ==> exists n :: Placed(w, p, n)
  }

  lemma LinkedResolved(w: World)
    requires Linked(w)
    ensures Resolved(w)
  {
  }

  lemma {:induction false} ExprSim(w: World, fuel: nat, e: Expr, a: Act, sp: int, mem: Mem, s: State)
    returns (n: nat, t: State)
    requires Linked(w) && Supported(e, a.env) && At(w.code, s.pc, ExprCode(e, a.env)) && Ready(w, s, a, sp, mem)
    ensures Yields(w, n, s, t, fuel, Eval(w.c, fuel, e, a, sp, mem), sp, a.acc, s.pc + |ExprCode(e, a.env)|,
                   Size(Ty(e, a.env)), KeepsArgs(e))
    decreases fuel, e, 2
  {
    hide Stays, Agrees, Apart, Overlays, At, Linked, Load, Store, Exec, Step, Run;
    n, t := 0, s;
    match e
    case Num(_, _) => n, t := NumSim(w, fuel, e, a, sp, mem, s);
    case Str(_) =>
    case Ident(x) =>
      LinkedResolved(w);
      if a.env[x].Routine? {
        n, t := RoutineSim(w, fuel, x, a, sp, mem, s);
      } else {
        n, t := IdentSim(w, fuel, e, a, sp, mem, s);
      }
    case Grouping(inner) => n, t := ExprSim(w, fuel, inner, a, sp, mem, s);
    case Binary(_, _, _) => n, t := BinarySim(w, fuel, e, a, sp, mem, s);
    case Unary(op, node) =>
      if op.AddrOf? {
        n, t := AddrSim(w, fuel, node, a, sp, mem, s);
      } else {
        n, t := UnarySim(w, fuel, e, a, sp, mem, s);
      }
    case Call(_, _) => n, t := CallSim(w, fuel, e, a, sp, mem, s);
    case Assign(_, _) => n, t := AssignSim(w, fuel, e, a, sp, mem, s);
    case Array(_, _, _) => n, t := ArraySim(w, fuel, e, a, sp, mem, s);
    case Index(_, _) =>
  }

  lemma BinaryParts(e: Expr, env: Env)
    requires e.Binary? && Supported(e, env)
    ensures OperandsSupported(e, env) && e.op != Div
    ensures TypeOf(e, env) == BinaryType(Ty(e.lhs, env), Ty(e.rhs, env)) && TypeOf(e, env).Some?
  {
  }

  /** An operator between operands of the fragment, of types it can combine and of equal size. */
  predicate OperandsSupported(e: Expr, env: Env) {
    e.Binary? && Supported(e.lhs, env) && Supported(e.rhs, env) &&
    BinaryType(Ty(e.lhs, env), Ty(e.rhs, env)).Some? && Size(Ty(e.lhs, env)) == Size(Ty(e.rhs, env))
  }

  lemma BinaryPieces(e: Expr, env: Env)
    requires e.Binary?
    ensures ExprCode(e, env) == ExprCode(e.rhs, env) + [Push(RAX)] + ExprCode(e.lhs, env) +
                                BinaryTail(e.op, Ty(e.lhs, env), Ty(e.rhs, env))
  {
  }

  /** The machine in front of the operation itself: the left operand is in rax, the right one on top
      of the stack, and seen from below only live objects have changed. */
  ghost predicate OperandsAt(w: World, n: nat, s: State, t: State, e: Expr, a: Act, sp: int, l: nat, r: nat, m2: Mem) {
    e.Binary? &&
    var lt, rt := Ty(e.lhs, a.env), Ty(e.rhs, a.env);
    RoomFor(w.c, sp) && Run(w.code, n, s) == Some(t) && Stays(w, n, s, sp, a.acc) &&
    At(w.code, t.pc, BinaryTail(e.op, lt, rt)) && t.pc + |BinaryTail(e.op, lt, rt)| == s.pc + |ExprCode(e, a.env)| &&
    s.regs.rsp == sp && t.regs.rsp == sp - 8 && t.regs.rbp == s.regs.rbp &&
    t.regs.rax % Modulus(Size(lt)) == l && Load(t.mem, sp - 8, 8) % Modulus(Size(rt)) == r &&
    forall v: State :: v.mem == t.mem && v.regs.rsp == sp && v.regs.rbp == s.regs.rbp ==> Settled(w, s, v, m2, sp)
  }

  /** The right operand is evaluated first and waits on the stack while the left one is. */
  lemma {:induction false} OperandsSim(w: World, fuel: nat, e: Expr, a: Act, sp: int, mem: Mem, s: State)
    returns (n: nat, t: State)
    requires Linked(w) && OperandsSupported(e, a.env) && At(w.code, s.pc, ExprCode(e, a.env)) && Ready(w, s, a, sp, mem)
    ensures var r1 := Eval(w.c, fuel, e.rhs, a, sp, mem);
            (r1.OutOfFuel? ==> n >= fuel && Run(w.code, n, s).Some? && Stays(w, n, s, sp, a.acc)) &&
            (r1.Done? && RoomFor(w.c, sp) ==>
               var r2 := Eval(w.c, fuel, e.lhs, a, sp - 8, r1.mem);
               (r2.OutOfFuel? ==> n >= fuel && Run(w.code, n, s).Some? && Stays(w, n, s, sp, a.acc)) &&
               (r2.Done? ==> OperandsAt(w, n, s, t, e, a, sp, r2.value, r1.value, r2.mem)))
    decreases fuel, e, 0
  {
    hide Stays, Agrees, Apart, Overlays, At, Linked, Load, Store, Exec, Step, Run, ExecAll, Supported, TypeOf, Eval,
      ExprCode, BinaryTail, KeepsArgs, SameArgRegs;
    var cr, cl := ExprCode(e.rhs, a.env), ExprCode(e.lhs, a.env);
    var tail := BinaryTail(e.op, Ty(e.lhs, a.env), Ty(e.rhs, a.env));
    BinaryPieces(e, a.env);
    AtSplit(w.code, s.pc, cr + [Push(RAX)] + cl, tail);
    AtSplit(w.code, s.pc, cr + [Push(RAX)], cl);
    AtSplit(w.code, s.pc, cr, [Push(RAX)]);
    var r1 := Eval(w.c, fuel, e.rhs, a, sp, mem);
    var n1, t1 := ExprSim(w, fuel, e.rhs, a, sp, mem, s);
    n, t := n1, t1;
    if r1.Done? && RoomFor(w.c, sp) {
      StartAbove(w, fuel, a, sp, mem, n1, s, t1, r1, s.pc + |cr|, KeepsArgs(e.rhs));
      var r2 := Eval(w.c, fuel, e.lhs, a, sp - 8, r1.mem);
      var n2, t2 := ExprSim(w, fuel, e.lhs, a, sp - 8, r1.mem, PushedState(t1));
      EndAbove(w, fuel, a, sp, mem, n1, s, t1, r1, s.pc + |cr|, KeepsArgs(e.rhs), n2, t2, r2, s.pc + |cr| + 1 + |cl|);
      n, t := n1 + 1 + n2, t2;
    }
  }

  /** The operation follows; the right operand ends up in rdi, scaled. */
  lemma {:induction false} BinarySim(w: World, fuel: nat, e: Expr, a: Act, sp: int, mem: Mem, s: State)
    returns (n: nat, t: State)
    requires Linked(w) && Supported(e, a.env) && At(w.code, s.pc, ExprCode(e, a.env)) && Ready(w, s, a, sp, mem)
    requires e.Binary? && TypeOf(e, a.env).Some?
    ensures Yields(w, n, s, t, fuel, EvalBinary(w.c, fuel, e, a, sp, mem), sp, a.acc, s.pc + |ExprCode(e, a.env)|,
            Size(Ty(e, a.env)), false)
    ensures EvalBinary(w.c, fuel, e, a, sp, mem).Done? ==>
              t.regs.rdi % Modulus(Size(Ty(e.rhs, a.env))) ==
                Scaled(Ty(e.rhs, a.env), Ty(e.lhs, a.env), Eval(w.c, fuel, e.rhs, a, sp, mem).value)
    decreases fuel, e, 1
  {
    hide Stays, Agrees, Apart, Overlays, At, Linked, Load, Store, Exec, Step, Run, ExecAll, Supported, TypeOf, Eval,
      ExprCode, BinaryTail, BinaryValue, Scaled, KeepsArgs, SameArgRegs, Settled;
    var lt, rt := Ty(e.lhs, a.env), Ty(e.rhs, a.env);
    BinaryParts(e, a.env);
    n, t := OperandsSim(w, fuel, e, a, sp, mem, s);
    var r1 := Eval(w.c, fuel, e.rhs, a, sp, mem);
    if r1.Done? && RoomFor(w.c, sp) {
      var r2 := Eval(w.c, fuel, e.lhs, a, sp - 8, r1.mem);
      if r2.Done? {
        n, t := BinaryEnd(w, e.op, lt, rt, r2.value, r1.value, n, s, t, sp, a.acc, r2.mem);
      }
    }
  }

  /** The operation itself, with both operands evaluated. */
  lemma BinaryEnd(w: World, op: BinOp, lt: Type, rt: Type, l: nat, r: nat, n: nat, s: State, t: State, sp: int,
                  acc: set<int>, m2: Mem)
    returns (n': nat, u: State)
    requires BinaryType(lt, rt).Some? && Size(lt) == Size(rt) && op != Div
    requires At(w.code, t.pc, BinaryTail(op, lt, rt)) && Run(w.code, n, s) == Some(t) && Stays(w, n, s, sp, acc)
    requires RoomFor(w.c, sp) && t.regs.rsp == sp - 8 && s.regs.rsp == sp && t.regs.rbp == s.regs.rbp
    requires t.regs.rax % Modulus(Size(lt)) == l && Load(t.mem, sp - 8, 8) % Modulus(Size(rt)) == r
    requires forall v: State :: v.mem == t.mem && v.regs.rsp == sp && v.regs.rbp == s.regs.rbp ==>
                                  Settled(w, s, v, m2, sp)
    ensures Run(w.code, n', s) == Some(u) && u.pc == t.pc + |BinaryTail(op, lt, rt)| && Stays(w, n', s, sp, acc)
    ensures Settled(w, s, u, m2, sp)
    ensures u.regs.rax % Modulus(Size(BinaryType(lt, rt).value)) == BinaryValue(op, lt, rt, l, r)
    ensures u.regs.rdi % Modulus(Size(rt)) == Scaled(rt, lt, r)
  {
    hide Stays, Settled, At, Load, Exec, Step, Run, ExecAll, BinaryTail, BinaryValue, Scaled, Disciplined;
    var tail := BinaryTail(op, lt, rt);
    BinaryTailCode(op, lt, rt, l, r, t);
    u := ExecAll(tail, t).value;
    TailDisciplined(w, op, lt, rt, t, sp, acc);
    RunDisciplined(w, tail, t, u, sp, acc);
    Follow(w, n, |tail|, s, t, sp, acc);
    n' := n + |tail|;
  }

  lemma OperatorRegisters(op: BinOp, x: SubReg, y: SubReg)
    requires op != Div && x.reg == RAX
    ensures forall k | 0 <= k < |OpCode(op, x, y)| :: OnRegisters(OpCode(op, x, y)[k])
  {
  }

  lemma TailRegisters(op: BinOp, lt: Type, rt: Type)
    requires op != Div
    ensures var c := ScaleCode(lt, rt) + OpCode(op, Operand(RAX, lt), Operand(RDI, rt));
            forall k | 0 <= k < |c| :: OnRegisters(c[k])
  {
    hide OpCode;
    var ops := OpCode(op, Operand(RAX, lt), Operand(RDI, rt));
    OperatorRegisters(op, Operand(RAX, lt), Operand(RDI, rt));
    var scale := ScaleCode(lt, rt);
    assert forall k | 0 <= k < |scale| :: OnRegisters(scale[k]);
  }

  lemma TailDisciplined(w: World, op: BinOp, lt: Type, rt: Type, s: State, hi: int, acc: set<int>)
    requires op != Div && s.regs.rsp + 8 < TWO_64 && w.c.limit <= s.regs.rsp <= hi - 8
    ensures Disciplined(w, BinaryTail(op, lt, rt), s, hi, acc)
  {
    hide Load, Exec, ExecAll, Disciplined;
    var t := PopExec(s);
    var rest := ScaleCode(lt, rt) + OpCode(op, Operand(RAX, lt), Operand(RDI, rt));
    DisciplinedOne(w, Pop(RDI), s, t, hi, acc);
    ExecOne(Pop(RDI), s);
    TailRegisters(op, lt, rt);
    RegistersDisciplined(w, rest, t, hi, acc);
    DisciplinedAppend(w, [Pop(RDI)], rest, s, t, hi, acc);
    assert BinaryTail(op, lt, rt) == [Pop(RDI)] + rest;
  }

  lemma UnaryParts(e: Expr, env: Env)
    requires e.Unary? && !e.uop.AddrOf? && Supported(e, env)
    ensures TypeOf(e, env).Some? && Supported(e.node, env)
    ensures ExprCode(e, env) == ExprCode(e.node, env) + UnaryTail(e.uop, Ty(e.node, env))
    ensures e.uop.Not? ==> Ty(e.node, env).Char? && Ty(e, env).Char?
    ensures e.uop.Minus? ==> Ty(e, env) == Ty(e.node, env) && Size(Ty(e.node, env)) >= 4
    ensures e.uop.Deref? ==> Ty(e.node, env).Pointer? && Ty(e, env) == Ty(e.node, env).pointee && HasSize(Ty(e, env))
  {
  }

  lemma {:induction false} UnarySim(w: World, fuel: nat, e: Expr, a: Act, sp: int, mem: Mem, s: State)
    returns (n: nat, t: State)
    requires Linked(w) && Supported(e, a.env) && At(w.code, s.pc, ExprCode(e, a.env)) && Ready(w, s, a, sp, mem)
    requires e.Unary? && !e.uop.AddrOf? && TypeOf(e, a.env).Some?
    ensures Yields(w, n, s, t, fuel, EvalUnary(w.c, fuel, e, a, sp, mem), sp, a.acc, s.pc + |ExprCode(e, a.env)|,
                   Size(Ty(e, a.env)), KeepsArgs(e))
    decreases fuel, e, 0
  {
    hide Stays, Agrees, Apart, Overlays, At, Linked, Load, Store, Exec, Step, Run, ExecAll, Supported, TypeOf, ReadFrom,
      Eval, ExprCode;
    UnaryParts(e, a.env);
    var c, tail := ExprCode(e.node, a.env), UnaryTail(e.uop, Ty(e.node, a.env));
    AtSplit(w.code, s.pc, c, tail);
    var r1 := Eval(w.c, fuel, e.node, a, sp, mem);
    var n1, t1 := ExprSim(w, fuel, e.node, a, sp, mem, s);
    n, t := n1, t1;
    if r1.Done? {
      StillReady(w, s, t1, a, sp, mem, r1.mem);
      var n2, t2 := UnaryTailSim(w, fuel, e.uop, Ty(e.node, a.env), Ty(e, a.env), r1.value, a, sp, r1.mem, t1);
      Follow(w, n1, n2, s, t1, sp, a.acc);
      n, t := n1 + n2, t2;
      if EvalUnary(w.c, fuel, e, a, sp, mem).Done? {
        SettledTrans(w, s, t1, t2, r1.mem, r1.mem, sp);
      }
    }
  }

  /** The address of an lvalue. */
  lemma {:induction false} AddrSim(w: World, fuel: nat, e: Expr, a: Act, sp: int, mem: Mem, s: State)
    returns (n: nat, t: State)
    requires Linked(w) && SupportedAddr(e, a.env) && At(w.code, s.pc, AddrCode(e, a.env)) && Ready(w, s, a, sp, mem)
    ensures Yields(w, n, s, t, fuel, EvalAddr(w.c, fuel, e, a, sp, mem), sp, a.acc, s.pc + |AddrCode(e, a.env)|,
                   Size(AddrTypeOf(e, a.env).value), KeepsArgs(e))
    decreases fuel, e, 0
  {
    hide Stays, Agrees, Apart, Overlays, At, Linked, Load, Store, Exec, Step, Run;
    n, t := 0, s;
    match e
    case Ident(x) =>
      LinkedResolved(w);
      if a.env[x].Routine? {
        n, t := RoutineSim(w, fuel, x, a, sp, mem, s);
      } else {
        n, t := SlotAddrSim(w, fuel, a.env[x].offset, a, sp, mem, s);
      }
    case Unary(Deref, node) => n, t := ExprSim(w, fuel, node, a, sp, mem, s);
    case _ =>
  }

  lemma AssignParts(e: Expr, env: Env)
    requires e.Assign? && Supported(e, env)
    ensures TypeOf(e, env).Some? && Ty(e, env) == Ty(e.rvalue, env) && HasSize(Ty(e, env))
    ensures SupportedAddr(e.target, env) && Supported(e.rvalue, env)
    ensures Size(AddrTypeOf(e.target, env).value) == 8
    ensures ExprCode(e, env) == AddrCode(e.target, env) + [Push(RAX)] + ExprCode(e.rvalue, env) +
                                [Pop(RDI), StoreTo(RDI, 0, Operand(RAX, Ty(e.rvalue, env)))]
  {
  }

  lemma PopExec(s: State) returns (t: State)
    requires s.regs.rsp + 8 < TWO_64
    ensures Exec(Pop(RDI), s) == Some(t) && t.mem == s.mem && t.pc == s.pc + 1
    ensures t.regs == s.regs.(rsp := s.regs.rsp + 8, rdi := t.regs.rdi) && t.regs.rdi == Load(s.mem, s.regs.rsp, 8)
    ensures Address(t.regs, RDI, 0) == t.regs.rdi
  {
    hide Load;
    PopRuns(s);
    t := Exec(Pop(RDI), s).value;
    UniqueMod(t.regs.rdi, TWO_64, 0, t.regs.rdi);
  }

  /** Takes the address off the stack and stores the value there. */
  lemma AssignTail(w: World, s: State, t: State, a: Act, sp: int, mem: Mem, m2: Mem, ty: Type, at: nat, v: nat)
    returns (u: State)
    requires Ready(w, s, a, sp, mem) && mem.Keys <= m2.Keys <= a.acc && HasSize(ty) && Writable(a.acc, at, Size(ty))
    requires RoomFor(w.c, sp)
    requires At(w.code, t.pc, [Pop(RDI), StoreTo(RDI, 0, Operand(RAX, ty))])
    requires t.regs.rsp == sp - 8 && t.regs.rbp == s.regs.rbp && Load(t.mem, sp - 8, 8) == at &&
             t.regs.rax % Modulus(Size(ty)) == v
    requires forall x: State :: x.mem == t.mem && x.regs.rsp == sp && x.regs.rbp == s.regs.rbp ==>
             Settled(w, s, x, m2, sp)
    ensures Run(w.code, 2, t) == Some(u) && u.pc == t.pc + 2 && u.regs.rax == t.regs.rax && u.regs.rdi == at &&
            Stays(w, 2, t, sp, a.acc)
    ensures Settled(w, s, u, Store(m2, at, Size(ty), v), sp)
  {
    hide Load, Store, Exec, Step, Run, Overlays, Agrees, Apart, At, Stays;
    var t1 := PopExec(t);
    assert Settled(w, s, t1, m2, sp);
    u := StoreRuns(w, s, t1, a, sp, mem, m2, StoreTo(RDI, 0, Operand(RAX, ty)), at, Size(ty), v);
    StoreInStack(w, t1, u, sp, a.acc, at, Size(ty), v);
    RunTwo(w, t, Pop(RDI), StoreTo(RDI, 0, Operand(RAX, ty)), t1, u, sp, a.acc);
  }

  /** The target's address is computed first and waits on the stack; it ends up in rdi. */
  lemma {:induction false} AssignSim(w: World, fuel: nat, e: Expr, a: Act, sp: int, mem: Mem, s: State)
    returns (n: nat, t: State)
    requires Linked(w) && Supported(e, a.env) && At(w.code, s.pc, ExprCode(e, a.env)) && Ready(w, s, a, sp, mem)
    requires e.Assign? && TypeOf(e, a.env).Some?
    ensures Yields(w, n, s, t, fuel, EvalAssign(w.c, fuel, e, a, sp, mem), sp, a.acc, s.pc + |ExprCode(e, a.env)|,
            Size(Ty(e, a.env)), false)
    ensures EvalAssign(w.c, fuel, e, a, sp, mem).Done? ==> t.regs.rdi == EvalAddr(w.c, fuel, e.target, a, sp, mem).value
    decreases fuel, e, 0
  {
    hide Stays, Agrees, Apart, Overlays, At, Linked, Load, Store, Exec, Step, Run, ExecAll, Supported, TypeOf,
      SupportedAddr, AddrTypeOf, AddrCode, Eval, ExprCode, EvalAddr;
    var ty := Ty(e.rvalue, a.env);
    var ca, cv := AddrCode(e.target, a.env), ExprCode(e.rvalue, a.env);
    var pop, store := Pop(RDI), StoreTo(RDI, 0, Operand(RAX, ty));
    AssignParts(e, a.env);
    AtSplit(w.code, s.pc, ca + [Push(RAX)] + cv, [pop, store]);
    AtSplit(w.code, s.pc, ca + [Push(RAX)], cv);
    AtSplit(w.code, s.pc, ca, [Push(RAX)]);
    var r1 := EvalAddr(w.c, fuel, e.target, a, sp, mem);
    var n1, t1 := AddrSim(w, fuel, e.target, a, sp, mem, s);
    n, t := n1, t1;
    if r1.Done? && RoomFor(w.c, sp) {
      StartAbove(w, fuel, a, sp, mem, n1, s, t1, r1, s.pc + |ca|, KeepsArgs(e.target));
      var r2 := Eval(w.c, fuel, e.rvalue, a, sp - 8, r1.mem);
      var n2, t2 := ExprSim(w, fuel, e.rvalue, a, sp - 8, r1.mem, PushedState(t1));
      EndAbove(w, fuel, a, sp, mem, n1, s, t1, r1, s.pc + |ca|, KeepsArgs(e.target), n2, t2, r2,
               s.pc + |ca| + 1 + |cv|);
      n, t := n1 + 1 + n2, t2;
      if r2.Done? && Writable(a.acc, r1.value, Size(ty)) {
        UniqueMod(t1.regs.rax, TWO_64, 0, t1.regs.rax);
        t := AssignTail(w, s, t2, a, sp, mem, r2.mem, ty, r1.value, r2.value);
        Follow(w, n, 2, s, t2, sp, a.acc);
        n := n + 2;
      }
    }
  }

  lemma ArrayParts(e: Expr, env: Env)
    requires e.Array? && Supported(e, env)
    ensures TypeOf(e, env) == Some(Pointer(e.elem)) && HasSize(e.elem)
    ensures forall v | v in e.values :: Supported(v, env) && SameKind(Ty(v, env), e.elem)
    ensures ExprCode(e, env) == ElemsCode(e.values, e.elem, e.offset, env) +
                                [Lea(RAX, RBP, Below(e.offset + |e.values| * Size(e.elem)))]
  {
  }

  lemma {:induction false} ArraySim(w: World, fuel: nat, e: Expr, a: Act, sp: int, mem: Mem, s: State)
    returns (n: nat, t: State)
    requires Linked(w) && Supported(e, a.env) && At(w.code, s.pc, ExprCode(e, a.env)) && Ready(w, s, a, sp, mem)
    requires e.Array? && TypeOf(e, a.env).Some?
    ensures Yields(w, n, s, t, fuel, EvalArray(w.c, fuel, e, a, sp, mem), sp, a.acc, s.pc + |ExprCode(e, a.env)|,
                   Size(Ty(e, a.env)), KeepsArgs(e))
    decreases fuel, e, 0
  {
    hide Stays, Agrees, Apart, Overlays, At, Linked, Load, Store, Exec, Step, Run, Supported, TypeOf, Eval, ExprCode,
      EvalElems, ElemsCode;
    ArrayParts(e, a.env);
    var off := e.offset + |e.values| * Size(e.elem);
    var c := ElemsCode(e.values, e.elem, e.offset, a.env);
    AtSplit(w.code, s.pc, c, [Lea(RAX, RBP, Below(off))]);
    var r1 := EvalElems(w.c, fuel, e.values, e.elem, a.base - off, a, sp, mem);
    var n1, t1 := ElemsSim(w, fuel, e.values, e.elem, e.offset, a, sp, mem, s);
    n, t := n1, t1;
    if r1.Done? {
      StillReady(w, s, t1, a, sp, mem, r1.mem);
      var n2, t2 := SlotAddrSim(w, fuel, off, a, sp, r1.mem, t1);
      Follow(w, n1, n2, s, t1, sp, a.acc);
      n, t := n1 + n2, t2;
      SettledTrans(w, s, t1, t2, r1.mem, r1.mem, sp);
    }
  }

  /** The elements of an array literal, the first one at the lowest address. */
  lemma {:induction false} ElemsSim(w: World, fuel: nat, vs: seq<Expr>, elem: Type, off: nat, a: Act, sp: int, mem: Mem,
                                    s: State)
    returns (n: nat, t: State)
    requires Linked(w) && At(w.code, s.pc, ElemsCode(vs, elem, off, a.env)) && Ready(w, s, a, sp, mem)
    requires HasSize(elem) && forall v | v in vs :: Supported(v, a.env) && SameKind(Ty(v, a.env), elem)
    ensures Goes(w, n, s, t, fuel, EvalElems(w.c, fuel, vs, elem, a.base - (off + |vs| * Size(elem)), a, sp, mem), sp,
                 a.acc, s.pc + |ElemsCode(vs, elem, off, a.env)|, forall v | v in vs :: KeepsArgs(v))
    decreases fuel, vs, 0
  {
    hide Stays, Agrees, Apart, Overlays, At, Linked, Load, Store, Exec, Step, Run, Supported, TypeOf, Eval, EvalInto,
      ExprCode, KeepsArgs;
    if vs == [] {
      n, t := 0, s;
      RunNothing(w, s, sp, a.acc);
      SettledAtOnce(w, s, t, a, mem, sp);
    } else {
      var k, top := Size(elem), off + |vs| * Size(elem);
      var c := ExprCode(vs[0], a.env) + [StoreTo(RBP, Below(top), Operand(RAX, elem))];
      var rest := ElemsCode(vs[1..], elem, off, a.env);
      assert vs[0] in vs;
      assert |vs| * k == |vs[1..]| * k + k;
      AtSplit(w.code, s.pc, c, rest);
      var r1 := EvalInto(w.c, fuel, vs[0], k, a.base - top, a, sp, mem);
      var n1, t1 := IntoSim(w, fuel, vs[0], elem, top, a, sp, mem, s);
      n, t := n1, t1;
      if r1.Done? {
        StillReady(w, s, t1, a, sp, mem, r1.mem);
        var r2 := EvalElems(w.c, fuel, vs[1..], elem, a.base - top + k, a, sp, r1.mem);
        var n2, t2 := ElemsSim(w, fuel, vs[1..], elem, off, a, sp, r1.mem, t1);
        n, t := n1 + n2, t2;
        GoesOn(w, fuel, sp, a.acc, n1, s, t1, r1, t1.pc, KeepsArgs(vs[0]), n2, t2, r2, s.pc + |c| + |rest|,
               forall v | v in vs[1..] :: KeepsArgs(v));
      }
    }
  }

  /** Evaluating into a slot of the frame. */
  lemma {:induction false} IntoSim(w: World, fuel: nat, e: Expr, ty: Type, off: nat, a: Act, sp: int, mem: Mem,
                                   s: State)
    returns (n: nat, t: State)
    requires Linked(w) && Supported(e, a.env) && HasSize(ty) && SameKind(Ty(e, a.env), ty) && Ready(w, s, a, sp, mem)
    requires At(w.code, s.pc, ExprCode(e, a.env) + [StoreTo(RBP, Below(off), Operand(RAX, ty))])
    ensures Goes(w, n, s, t, fuel, EvalInto(w.c, fuel, e, Size(ty), a.base - off, a, sp, mem), sp, a.acc,
                 s.pc + |ExprCode(e, a.env)| + 1, KeepsArgs(e))
    decreases fuel, e, 3
  {
    hide Stays, Agrees, Apart, Overlays, At, Linked, Load, Store, Exec, Step, Run, Supported, TypeOf, Eval, ExprCode;
    var c, store, at, k := ExprCode(e, a.env), StoreTo(RBP, Below(off), Operand(RAX, ty)), a.base - off, Size(ty);
    AtSplit(w.code, s.pc, c, [store]);
    var r1 := Eval(w.c, fuel, e, a, sp, mem);
    var n1, t1 := ExprSim(w, fuel, e, a, sp, mem, s);
    n, t := n1, t1;
    if r1.Done? && Writable(a.acc, at, k) {
      assert at in a.acc;
      ReadySlot(w, s, t1, a, sp, mem, r1.mem, at, off);
      t := StoreRuns(w, s, t1, a, sp, mem, r1.mem, store, at, k, r1.value);
      RunOne(w, t1, store, t);
      StoreStays(w, t1, t, sp, a.acc, at, k, r1.value);
      Follow(w, n1, 1, s, t1, sp, a.acc);
      n := n1 + 1;
    }
  }

  /** An argument of its parameter's kind that leaves the earlier arguments alone. */
  predicate ArgFits(e: Expr, p: Param, k: nat, env: Env) {
    Supported(e, env) && SameKind(Ty(e, env), p.ty) && HasSize(p.ty) && (k > 0 ==> KeepsArgs(e))
  }

  /** Arguments are evaluated one after the other, each going to its register; the ones already
      there stay. */
  lemma {:induction false} ArgsSim(w: World, fuel: nat, params: seq<Param>, args: seq<Expr>, i: nat, a: Act, sp: int,
                                   mem: Mem, s: State)
    returns (n: nat, t: State)
    requires Linked(w) && At(w.code, s.pc, ArgsCode(params, args, i, a.env)) && Ready(w, s, a, sp, mem)
    requires i + |args| == |params| <= 6
    requires forall k | i <= k < |params| :: ArgFits(args[k - i], params[k], k, a.env)
    ensures Goes(w, n, s, t, fuel, EvalArgs(w.c, fuel, args, a, sp, mem), sp, a.acc,
            s.pc + |ArgsCode(params, args, i, a.env)|, false)
    ensures EvalArgs(w.c, fuel, args, a, sp, mem).Done? ==>
              ArgsIn(t.regs, params[i..], EvalArgs(w.c, fuel, args, a, sp, mem).value, i) &&
              forall j :: 0 <= j < i ==> t.regs.Get(ARG_REGS[j]) == s.regs.Get(ARG_REGS[j])
    decreases fuel, args, 0
  {
    hide Stays, Agrees, Apart, Overlays, At, Linked, Load, Store, Exec, Step, Run, Supported, TypeOf, Eval, ExprCode;
    if args == [] {
      n, t := 0, s;
      RunNothing(w, s, sp, a.acc);
      SettledAtOnce(w, s, t, a, mem, sp);
    } else {
      var ty := params[i].ty;
      var c, rest := ExprCode(args[0], a.env) + [Mov(Operand(ARG_REGS[i], ty), Operand(RAX, ty))],
          ArgsCode(params, args[1..], i + 1, a.env);
      assert ArgFits(args[i - i], params[i], i, a.env);
      AtSplit(w.code, s.pc, c, rest);
      var r1 := Eval(w.c, fuel, args[0], a, sp, mem);
      var n1, t1 := ArgSim(w, fuel, params[i], args[0], i, a, sp, mem, s);
      n, t := n1, t1;
      if r1.Done? {
        StillReady(w, s, t1, a, sp, mem, r1.mem);
        var r3 := EvalArgs(w.c, fuel, args[1..], a, sp, r1.mem);
        var n3, t3 := ArgsSim(w, fuel, params, args[1..], i + 1, a, sp, r1.mem, t1);
        Follow(w, n1, n3, s, t1, sp, a.acc);
        n, t := n1 + n3, t3;
        if r3.Done? {
          SettledTrans(w, s, t1, t3, r1.mem, r3.mem, sp);
          MoreArgsIn(t3.regs, params, i, r1.value, r3.value);
        }
      }
    }
  }

  /** One argument on its way to register number i. */
  lemma {:induction false} ArgSim(w: World, fuel: nat, p: Param, e: Expr, i: nat, a: Act, sp: int, mem: Mem, s: State)
    returns (n: nat, t: State)
    requires Linked(w) && i < 6 && ArgFits(e, p, i, a.env) && Ready(w, s, a, sp, mem)
    requires At(w.code, s.pc, ExprCode(e, a.env) + [Mov(Operand(ARG_REGS[i], p.ty), Operand(RAX, p.ty))])
    ensures var r := Eval(w.c, fuel, e, a, sp, mem);
            Goes(w, n, s, t, fuel, r, sp, a.acc, s.pc + |ExprCode(e, a.env)| + 1, false) &&
            (r.Done? ==> t.regs.Get(ARG_REGS[i]) % Modulus(Size(p.ty)) == r.value &&
                         forall j :: 0 <= j < i ==> t.regs.Get(ARG_REGS[j]) == s.regs.Get(ARG_REGS[j]))
    decreases fuel, e, 3
  {
    hide Stays, Agrees, Apart, Overlays, At, Linked, Load, Store, Exec, Step, Run, Supported, TypeOf, Eval, ExprCode;
    var c, pass := ExprCode(e, a.env), Mov(Operand(ARG_REGS[i], p.ty), Operand(RAX, p.ty));
    AtSplit(w.code, s.pc, c, [pass]);
    var r1 := Eval(w.c, fuel, e, a, sp, mem);
    var n1, t1 := ExprSim(w, fuel, e, a, sp, mem, s);
    n, t := n1, t1;
    if r1.Done? {
      t := MovArg(t1, i, Size(p.ty));
      RunQuiet(w, t1, pass, t, sp, a.acc);
      Follow(w, n1, 1, s, t1, sp, a.acc);
      n := n1 + 1;
      SettledStep(w, s, t1, t, r1.mem, sp);
      forall j | 0 <= j < i ensures t.regs.Get(ARG_REGS[j]) == s.regs.Get(ARG_REGS[j]) {
        SameArgReg(s.regs, t1.regs, j);
      }
    }
  }

  lemma SameArgReg(r: Regs, q: Regs, j: nat)
    requires SameArgRegs(r, q) && j < 6
    ensures r.Get(ARG_REGS[j]) == q.Get(ARG_REGS[j])
  {
  }

  lemma MoreArgsIn(rs: Regs, params: seq<Param>, i: nat, v: nat, vs: seq<nat>)
    requires i < |params| && ArgsIn(rs, params[i + 1..], vs, i + 1)
    requires rs.Get(ARG_REGS[i]) % Modulus(Size(params[i].ty)) == v
    ensures ArgsIn(rs, params[i..], [v] + vs, i)
  {
    forall k | 0 <= k < |vs| + 1
      ensures rs.Get(ARG_REGS[i + k]) % Modulus(Size(params[i..][k].ty)) == ([v] + vs)[k]
    {
      if k > 0 {
        assert ARG_REGS[i + k] == ARG_REGS[i + 1 + (k - 1)] && params[i..][k] == params[i + 1..][k - 1];
      }
    }
  }

  lemma CallParts(e: Expr, env: Env)
    requires e.Call? && Supported(e, env)
    ensures Ty(e.callee, env).Procedure? && Supported(e.callee, env)
    ensures var sig := Ty(e.callee, env).sig;
            TypeOf(e, env) == Some(sig.ret) && |e.args| == |sig.params| <= 6 &&
            forall k | 0 <= k < |sig.params| :: ArgFits(e.args[k - 0], sig.params[k], k, env)
    ensures ExprCode(e, env) == ExprCode(e.callee, env) + [Push(RAX)] +
                                ArgsCode(Ty(e.callee, env).sig.params, e.args, 0, env) + [Pop(RAX), CallReg(RAX)]
  {
    assert ArgsTyped(Ty(e.callee, env).sig.params, e.args, env);
  }

  /** The callee's address is computed first and waits on the stack below the arguments; it is taken
      off again before the call. */
  lemma {:induction false} ReadyToCall(w: World, fuel: nat, e: Expr, a: Act, sp: int, mem: Mem, s: State)
    returns (n: nat, t: State)
    requires Linked(w) && Supported(e, a.env) && At(w.code, s.pc, ExprCode(e, a.env)) && Ready(w, s, a, sp, mem)
    requires e.Call? && TypeOf(e, a.env).Some? && Ty(e.callee, a.env).Procedure?
    ensures var r1 := Eval(w.c, fuel, e.callee, a, sp, mem);
            (r1.OutOfFuel? ==> n >= fuel && Run(w.code, n, s).Some? && Stays(w, n, s, sp, a.acc)) &&
            (r1.Done? && RoomFor(w.c, sp) ==>
               var r2 := EvalArgs(w.c, fuel, e.args, a, sp - 8, r1.mem);
               (r2.OutOfFuel? ==> n >= fuel && Run(w.code, n, s).Some? && Stays(w, n, s, sp, a.acc)) &&
               (r2.Done? ==>
                  Run(w.code, n, s) == Some(t) && Stays(w, n, s, sp, a.acc) && Settled(w, s, t, r2.mem, sp) &&
                  At(w.code, t.pc, [CallReg(RAX)]) && t.pc + 1 == s.pc + |ExprCode(e, a.env)| &&
                  t.regs.rax == r1.value && ArgsIn(t.regs, Ty(e.callee, a.env).sig.params, r2.value, 0)))
    decreases fuel, e, 0
  {
    hide Stays, Agrees, Apart, Overlays, At, Linked, Load, Store, Exec, Step, Run, ExecAll, Supported, TypeOf, CallProc,
      Eval, ExprCode, EvalArgs, ArgsCode, ProcAt, Callable, ArgFits, KeepsArgs, SameArgRegs;
    CallParts(e, a.env);
    var sig := Ty(e.callee, a.env).sig;
    var cc, ca := ExprCode(e.callee, a.env), ArgsCode(sig.params, e.args, 0, a.env);
    AtSplit(w.code, s.pc, cc + [Push(RAX)] + ca, [Pop(RAX), CallReg(RAX)]);
    AtSplit(w.code, s.pc, cc + [Push(RAX)], ca);
    AtSplit(w.code, s.pc, cc, [Push(RAX)]);
    var r1 := Eval(w.c, fuel, e.callee, a, sp, mem);
    var n1, t1 := ExprSim(w, fuel, e.callee, a, sp, mem, s);
    n, t := n1, t1;
    if r1.Done? && RoomFor(w.c, sp) {
      StartAbove(w, fuel, a, sp, mem, n1, s, t1, r1, s.pc + |cc|, KeepsArgs(e.callee));
      var r2 := EvalArgs(w.c, fuel, e.args, a, sp - 8, r1.mem);
      var n2, t2 := ArgsSim(w, fuel, sig.params, e.args, 0, a, sp - 8, r1.mem, PushedState(t1));
      EndAbove(w, fuel, a, sp, mem, n1, s, t1, r1, s.pc + |cc|, KeepsArgs(e.callee), n2, t2, r2,
               s.pc + |cc| + 1 + |ca|);
      n, t := n1 + 1 + n2, t2;
      if r2.Done? {
        var t3 := PopCallee(w, t2, sp, a.acc);
        Follow(w, n, 1, s, t2, sp, a.acc);
        n, t := n + 1, t3;
        UniqueMod(t1.regs.rax, TWO_64, 0, t1.regs.rax);
        assert sig.params[0..] == sig.params;
      }
    }
  }

  lemma {:induction false} CallSim(w: World, fuel: nat, e: Expr, a: Act, sp: int, mem: Mem, s: State)
    returns (n: nat, t: State)
    requires Linked(w) && Supported(e, a.env) && At(w.code, s.pc, ExprCode(e, a.env)) && Ready(w, s, a, sp, mem)
    requires e.Call? && TypeOf(e, a.env).Some?
    ensures Yields(w, n, s, t, fuel, EvalCall(w.c, fuel, e, a, sp, mem), sp, a.acc, s.pc + |ExprCode(e, a.env)|,
                   Size(Ty(e, a.env)), false)
    decreases fuel, e, 1
  {
    hide Stays, Agrees, Apart, Overlays, At, Linked, Load, Store, Exec, Step, Run, ExecAll, Supported, TypeOf, CallProc,
      Eval, ExprCode, EvalArgs, ArgsCode, ProcAt, Callable, ArgFits, KeepsArgs, SameArgRegs, ArgsIn;
    CallParts(e, a.env);
    var sig := Ty(e.callee, a.env).sig;
    n, t := ReadyToCall(w, fuel, e, a, sp, mem, s);
    var r1 := Eval(w.c, fuel, e.callee, a, sp, mem);
    if r1.Done? && RoomFor(w.c, sp) {
      var r2 := EvalArgs(w.c, fuel, e.args, a, sp - 8, r1.mem);
      if r2.Done? && fuel > 0 {
        var n4, t4 := CalleeSim(w, fuel, e, sig, r1.value, r2.value, a, sp, mem, r2.mem, s, t);
        Follow(w, n, n4, s, t, sp, a.acc);
        n, t := n + n4, t4;
      }
    }
  }

  /** The call itself, with the arguments in their registers. */
  lemma {:induction false} CalleeSim(w: World, fuel: nat, e: Expr, via: Signature, f: nat, vs: seq<nat>, a: Act,
                                     sp: int, mem0: Mem, mem: Mem, s0: State, s: State)
    returns (n: nat, t: State)
    requires Linked(w) && At(w.code, s.pc, [CallReg(RAX)]) && s.regs.rax == f && ArgsIn(s.regs, via.params, vs, 0)
    requires Ready(w, s0, a, sp, mem0) && Settled(w, s0, s, mem, sp) && mem0.Keys <= mem.Keys <= a.acc
    ensures var p := ProcAt(w.c.procs, w.c.link, f);
            p.Some? && Callable(via, p.value) && fuel > 0 ==>
              var r := CallProc(w.c, fuel - 1, p.value, vs, sp, a.acc, mem);
              Goes(w, n, s, t, fuel, r, sp, a.acc, s.pc + 1, false) &&
              (r.Done? ==> t.regs.rax % Modulus(Size(via.ret)) == r.value && Settled(w, s0, t, r.mem, sp))
    decreases fuel, e, 0
  {
    hide Stays, Agrees, Apart, Overlays, At, Linked, Load, Store, Exec, Step, Run, ExecAll, CallProc;
    n, t := 0, s;
    var p := ProcAt(w.c.procs, w.c.link, f);
    if p.Some? && Callable(via, p.value) && fuel > 0 {
      StillReady(w, s0, s, a, sp, mem0, mem);
      InRegistersPassed(s.regs, s.mem, sp, via.params, vs);
      PassedToCallee(s.regs, s.mem, sp, via, p.value, vs);
      n, t := CallProcSim(w, fuel - 1, p.value, vs, a.base, sp, a.acc, mem, s);
      var r := CallProc(w.c, fuel - 1, p.value, vs, sp, a.acc, mem);
      if r.Done? {
        SettledTrans(w, s0, s, t, mem, r.mem, sp);
      }
    }
  }

  lemma PopCallee(w: World, s: State, hi: int, acc: set<int>) returns (t: State)
    requires At(w.code, s.pc, [Pop(RAX), CallReg(RAX)]) && s.regs.rsp + 8 < TWO_64 && w.c.limit <= s.regs.rsp <= hi - 8
    ensures Stays(w, 1, s, hi, acc)
    ensures Run(w.code, 1, s) == Some(t) && t.pc == s.pc + 1 && t.mem == s.mem
    ensures t.regs == s.regs.(rsp := s.regs.rsp + 8, rax := t.regs.rax) && t.regs.rax == Load(s.mem, s.regs.rsp, 8)
    ensures At(w.code, t.pc, [CallReg(RAX)])
  {
    hide Load, Store;
    assert [Pop(RAX), CallReg(RAX)] == [Pop(RAX)] + [CallReg(RAX)];
    AtSplit(w.code, s.pc, [Pop(RAX)], [CallReg(RAX)]);
    ModulusIsPow256(8);
    UniqueMod(s.regs.rsp + 8, TWO_64, 0, s.regs.rsp + 8);
    t := Exec(Pop(RAX), s).value;
    RunOne(w, s, Pop(RAX), t);
    OneStays(w, s, t, hi, acc);
  }

  /** Kinds decide sizes, so the arguments fit the callee's own parameters. */
  lemma PassedToCallee(rs: Regs, m: Mem, top: int, via: Signature, p: Proc, vs: seq<nat>)
    requires Callable(via, p) && Passed(rs, m, top, via.params, vs, 0)
    ensures Passed(rs, m, top, p.sig.params, vs, 0) && Size(via.ret) == Size(p.sig.ret)
  {
    hide ArgWord;
  }

  const LEAVE: Code := [LocalLabel(ReturnLabel), Mov(SubReg(RSP, 8), SubReg(RBP, 8)), Pop(RBP)]

  /** The parts of a procedure's code. */
  lemma ProcPieces(code: Code, at: nat, p: Proc, globals: Env, n: nat)
    requires |p.slots| == |p.sig.params| && At(code, at, ProcCode(p, globals, n))
    ensures var params, body := ParamsCode(p.sig.params, p.slots, 0, 16), BlockCode(p.body, ProcEnv(p, globals), n);
            var start := at + 4 + |params|;
            var ret := start + |body|;
            At(code, at, EnterCode(p.name, p.stackSize)) && At(code, at + 4, params) && At(code, start, body) &&
            At(code, ret, LEAVE) && At(code, ret + 3, [Ret]) && |ProcCode(p, globals, n)| == ret + 4 - at
  {
    hide At, BlockCode, ParamsCode;
    var enter, params := EnterCode(p.name, p.stackSize), ParamsCode(p.sig.params, p.slots, 0, 16);
    var body := BlockCode(p.body, ProcEnv(p, globals), n);
    assert EPILOGUE == LEAVE + [Ret];
    assert ProcCode(p, globals, n) == enter + params + body + EPILOGUE;
    AtSplit(code, at, enter + params + body, EPILOGUE);
    AtSplit(code, at, enter + params, body);
    AtSplit(code, at, enter, params);
    AtSplit(code, at + |enter + params + body|, LEAVE, [Ret]);
  }

  /** Where the parts of a linked procedure are. */
  lemma ProcParts(w: World, p: Proc) returns (n: nat, at: nat, h: Home)
    requires Linked(w) && p in w.c.procs && p.name in w.c.link
    ensures at == w.c.link[p.name] && SupportedProc(p, w.c.globals)
    ensures var params, body := ParamsCode(p.sig.params, p.slots, 0, 16), BlockCode(p.body, ProcEnv(p, w.c.globals), n);
            var start := at + 4 + |params|;
            At(w.code, at, EnterCode(p.name, p.stackSize)) && At(w.code, at + 4, params) &&
            h.ret == start + |body| && At(w.code, h.ret, LEAVE) && At(w.code, h.ret + 3, [Ret]) &&
            Inside(w.code, h, start, body)
  {
    hide At, Region, ProcCode, BlockCode, ParamsCode, SupportedBlock;
    n :| Placed(w, p, n);
    at := w.c.link[p.name];
    ProcPieces(w.code, at, p, w.c.globals, n);
    var ret := at + |ProcCode(p, w.c.globals, n)| - 4;
    h := Home(at, ret + 4, ret);
    AtLabel(w.code, ret, LEAVE);
  }

  lemma AtLabel(code: Code, p: int, c: Code)
    requires At(code, p, c) && c != []
    ensures p < |code| && code[p] == c[0]
  {
    assert code[p] == code[p..p + |c|][0];
  }

  lemma BaseNotLive(acc: set<int>, limit: int, sp: int, size: nat)
    requires Apart(acc, limit, sp) && limit <= sp - 16 - size
    ensures sp - 16 !in acc + Range(sp - 16 - size, size)
  {
  }

  /** From the `call` instruction to the callee's body. */
  lemma EnterSim(w: World, p: Proc, vs: seq<nat>, base: int, sp: int, acc: set<int>, mem: Mem, s: State, start: nat)
    returns (n: nat, t: State)
    requires |w.code| < TWO_64 && p.name in w.c.link && s.regs.rax == w.c.link[p.name] && SupportedProc(p, w.c.globals)
    requires At(w.code, s.pc, [CallReg(RAX)]) && Ready(w, s, Act(w.c.globals, base, acc), sp, mem)
    requires |vs| == |p.slots| == |p.sig.params| && Passed(s.regs, s.mem, sp, p.sig.params, vs, 0)
    requires At(w.code, s.regs.rax, EnterCode(p.name, p.stackSize))
    requires At(w.code, s.regs.rax + 4, ParamsCode(p.sig.params, p.slots, 0, 16))
    requires start == s.regs.rax + 4 + |ParamsCode(p.sig.params, p.slots, 0, 16)|
    requires w.c.limit <= sp - 16 - p.stackSize
    requires Bind(p.sig.params, p.slots, vs, sp - 16, acc + Range(sp - 16 - p.stackSize, p.stackSize), mem).Done?
    ensures s.pc + 1 < TWO_64 && n > 0 && Run(w.code, n, s) == Some(t) && t.pc == start && Stays(w, n, s, sp, acc)
    ensures var low, live := sp - 16 - p.stackSize, acc + Range(sp - 16 - p.stackSize, p.stackSize);
            var s2, m1 := FrameState(CalledState(s), p.stackSize),
                Bind(p.sig.params, p.slots, vs, sp - 16, live, mem).mem;
            Ready(w, t, Act(ProcEnv(p, w.c.globals), sp - 16, live), low, m1) && Settled(w, s2, t, m1, low) &&
            Load(s2.mem, sp - 8, 8) == s.pc + 1 && Load(s2.mem, sp - 16, 8) == s.regs.rbp &&
            (forall x :: x < sp - 16 || sp <= x ==> Get(s2.mem, x) == Get(s.mem, x))
  {
    hide Stays, Agrees, Overlays, At, Load, Store, Exec, Step, Run, ExecAll, ParamsCode, SupportedBlock, Settled,
      Passed, Apart, Bind, Disciplined;
    AtLabel(w.code, s.pc, [CallReg(RAX)]);
    var low, size := sp - 16 - p.stackSize, p.stackSize;
    var a := Act(ProcEnv(p, w.c.globals), sp - 16, acc + Range(low, size));
    CallRuns(w, s, acc);
    var s1 := CalledState(s);
    EnterRuns(p.name, size, s1);
    EnterDisciplined(w, p.name, size, s1, sp, acc);
    var s2 := FrameState(s1, size);
    RunDisciplined(w, EnterCode(p.name, size), s1, s2, sp, acc);
    Follow(w, 1, 4, s, s1, sp, acc);
    FrameReady(w, s, size, a.env, acc, sp, mem);
    SettledAtOnce(w, s2, s2, a, mem, low);
    SamePassed(s.regs, s2.regs, s.mem, s2.mem, sp, p.sig.params, vs, 0);
    BaseNotLive(acc, w.c.limit, sp, size);
    t := ParamsSim(w, p.sig.params, p.slots, vs, 0, 16, a, low, mem, mem, s2, s2);
    RunDisciplined(w, ParamsCode(p.sig.params, p.slots, 0, 16), s2, t, low, a.acc);
    StaysWider(w, |ParamsCode(p.sig.params, p.slots, 0, 16)|, s2, low, a.acc, sp, acc);
    n := 5 + |ParamsCode(p.sig.params, p.slots, 0, 16)|;
    Follow(w, 5, n - 5, s, s2, sp, acc);
    StillReady(w, s2, t, a, low, mem, Bind(p.sig.params, p.slots, vs, sp - 16, a.acc, mem).mem);
  }

  /** A call from the `call` instruction to the instruction behind it. */
  lemma {:induction false} CallProcSim(w: World, fuel: nat, p: Proc, vs: seq<nat>, base: int, sp: int, acc: set<int>,
                                       mem: Mem, s: State)
    returns (n: nat, t: State)
    requires Linked(w) && p in w.c.procs && p.name in w.c.link && s.regs.rax == w.c.link[p.name]
    requires At(w.code, s.pc, [CallReg(RAX)]) && Ready(w, s, Act(w.c.globals, base, acc), sp, mem)
    requires |vs| == |p.slots| == |p.sig.params| && Passed(s.regs, s.mem, sp, p.sig.params, vs, 0)
    ensures Yields(w, n, s, t, fuel + 1, CallProc(w.c, fuel, p, vs, sp, acc, mem), sp, acc, s.pc + 1, Size(p.sig.ret),
            false)
    decreases fuel, p.body, 2
  {
    hide Stays, Agrees, Overlays, At, Linked, Load, Store, Exec, Step, Run, ExecAll, SupportedBlock, ParamsCode,
      BlockCode, Inside, Bind, ExecBlock, FinishCall, Settled, SameArgRegs, ProcEnv, FrameState;
    n, t := 0, s;
    LinkedResolved(w);
    var low, live := sp - 16 - p.stackSize, acc + Range(sp - 16 - p.stackSize, p.stackSize);
    var r1 := Bind(p.sig.params, p.slots, vs, sp - 16, live, mem);
    if low >= w.c.limit && r1.Done? {
      var ln, at, h := ProcParts(w, p);
      var a := Act(ProcEnv(p, w.c.globals), sp - 16, live);
      var n3, s3 := EnterSim(w, p, vs, base, sp, acc, mem, s, at + 4 + |ParamsCode(p.sig.params, p.slots, 0, 16)|);
      var s2 := FrameState(CalledState(s), p.stackSize);
      var r4 := ExecBlock(w.c, fuel, p.body, a, low, r1.mem);
      var n4, s4 := BlockSim(w, fuel, p.body, ln, a, low, r1.mem, s3, h);
      if !r4.Undefined? {
        StaysWider(w, n4, s3, low, live, sp, acc);
      }
      Follow(w, n3, n4, s, s3, sp, acc);
      n := n3 + n4;
      if r4.Done? {
        SettledTrans(w, s2, s3, s4, r1.mem, r4.mem, low);
        n, t := LeaveSim(w, p, h, acc, sp, r4.mem, n, s, s2, s4);
        ResultPart(s4.regs.rax, r4, p.sig.ret, acc);
      }
    }
  }

  /** The result of a call is in the low bytes of rax. */
  lemma ResultPart(x: nat, r: Outcome<Flow>, ret: Type, acc: set<int>)
    requires r.Done? && (r.value.Returned? ==> r.value.size in {0, 1, 4, 8} && x % Modulus(r.value.size) == r.value.v)
    ensures FinishCall(ret, acc, r).Done? ==> x % Modulus(Size(ret)) == FinishCall(ret, acc, r).value
    ensures FinishCall(ret, acc, r).Done? ==> FinishCall(ret, acc, r).mem == Restrict(r.mem, acc)
  {
    if r.value.Returned? && Size(ret) <= r.value.size {
      ReturnedPart(x, r.value.v, r.value.size, Size(ret));
    }
  }

  /** A shorter return value is the low part of the longer one in rax. */
  lemma ReturnedPart(x: nat, v: nat, n: nat, k: nat)
    requires (n == 0 || n == 1 || n == 4 || n == 8) && (k == 0 || k == 1 || k == 4 || k == 8)
    requires x % Modulus(n) == v && k <= n
    ensures x % Modulus(k) == v % Modulus(k)
  {
    var m, r := Modulus(k), Modulus(n) / Modulus(k);
    assert Modulus(n) == m * r;
    var q := x / Modulus(n);
    assert x == v + (q * r) * m;
    ModOfMultiple(v, q * r, m);
  }

  lemma LeaveSim(w: World, p: Proc, h: Home, acc: set<int>, sp: int, m2: Mem, n: nat, s: State, s2: State, s4: State)
    returns (n': nat, t: State)
    requires Apart(acc, w.c.limit, sp) && s.regs.rsp == sp && s.pc + 1 < TWO_64
    requires w.c.limit <= sp - 16 - p.stackSize && s2 == FrameState(CalledState(s), p.stackSize)
    requires Load(s2.mem, sp - 8, 8) == s.pc + 1 && Load(s2.mem, sp - 16, 8) == s.regs.rbp
    requires forall x :: x < sp - 16 || sp <= x ==> Get(s2.mem, x) == Get(s.mem, x)
    requires At(w.code, h.ret, LEAVE)
    requires At(w.code, h.ret + 3, [Ret])
    requires Run(w.code, n, s) == Some(s4) && s4.pc == h.ret && Stays(w, n, s, sp, acc)
    requires Settled(w, s2, s4, m2, sp - 16 - p.stackSize) && m2.Keys <= acc + Range(sp - 16 - p.stackSize, p.stackSize)
    ensures Run(w.code, n', s) == Some(t) && t.pc == s.pc + 1 && t.regs.rax == s4.regs.rax && Stays(w, n', s, sp, acc)
    ensures Settled(w, s, t, Restrict(m2, acc), sp)
  {
    hide Load, Store, Exec, Step, Run, ExecAll, Stays, Disciplined;
    FrameKept(w, s, s2, s4, p.stackSize, acc, sp, mem := map[], m2 := m2);
    LeaveRuns(s4);
    var s5 := ExecAll(LEAVE, s4).value;
    LeaveDisciplined(w, s4, sp, acc);
    RunDisciplined(w, LEAVE, s4, s5, sp, acc);
    Follow(w, n, 3, s, s4, sp, acc);
    RetRuns(w, s5, sp, acc);
    t := s5.(regs := s5.regs.(rsp := s5.regs.rsp + 8), pc := Load(s5.mem, s5.regs.rsp, 8));
    Follow(w, n + 3, 1, s, s5, sp, acc);
    n' := n + 4;
  }

  /** A statement ends behind its code, or at the procedure's return label with the value in rax. */
  ghost predicate Ends(w: World, n: nat, s: State, t: State, fuel: nat, r: Outcome<Flow>, sp: int, acc: set<int>,
                       pc: nat, h: Home) {
    match r
    case Undefined => true
    case OutOfFuel => n >= fuel && Run(w.code, n, s).Some? && Stays(w, n, s, sp, acc)
    case Done(flow, mem) =>
      Run(w.code, n, s) == Some(t) && Settled(w, s, t, mem, sp) && Stays(w, n, s, sp, acc) &&
      match flow
      case Next => t.pc == pc
      case Returned(v, k) =>
        t.pc == h.ret && k in {0, 1, 4, 8} && t.regs.rax % Modulus(k) == v
  }

  lemma {:induction false} BlockSim(w: World, fuel: nat, b: Block, ln: nat, a: Act, sp: int, mem: Mem, s: State,
                                    h: Home)
    returns (n: nat, t: State)
    requires Linked(w) && SupportedBlock(b, a.env) && Ready(w, s, a, sp, mem) &&
             Inside(w.code, h, s.pc, BlockCode(b, a.env, ln))
    ensures Ends(w, n, s, t, fuel, ExecBlock(w.c, fuel, b, a, sp, mem), sp, a.acc, s.pc + |BlockCode(b, a.env, ln)|, h)
    decreases fuel, b, 1
  {
    hide Stays, Agrees, Apart, Overlays, At, Linked, Load, Store, Exec, Step, Run, Region;
    n, t := StmtsSim(w, fuel, b.stmts, ln, a.(env := a.env + Declared(b.stmts)), sp, mem, s, h);
  }

  lemma {:induction false} StmtsSim(w: World, fuel: nat, stmts: seq<Stmt>, ln: nat, a: Act, sp: int, mem: Mem, s: State,
                                    h: Home)
    returns (n: nat, t: State)
    requires Linked(w) && (forall st | st in stmts :: SupportedStmt(st, a.env))
    requires Ready(w, s, a, sp, mem) && Inside(w.code, h, s.pc, StmtsCode(stmts, a.env, ln))
    ensures Ends(w, n, s, t, fuel, ExecStmts(w.c, fuel, stmts, a, sp, mem), sp, a.acc,
            s.pc + |StmtsCode(stmts, a.env, ln)|, h)
    decreases fuel, stmts, 1
  {
    hide Stays, Agrees, Apart, Overlays, At, Linked, Load, Store, Exec, Step, Run, Region, SupportedStmt;
    if stmts == [] {
      n, t := 0, s;
      RunNothing(w, s, sp, a.acc);
      SettledAtOnce(w, s, t, a, mem, sp);
    } else {
      var c, rest := StmtCode(stmts[0], a.env, ln), StmtsCode(stmts[1..], a.env, ln + Labels(stmts[0]));
      InsideSplit(w.code, h, s.pc, c, rest);
      var r1 := ExecStmt(w.c, fuel, stmts[0], a, sp, mem);
      var n1, t1 := StmtSim(w, fuel, stmts[0], ln, a, sp, mem, s, h);
      n, t := n1, t1;
      if r1.Done? && r1.value.Next? {
        StillReady(w, s, t1, a, sp, mem, r1.mem);
        var r2 := ExecStmts(w.c, fuel, stmts[1..], a, sp, r1.mem);
        var n2, t2 := StmtsSim(w, fuel, stmts[1..], ln + Labels(stmts[0]), a, sp, r1.mem, t1, h);
        Follow(w, n1, n2, s, t1, sp, a.acc);
        n, t := n1 + n2, t2;
        if r2.Done? {
          SettledTrans(w, s, t1, t2, r1.mem, r2.mem, sp);
        }
      }
    }
  }

  lemma {:induction false} StmtSim(w: World, fuel: nat, st: Stmt, ln: nat, a: Act, sp: int, mem: Mem, s: State, h: Home)
    returns (n: nat, t: State)
    requires Linked(w) && SupportedStmt(st, a.env) && Ready(w, s, a, sp, mem) &&
             Inside(w.code, h, s.pc, StmtCode(st, a.env, ln))
    ensures Ends(w, n, s, t, fuel, ExecStmt(w.c, fuel, st, a, sp, mem), sp, a.acc, s.pc + |StmtCode(st, a.env, ln)|, h)
    decreases fuel, st, 2
  {
    hide Stays, Agrees, Apart, Overlays, At, Linked, Load, Store, Exec, Step, Run, Region;
    n, t := 0, s;
    match st
    case ExprStmt(e) => n, t := ExprSim(w, fuel, e, a, sp, mem, s);
    case BlockStmt(b) => n, t := BlockSim(w, fuel, b, ln, a, sp, mem, s, h);
    case VarDecl(_, _, _, _) => n, t := VarDeclSim(w, fuel, st, ln, a, sp, mem, s, h);
    case If(_, _, _) => n, t := IfSim(w, fuel, st, ln, a, sp, mem, s, h);
    case While(_, _) => n, t := WhileSim(w, fuel, st, ln, a, sp, mem, s, h);
    case For(_, _, _, _, _, _, _, _) =>
    case Return(_) => n, t := ReturnSim(w, fuel, st, ln, a, sp, mem, s, h);
  }

  lemma {:induction false} VarDeclSim(w: World, fuel: nat, st: Stmt, ln: nat, a: Act, sp: int, mem: Mem, s: State,
                                      h: Home)
    returns (n: nat, t: State)
    requires Linked(w) && SupportedStmt(st, a.env) && Ready(w, s, a, sp, mem) &&
             Inside(w.code, h, s.pc, StmtCode(st, a.env, ln))
    requires st.VarDecl?
    ensures Ends(w, n, s, t, fuel, ExecStmt(w.c, fuel, st, a, sp, mem), sp, a.acc, s.pc + |StmtCode(st, a.env, ln)|, h)
    decreases fuel, st, 1
  {
    hide Stays, Agrees, Apart, Overlays, At, Linked, Load, Store, Exec, Step, Run, Region, Supported, TypeOf, EvalInto,
      ExprCode;
    if st.init.None? {
      n, t := 0, s;
      RunNothing(w, s, sp, a.acc);
      SettledAtOnce(w, s, t, a, mem, sp);
    } else {
      n, t := IntoSim(w, fuel, st.init.value, st.ty, st.offset, a, sp, mem, s);
    }
  }

  lemma {:induction false} ReturnSim(w: World, fuel: nat, st: Stmt, ln: nat, a: Act, sp: int, mem: Mem, s: State,
                                     h: Home)
    returns (n: nat, t: State)
    requires Linked(w) && SupportedStmt(st, a.env) && Ready(w, s, a, sp, mem) &&
             Inside(w.code, h, s.pc, StmtCode(st, a.env, ln))
    requires st.Return?
    ensures Ends(w, n, s, t, fuel, ExecStmt(w.c, fuel, st, a, sp, mem), sp, a.acc, s.pc + |StmtCode(st, a.env, ln)|, h)
    decreases fuel, st, 1
  {
    hide Stays, Agrees, Apart, Overlays, At, Linked, Load, Store, Exec, Step, Run, Region, Supported, TypeOf;
    if st.result.None? {
      assert [] + [Jmp(ReturnLabel)] == [Jmp(ReturnLabel)];
      JumpRuns(w, h, s, ReturnLabel, h.ret, sp, a.acc);
      n, t := 1, s.(pc := h.ret);
      SettledAtOnce(w, s, t, a, mem, sp);
    } else {
      var e := st.result.value;
      InsideSplit(w.code, h, s.pc, ExprCode(e, a.env), [Jmp(ReturnLabel)]);
      var r1 := Eval(w.c, fuel, e, a, sp, mem);
      var n1, t1 := ExprSim(w, fuel, e, a, sp, mem, s);
      n, t := n1, t1;
      if r1.Done? {
        JumpRuns(w, h, t1, ReturnLabel, h.ret, sp, a.acc);
        Follow(w, n1, 1, s, t1, sp, a.acc);
        n, t := n1 + 1, t1.(pc := h.ret);
      }
    }
  }

  lemma IfParts(w: World, st: Stmt, ln: nat, env: Env, pc: nat, h: Home)
    requires st.If? && SupportedStmt(st, env) && Inside(w.code, h, pc, StmtCode(st, env, ln))
    ensures Supported(st.cond, env) && HasSize(Ty(st.cond, env)) && SupportedBlock(st.then_, env)
    ensures st.else_.Some? ==> SupportedBlock(st.else_.value, env)
    ensures var c, thn, en := ExprCode(st.cond, env), BlockCode(st.then_, env, ln + 1), ln + 1 + BlockLabels(st.then_);
            var els := if st.else_.Some? then BlockCode(st.else_.value, env, en) else [];
            var atThen, atElse := pc + |c| + 2, pc + |c| + 2 + |thn| + 1;
            Inside(w.code, h, pc, c) && Inside(w.code, h, atThen, thn) &&
            Inside(w.code, h, pc + |c|, [CmpZero(SubReg(RAX, Size(Ty(st.cond, env)))), JumpIf(E, ElseLabel(ln))]) &&
            Inside(w.code, h, atElse - 1, [Jmp(EndLabel(ln))]) &&
            Inside(w.code, h, atElse, [LocalLabel(ElseLabel(ln))]) &&
            Inside(w.code, h, atElse + 1, els) && Inside(w.code, h, atElse + 1 + |els|, [LocalLabel(EndLabel(ln))]) &&
            |StmtCode(st, env, ln)| == |c| + 2 + |thn| + 2 + |els| + 1
  {
    hide Inside, BlockCode, ExprCode, Supported, SupportedBlock, TypeOf;
    var c, test := ExprCode(st.cond, env), [CmpZero(Operand(RAX, Ty(st.cond, env))), JumpIf(E, ElseLabel(ln))];
    var thn, mid := BlockCode(st.then_, env, ln + 1), [Jmp(EndLabel(ln)), LocalLabel(ElseLabel(ln))];
    var en := ln + 1 + BlockLabels(st.then_);
    var els := if st.else_.Some? then BlockCode(st.else_.value, env, en) else [];
    InsideSplit(w.code, h, pc, c + test + thn + mid + els, [LocalLabel(EndLabel(ln))]);
    InsideSplit(w.code, h, pc, c + test + thn + mid, els);
    InsideSplit(w.code, h, pc, c + test + thn, mid);
    InsideSplit(w.code, h, pc, c + test, thn);
    InsideSplit(w.code, h, pc, c, test);
    assert mid == [Jmp(EndLabel(ln))] + [LocalLabel(ElseLabel(ln))];
    InsideSplit(w.code, h, pc + |c + test + thn|, [Jmp(EndLabel(ln))], [LocalLabel(ElseLabel(ln))]);
  }

  lemma {:induction false} IfSim(w: World, fuel: nat, st: Stmt, ln: nat, a: Act, sp: int, mem: Mem, s: State, h: Home)
    returns (n: nat, t: State)
    requires Linked(w) && SupportedStmt(st, a.env) && Ready(w, s, a, sp, mem) &&
             Inside(w.code, h, s.pc, StmtCode(st, a.env, ln))
    requires st.If?
    ensures Ends(w, n, s, t, fuel, ExecIf(w.c, fuel, st, a, sp, mem), sp, a.acc, s.pc + |StmtCode(st, a.env, ln)|, h)
    decreases fuel, st, 1
  {
    hide Stays, Agrees, Apart, Overlays, At, Linked, Load, Store, Exec, Step, Run, Inside, Supported, TypeOf,
      SupportedBlock, BlockCode, StmtCode, Eval, ExecBlock, ExprCode;
    var k := Size(Ty(st.cond, a.env));
    var c, test := ExprCode(st.cond, a.env), [CmpZero(SubReg(RAX, k)), JumpIf(E, ElseLabel(ln))];
    var thn, en := BlockCode(st.then_, a.env, ln + 1), ln + 1 + BlockLabels(st.then_);
    var els := if st.else_.Some? then BlockCode(st.else_.value, a.env, en) else [];
    var atElse := s.pc + |c| + 2 + |thn| + 1;
    var atEnd := atElse + 1 + |els|;
    IfParts(w, st, ln, a.env, s.pc, h);
    InsideOne(w.code, h, atElse, LocalLabel(ElseLabel(ln)));
    InsideOne(w.code, h, atEnd, LocalLabel(EndLabel(ln)));
    InsideAt(w.code, h, s.pc, c);
    var r1 := Eval(w.c, fuel, st.cond, a, sp, mem);
    var n1, t1 := ExprSim(w, fuel, st.cond, a, sp, mem, s);
    n, t := n1, t1;
    if r1.Done? {
      var t2 := BranchRuns(w, h, t1, k, E, ElseLabel(ln), atElse, r1.value, sp, a.acc);
      Follow(w, n1, 2, s, t1, sp, a.acc);
      SettledStep(w, s, t1, t2, r1.mem, sp);
      StillReady(w, s, t2, a, sp, mem, r1.mem);
      if Truth(r1.value) {
        var r3 := ExecBlock(w.c, fuel, st.then_, a, sp, r1.mem);
        var n3, t3 := BlockSim(w, fuel, st.then_, ln + 1, a, sp, r1.mem, t2, h);
        Follow(w, n1 + 2, n3, s, t2, sp, a.acc);
        n, t := n1 + 2 + n3, t3;
        if r3.Done? {
          SettledTrans(w, s, t2, t3, r1.mem, r3.mem, sp);
          if r3.value.Next? {
            JumpRuns(w, h, t3, EndLabel(ln), atEnd, sp, a.acc);
            Follow(w, n1 + 2 + n3, 1, s, t3, sp, a.acc);
            n, t := AtEnd(w, s, t3.(pc := atEnd), r3.mem, sp, a.acc, n1 + 2 + n3 + 1, EndLabel(ln));
          }
        }
      } else {
        LabelRuns(w, t2, ElseLabel(ln), sp, a.acc);
        Follow(w, n1 + 2, 1, s, t2, sp, a.acc);
        var t3 := t2.(pc := atElse + 1);
        if st.else_.None? {
          n, t := AtEnd(w, s, t3, r1.mem, sp, a.acc, n1 + 2 + 1, EndLabel(ln));
        } else {
          var r4 := ExecBlock(w.c, fuel, st.else_.value, a, sp, r1.mem);
          var n4, t4 := BlockSim(w, fuel, st.else_.value, en, a, sp, r1.mem, t3, h);
          Follow(w, n1 + 2 + 1, n4, s, t3, sp, a.acc);
          n, t := n1 + 2 + 1 + n4, t4;
          if r4.Done? {
            SettledTrans(w, s, t3, t4, r1.mem, r4.mem, sp);
            if r4.value.Next? {
              n, t := AtEnd(w, s, t4, r4.mem, sp, a.acc, n1 + 2 + 1 + n4, EndLabel(ln));
            }
          }
        }
      }
    }
  }

  lemma AtEnd(w: World, s: State, t: State, mem: Mem, sp: int, acc: set<int>, n: nat, l: Label)
    returns (n': nat, u: State)
    requires Run(w.code, n, s) == Some(t) && Settled(w, s, t, mem, sp) && At(w.code, t.pc, [LocalLabel(l)])
    requires w.c.limit <= s.regs.rsp <= sp && Stays(w, n, s, sp, acc)
    ensures Stays(w, n', s, sp, acc)
    ensures Run(w.code, n', s) == Some(u) && Settled(w, s, u, mem, sp) && u.pc == t.pc + 1 && n' >= n
  {
    hide Step, Run, Stays;
    LabelRuns(w, t, l, sp, acc);
    Follow(w, n, 1, s, t, sp, acc);
    n', u := n + 1, t.(pc := t.pc + 1);
  }

  lemma {:induction false} WhileSim(w: World, fuel: nat, st: Stmt, ln: nat, a: Act, sp: int, mem: Mem, s: State,
                                    h: Home)
    returns (n: nat, t: State)
    requires Linked(w) && SupportedStmt(st, a.env) && Ready(w, s, a, sp, mem) &&
             Inside(w.code, h, s.pc, StmtCode(st, a.env, ln))
    requires st.While?
    ensures Ends(w, n, s, t, fuel, ExecWhile(w.c, fuel, st, a, sp, mem), sp, a.acc, s.pc + |StmtCode(st, a.env, ln)|, h)
    decreases fuel, st, 1
  {
    hide Stays, Agrees, Apart, Overlays, At, Linked, Load, Store, Exec, Step, Run, Inside, Supported, TypeOf,
      SupportedBlock, BlockCode, StmtCode, Eval, ExecBlock, ExprCode;
    var atCond := s.pc + 2 + |BlockCode(st.body, a.env, ln + 1)|;
    WhileParts(w, st, ln, a.env, s.pc, h);
    InsideOne(w.code, h, atCond, LocalLabel(CondLabel(ln)));
    JumpRuns(w, h, s, CondLabel(ln), atCond, sp, a.acc);
    var t1 := s.(pc := atCond);
    SettledAtOnce(w, s, t1, a, mem, sp);
    StillReady(w, s, t1, a, sp, mem, mem);
    var n2, t2 := LoopSim(w, fuel, st, ln, a, sp, mem, t1, h, s.pc);
    Follow(w, 1, n2, s, t1, sp, a.acc);
    n, t := 1 + n2, t2;
    var r := ExecWhile(w.c, fuel, st, a, sp, mem);
    if r.Done? {
      SettledTrans(w, s, t1, t2, mem, r.mem, sp);
    }
  }

  lemma WhileParts(w: World, st: Stmt, ln: nat, env: Env, pc: nat, h: Home)
    requires st.While? && SupportedStmt(st, env) && Inside(w.code, h, pc, StmtCode(st, env, ln))
    ensures Supported(st.cond, env) && HasSize(Ty(st.cond, env)) && SupportedBlock(st.body, env)
    ensures var body, cond := BlockCode(st.body, env, ln + 1), ExprCode(st.cond, env);
            var atCond := pc + 2 + |body|;
            var test := [CmpZero(SubReg(RAX, Size(Ty(st.cond, env)))), JumpIf(NE, WhileLabel(ln))];
            Inside(w.code, h, pc, [Jmp(CondLabel(ln))]) && Inside(w.code, h, pc + 1, [LocalLabel(WhileLabel(ln))]) &&
            Inside(w.code, h, pc + 2, body) && Inside(w.code, h, atCond, [LocalLabel(CondLabel(ln))]) &&
            Inside(w.code, h, atCond + 1, cond) && Inside(w.code, h, atCond + 1 + |cond|, test) &&
            |StmtCode(st, env, ln)| == 5 + |body| + |cond|
  {
    hide Inside, BlockCode, ExprCode, Supported, SupportedBlock, TypeOf;
    var body, cond := BlockCode(st.body, env, ln + 1), ExprCode(st.cond, env);
    var test := [CmpZero(Operand(RAX, Ty(st.cond, env))), JumpIf(NE, WhileLabel(ln))];
    var head, mid := [Jmp(CondLabel(ln)), LocalLabel(WhileLabel(ln))], [LocalLabel(CondLabel(ln))];
    InsideSplit(w.code, h, pc, head + body + mid + cond, test);
    InsideSplit(w.code, h, pc, head + body + mid, cond);
    InsideSplit(w.code, h, pc, head + body, mid);
    InsideSplit(w.code, h, pc, head, body);
    assert head == [Jmp(CondLabel(ln))] + [LocalLabel(WhileLabel(ln))];
    InsideSplit(w.code, h, pc, [Jmp(CondLabel(ln))], [LocalLabel(WhileLabel(ln))]);
  }

  /** From the condition's label: as many rounds as the condition allows. */
  lemma {:induction false} LoopSim(w: World, fuel: nat, st: Stmt, ln: nat, a: Act, sp: int, mem: Mem, s: State, h: Home,
                                   pc: nat)
    returns (n: nat, t: State)
    requires Linked(w) && SupportedStmt(st, a.env) && Ready(w, s, a, sp, mem) &&
             Inside(w.code, h, pc, StmtCode(st, a.env, ln))
    requires st.While? && s.pc == pc + 2 + |BlockCode(st.body, a.env, ln + 1)|
    ensures Ends(w, n, s, t, fuel, ExecWhile(w.c, fuel, st, a, sp, mem), sp, a.acc, pc + |StmtCode(st, a.env, ln)|, h)
    decreases fuel, st, 0
  {
    hide Stays, Agrees, Apart, Overlays, At, Linked, Load, Store, Exec, Step, Run, Inside, Supported, TypeOf,
      SupportedBlock, BlockCode, StmtCode, Eval, ExecBlock, ExprCode;
    WhileParts(w, st, ln, a.env, pc, h);
    InsideOne(w.code, h, pc + 1, LocalLabel(WhileLabel(ln)));
    InsideOne(w.code, h, s.pc, LocalLabel(CondLabel(ln)));
    InsideAt(w.code, h, s.pc + 1, ExprCode(st.cond, a.env));
    LabelRuns(w, s, CondLabel(ln), sp, a.acc);
    var t0 := s.(pc := s.pc + 1);
    SettledAtOnce(w, s, t0, a, mem, sp);
    StillReady(w, s, t0, a, sp, mem, mem);
    var r1 := Eval(w.c, fuel, st.cond, a, sp, mem);
    var n1, t1 := ExprSim(w, fuel, st.cond, a, sp, mem, t0);
    Follow(w, 1, n1, s, t0, sp, a.acc);
    n, t := 1 + n1, t1;
    if r1.Done? {
      var t2 := BranchRuns(w, h, t1, Size(Ty(st.cond, a.env)), NE, WhileLabel(ln), pc + 1, r1.value, sp, a.acc);
      Follow(w, 1 + n1, 2, s, t1, sp, a.acc);
      SettledTrans(w, s, t0, t1, mem, r1.mem, sp);
      SettledStep(w, s, t1, t2, r1.mem, sp);
      StillReady(w, s, t2, a, sp, mem, r1.mem);
      n, t := 1 + n1 + 2, t2;
      if Truth(r1.value) && fuel > 0 {
        LabelRuns(w, t2, WhileLabel(ln), sp, a.acc);
        Follow(w, 1 + n1 + 2, 1, s, t2, sp, a.acc);
        var t3 := t2.(pc := pc + 2);
        var r4 := ExecBlock(w.c, fuel - 1, st.body, a, sp, r1.mem);
        var n4, t4 := BlockSim(w, fuel - 1, st.body, ln + 1, a, sp, r1.mem, t3, h);
        Follow(w, 1 + n1 + 3, n4, s, t3, sp, a.acc);
        n, t := 1 + n1 + 3 + n4, t4;
        if r4.Done? {
          SettledTrans(w, s, t3, t4, r1.mem, r4.mem, sp);
          if r4.value.Next? {
            StillReady(w, s, t4, a, sp, mem, r4.mem);
            var r5 := ExecWhile(w.c, fuel - 1, st, a, sp, r4.mem);
            var n5, t5 := LoopSim(w, fuel - 1, st, ln, a, sp, r4.mem, t4, h, pc);
            Follow(w, 1 + n1 + 3 + n4, n5, s, t4, sp, a.acc);
            n, t := 1 + n1 + 3 + n4 + n5, t5;
            if r5.Done? {
              SettledTrans(w, s, t4, t5, r4.mem, r5.mem, sp);
            }
          }
        }
      }
    }
  }
}
