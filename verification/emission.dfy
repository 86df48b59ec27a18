/** The code each construct stands for, as functions of the tree, the visible names and the number
    of labels used so far. */
module Emission {
  import opened Types
  import opened Words
  import opened Syntax
  import opened Typing
  import opened Machine

  /** The part of a register that holds a value of the type. */
  function Operand(r: Reg, t: Type): SubReg {
    SubReg(r, if HasSize(t) then Size(t) else 8)
  }

  /** The displacement of a slot that begins `offset` bytes below the frame base. */
  function Below(offset: nat): int {
    0 - offset
  }

  const ARG_REGS := [RDI, RSI, RDX, RCX, R8, R9]

  /** A literal goes through a 32-bit conversion when it is printed. */
  function Printed(n: nat): int {
    Signed(n % TWO_32, 4)
  }

  function ScaleCode(lt: Type, rt: Type): Code {
    if lt.Pointer? && !rt.Pointer? then [ImulImm(Operand(RDI, rt), Size(lt.pointee))]
    else if !lt.Pointer? && rt.Pointer? then [ImulImm(Operand(RAX, lt), Size(rt.pointee))]
    else []
  }

  function OpCode(op: BinOp, rax: SubReg, rdi: SubReg): Code {
    var al := SubReg(RAX, 1);
    match op
    case Add => [Alu(AddOp, rax, rdi)]
    case Sub => [Alu(SubOp, rax, rdi)]
    case Mul => [ImulOne(rdi)]
    case Div => [Idiv(rdi)]
    case Eq => [Cmp(rax, rdi), SetCC(E, al)]
    case Neq => [Cmp(rax, rdi), SetCC(NE, al)]
    case Gt => [Cmp(rax, rdi), SetCC(G, al)]
    case GtEq => [Cmp(rax, rdi), SetCC(GE, al)]
    case Lt => [Cmp(rax, rdi), SetCC(L, al)]
    case LtEq => [Cmp(rax, rdi), SetCC(LE, al)]
    case BitwiseOr => [Alu(OrOp, rax, rdi)]
    case BitwiseAnd => [Alu(AndOp, rax, rdi)]
    case LogOr => [Alu(OrOp, rax, rdi), CmpZero(rax), SetCC(NE, al)]
    case LogAnd => [Alu(AndOp, rax, rdi), CmpZero(rax), SetCC(NE, al)]
  }

  /** What follows the operands: the left one is in rax, the right one on the stack. */
  function BinaryTail(op: BinOp, lt: Type, rt: Type): Code {
    [Pop(RDI)] + ScaleCode(lt, rt) + OpCode(op, Operand(RAX, lt), Operand(RDI, rt))
  }

  function ExprCode(e: Expr, env: Env): Code {
    match e
    case Num(k, n) => [MovImm(Operand(RAX, LiteralType(k)), Printed(n))]
    case Str(_) => []
    case Ident(x) =>
      if x !in env then []
      else if env[x].Routine? then [MovProc(x)]
      else [LoadFrom(Operand(RAX, env[x].ty), RBP, Below(env[x].offset))]
    case Grouping(inner) => ExprCode(inner, env)
    case Binary(op, l, r) =>
      ExprCode(r, env) + [Push(RAX)] + ExprCode(l, env) + BinaryTail(op, Ty(l, env), Ty(r, env))
    case Unary(op, node) =>
      (match op
       case AddrOf => AddrCode(node, env)
       case _ => ExprCode(node, env) + UnaryTail(op, Ty(node, env)))
    case Call(callee, args) =>
      ExprCode(callee, env) + [Push(RAX)] + ArgsCode(ParamsOf(Ty(callee, env)), args, 0, env) + [Pop(RAX), CallReg(RAX)]
    case Assign(target, v) =>
      AddrCode(target, env) + [Push(RAX)] + ExprCode(v, env) + [Pop(RDI), StoreTo(RDI, 0, Operand(RAX, Ty(v, env)))]
    case Array(vs, elem, off) =>
      ElemsCode(vs, elem, off, env) + [Lea(RAX, RBP, Below(off + |vs| * Size(elem)))]
    case Index(_, _) => []
  }

  function UnaryTail(op: UnaryOp, t: Type): Code {
    match op
    case Not => [CmpZero(Operand(RAX, t)), SetCC(E, Operand(RAX, t))]
    case Minus => [ImulImm(Operand(RAX, t), -1)]
    case Deref => [LoadFrom(Operand(RAX, t), RAX, 0)]
    case AddrOf => []
  }

  function AddrCode(e: Expr, env: Env): Code {
    match e
    case Ident(x) =>
      if x !in env then []
      else if env[x].Routine? then [MovProc(x)]
      else [Lea(RAX, RBP, Below(env[x].offset))]
    case Unary(Deref, node) => ExprCode(node, env)
    case _ => []
  }

  function ParamsOf(t: Type): seq<Param> {
    if t.Procedure? then t.sig.params else []
  }

  /** Passes the value in rax as argument number i. */
  function PassCode(i: nat, t: Type): Code {
    if i < 6 then [Mov(Operand(ARG_REGS[i], t), Operand(RAX, t))] else [Push(RAX)]
  }

  /** The arguments from number i on; `args` are the ones that are left. */
  function ArgsCode(params: seq<Param>, args: seq<Expr>, i: nat, env: Env): Code
    decreases args
  {
    if args == [] then []
    else
      var t := if i < |params| then params[i].ty else Void;
      ExprCode(args[0], env) + PassCode(i, t) + ArgsCode(params, args[1..], i + 1, env)
  }

  /** The elements that are left go to the end of the array, which begins |vs| elements before it. */
  function ElemsCode(vs: seq<Expr>, elem: Type, off: nat, env: Env): Code
    decreases vs
  {
    if vs == [] then []
    else
      ExprCode(vs[0], env) + [StoreTo(RBP, Below(off + |vs| * Size(elem)), Operand(RAX, elem))] +
      ElemsCode(vs[1..], elem, off, env)
  }

  /** The labels a statement uses up. */
  function Labels(s: Stmt): nat {
    match s
    case BlockStmt(b) => BlockLabels(b)
    case If(_, thn, els) => 1 + BlockLabels(thn) + if els.Some? then BlockLabels(els.value) else 0
    case While(_, body) => 1 + BlockLabels(body)
    case _ => 0
  }

  function BlockLabels(b: Block): nat {
    StmtsLabels(b.stmts)
  }

  function StmtsLabels(stmts: seq<Stmt>): nat {
    if stmts == [] then 0 else Labels(stmts[0]) + StmtsLabels(stmts[1..])
  }

  function StmtCode(s: Stmt, env: Env, n: nat): Code
    decreases s
  {
    match s
    case ExprStmt(e) => ExprCode(e, env)
    case BlockStmt(b) => BlockCode(b, env, n)
    case VarDecl(_, _, init, off) =>
      if init.None? then []
      else ExprCode(init.value, env) + [StoreTo(RBP, Below(off), Operand(RAX, Ty(init.value, env)))]
    case If(cond, thn, els) =>
      ExprCode(cond, env) + [CmpZero(Operand(RAX, Ty(cond, env))), JumpIf(E, ElseLabel(n))] +
      BlockCode(thn, env, n + 1) + [Jmp(EndLabel(n)), LocalLabel(ElseLabel(n))] +
      (if els.Some? then BlockCode(els.value, env, n + 1 + BlockLabels(thn)) else []) + [LocalLabel(EndLabel(n))]
    case While(cond, body) =>
      [Jmp(CondLabel(n)), LocalLabel(WhileLabel(n))] + BlockCode(body, env, n + 1) + [LocalLabel(CondLabel(n))] +
      ExprCode(cond, env) + [CmpZero(Operand(RAX, Ty(cond, env))), JumpIf(NE, WhileLabel(n))]
    case For(_, _, _, _, _, _, _, _) => []
    case Return(e) =>
      (if e.Some? then ExprCode(e.value, env) else []) + [Jmp(ReturnLabel)]
  }

  function BlockCode(b: Block, env: Env, n: nat): Code
    decreases b
  {
    StmtsCode(b.stmts, env + Declared(b.stmts), n)
  }

  function StmtsCode(stmts: seq<Stmt>, env: Env, n: nat): Code
    decreases stmts
  {
    if stmts == [] then [] else StmtCode(stmts[0], env, n) + StmtsCode(stmts[1..], env, n + Labels(stmts[0]))
  }

  /** Moves parameter number i to its slot; from the seventh on a parameter is passed on the stack,
      `up` bytes above the frame base. */
  function ParamCode(t: Type, slot: nat, i: nat, up: nat): Code {
    if i < 6 then [StoreTo(RBP, Below(slot), Operand(ARG_REGS[i], t))]
    else [LoadFrom(Operand(RAX, t), RBP, up), StoreTo(RBP, Below(slot), Operand(RAX, t))]
  }

  /** The same for parameter number i and the following ones. */
  function ParamsCode(params: seq<Param>, slots: seq<nat>, i: nat, up: nat): Code
    requires |params| == |slots|
  {
    if params == [] then []
    else
      ParamCode(params[0].ty, slots[0], i, up) +
      ParamsCode(params[1..], slots[1..], i + 1, if i < 6 then up else up + 8)
  }

  function Prologue(p: Proc): Code
    requires |p.slots| == |p.sig.params|
  {
    [GlobalLabel(p.name), Push(RBP), Mov(SubReg(RBP, 8), SubReg(RSP, 8)), SubRsp(p.stackSize)] +
    ParamsCode(p.sig.params, p.slots, 0, 16)
  }

  const EPILOGUE: Code := [LocalLabel(ReturnLabel), Mov(SubReg(RSP, 8), SubReg(RBP, 8)), Pop(RBP), Ret]

  function ProcCode(p: Proc, globals: Env, n: nat): Code
    requires |p.slots| == |p.sig.params|
  {
    Prologue(p) + BlockCode(p.body, ProcEnv(p, globals), n) + EPILOGUE
  }

  predicate SlotsMatch(procs: seq<Proc>) {
    forall p | p in procs :: |p.slots| == |p.sig.params|
  }

  function ProgramCode(procs: seq<Proc>, globals: Env, n: nat): Code
    requires SlotsMatch(procs)
  {
    if procs == [] then []
    else ProcCode(procs[0], globals, n) + ProgramCode(procs[1..], globals, n + BlockLabels(procs[0].body))
  }
}
