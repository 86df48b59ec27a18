/** The subset of x86_64 that the code generator emits: 64-bit registers with sub-register access,
    the comparison flags, byte-addressed memory and an instruction pointer. Code addresses are
    instruction indices; code is not part of the data memory. */
module Machine {
  import opened Types
  import opened Memory
  import opened Words

  datatype Reg = RAX | RDI | RSI | RDX | RCX | R8 | R9 | RSP | RBP

  /** A register name as printed: `rax`, `eax` or `al`, and so on. */
  datatype SubReg = SubReg(reg: Reg, size: opsize)

  datatype AluOp = AddOp | SubOp | AndOp | OrOp

  /** Labels that start with a dot belong to the procedure label above them. */
  datatype Label = ElseLabel(n: nat) | EndLabel(n: nat) | WhileLabel(n: nat) | CondLabel(n: nat) | ReturnLabel

  datatype Instr =
    | MovImm(dst: SubReg, imm: int)
    | MovProc(name: string)
    | Mov(dst: SubReg, src: SubReg)
    | LoadFrom(dst: SubReg, base: Reg, disp: int)
    | StoreTo(base: Reg, disp: int, src: SubReg)
    | Lea(reg: Reg, base: Reg, disp: int)
    | Push(reg: Reg)
    | Pop(reg: Reg)
    | Alu(op: AluOp, dst: SubReg, src: SubReg)
    | SubRsp(imm: int)
    | ImulImm(dst: SubReg, imm: int)
    | ImulOne(src: SubReg)
    | Idiv(src: SubReg)
    | Cmp(dst: SubReg, src: SubReg)
    | CmpZero(dst: SubReg)
    | SetCC(cc: Condition, dst: SubReg)
    | Jmp(target: Label)
    | JumpIf(cc: Condition, target: Label)
    | LocalLabel(label_: Label)
    | GlobalLabel(name: string)
    | CallReg(reg: Reg)
    | Ret

  type Code = seq<Instr>

  datatype Regs = Regs(rax: word, rdi: word, rsi: word, rdx: word, rcx: word, r8: word, r9: word, rsp: word,
    rbp: word) {
    function Get(r: Reg): word {
      match r
      case RAX => rax case RDI => rdi case RSI => rsi case RDX => rdx case RCX => rcx
      case R8 => r8 case R9 => r9 case RSP => rsp case RBP => rbp
    }

    function Set(r: Reg, v: word): Regs {
      match r
      case RAX => this.(rax := v) case RDI => this.(rdi := v) case RSI => this.(rsi := v)
      case RDX => this.(rdx := v) case RCX => this.(rcx := v) case R8 => this.(r8 := v)
      case R9 => this.(r9 := v) case RSP => this.(rsp := v) case RBP => this.(rbp := v)
    }

    function Part(s: SubReg): (v: nat)
      ensures v < Modulus(s.size)
    {
      Get(s.reg) % Modulus(s.size)
    }

    /** A 32-bit write clears the upper half of the register, an 8-bit write keeps all other bytes. */
    function SetPart(s: SubReg, v: nat): Regs
      requires v < Modulus(s.size)
    {
      if s.size == 1 then
        LowByteOfPart(Get(s.reg), v, 8);
        Set(s.reg, WithLowByte(Get(s.reg), v))
      else
        Set(s.reg, v)
    }
  }

  datatype State = State(regs: Regs, flags: Flags, mem: Mem, pc: nat)

  function Address(rs: Regs, base: Reg, disp: int): (a: word) {
    (rs.Get(base) + disp) % TWO_64
  }

  function AluResult(op: AluOp, x: nat, y: nat, n: opsize): (v: nat)
    requires x < Modulus(n) && y < Modulus(n)
    ensures v < Modulus(n)
  {
    BitwiseBound(x, y, n);
    match op
    case AddOp => (x + y) % Modulus(n)
    case SubOp => (x - y) % Modulus(n)
    case AndOp => BitAnd(x, y)
    case OrOp => BitOr(x, y)
  }

  function AluFlags(op: AluOp, x: nat, y: nat, n: opsize): Flags
    requires x < Modulus(n) && y < Modulus(n)
  {
    var v, m := AluResult(op, x, y, n), Modulus(n);
    var sum := Signed(x, n) + Signed(y, n);
    if op.SubOp? then Compare(x, y, n)
    else Flags(v == 0, 2 * v >= m, op.AddOp? && (2 * sum >= m || 2 * sum < -m))
  }

  /** One-operand multiplication: the signed product of the accumulator and the operand goes to
      dx:ax, and for byte operands to ax. */
  function WideProduct(rs: Regs, src: SubReg): Regs {
    var n := src.size;
    var p := Signed(rs.Part(SubReg(RAX, n)), n) * Signed(rs.Part(src), n);
    if n == 1 then
      rs.Set(RAX, rs.rax - rs.rax % 0x1_0000 + p % 0x1_0000)
    else
      rs.Set(RAX, p % Modulus(n)).Set(RDX, (p / Modulus(n)) % Modulus(n))
  }

  /** The number in dx:ax, for byte operands in ax, that a signed division divides. */
  function Dividend(rs: Regs, n: opsize): int {
    var high := if n == 1 then (rs.rax / 256) % 256 else rs.rdx % Modulus(n);
    Signed(high, n) * Modulus(n) + rs.rax % Modulus(n)
  }

  /** A register with its lowest two bytes replaced. */
  function WithLowBytes(x: word, low: byte, high: byte): word {
    x - x % 0x1_0000 + (low + 256 * high) % 0x1_0000
  }

  /** Quotient to ax and remainder to dx, for byte operands to al and ah. There is no result when the
      divisor is zero or the quotient does not fit: the processor faults. */
  function Divided(rs: Regs, src: SubReg): Option<Regs> {
    var n, d, y := src.size, Dividend(rs, src.size), Signed(rs.Part(src), src.size);
    if y == 0 || !FitsSigned(Truncated(d, y), n) then None
    else
      var q, r := Truncated(d, y), d - y * Truncated(d, y);
      if n == 1 then Some(rs.Set(RAX, WithLowBytes(rs.rax, q % 256, r % 256)))
      else Some(rs.Set(RAX, q % Modulus(n)).Set(RDX, r % Modulus(n)))
  }

  predicate IsControl(i: Instr) {
    i.Jmp? || i.JumpIf? || i.CallReg? || i.Ret?
  }

  /** The effect of an instruction that falls through to the next one. No result stands for an
      operand form the processor does not have, or for an access that leaves the address space. */
  function Exec(i: Instr, s: State): Option<State>
    requires !IsControl(i)
  {
    var rs, next := s.regs, s.(pc := s.pc + 1);
    match i
    case MovImm(dst, imm) => Some(next.(regs := rs.SetPart(dst, imm % Modulus(dst.size))))
    case Mov(dst, src) =>
      if dst.size != src.size then None else Some(next.(regs := rs.SetPart(dst, rs.Part(src))))
    case LoadFrom(dst, base, disp) =>
      var a := Address(rs, base, disp);
      ModulusIsPow256(dst.size);
      if a + dst.size > TWO_64 then None
      else Some(next.(regs := rs.SetPart(dst, Load(s.mem, a, dst.size))))
    case StoreTo(base, disp, src) =>
      var a := Address(rs, base, disp);
      if a + src.size > TWO_64 then None
      else Some(next.(mem := Store(s.mem, a, src.size, rs.Part(src))))
    case Lea(reg, base, disp) => Some(next.(regs := rs.Set(reg, Address(rs, base, disp))))
    case Push(reg) =>
      var a := Address(rs, RSP, -8);
      if a + 8 > TWO_64 then None
      else Some(next.(regs := rs.Set(RSP, a), mem := Store(s.mem, a, 8, rs.Get(reg))))
    case Pop(reg) =>
      ModulusIsPow256(8);
      if rs.rsp + 8 > TWO_64 then None
      else Some(next.(regs := rs.Set(RSP, Address(rs, RSP, 8)).Set(reg, Load(s.mem, rs.rsp, 8))))
    case Alu(op, dst, src) =>
      if dst.size != src.size then None
      else
        var x, y := rs.Part(dst), rs.Part(src);
        Some(next.(regs := rs.SetPart(dst, AluResult(op, x, y, dst.size)),
                   flags := AluFlags(op, x, y, dst.size)))
    case SubRsp(imm) =>
      Some(next.(regs := rs.Set(RSP, Address(rs, RSP, -imm)), flags := Compare(rs.rsp, imm % TWO_64, 8)))
    case ImulImm(dst, imm) =>
      if dst.size == 1 then None
      else Some(next.(regs := rs.SetPart(dst, (rs.Part(dst) * imm) % Modulus(dst.size))))
    case ImulOne(src) => Some(next.(regs := WideProduct(rs, src)))
    case Cmp(dst, src) =>
      if dst.size != src.size then None
      else Some(next.(flags := Compare(rs.Part(dst), rs.Part(src), dst.size)))
    case CmpZero(dst) => Some(next.(flags := Compare(rs.Part(dst), 0, dst.size)))
    case SetCC(cc, dst) =>
      if dst.size != 1 then None
      else Some(next.(regs := rs.SetPart(dst, Bit(Holds(cc, s.flags)))))
    case LocalLabel(_) => Some(next)
    case GlobalLabel(_) => Some(next)
    case MovProc(_) => None // needs the code, see Step
    case Idiv(src) =>
      var r := Divided(rs, src);
      if r.None? then None else Some(next.(regs := r.value))
  }

  /** No procedure label lies after the smaller and up to the larger of the two positions. */
  predicate SameProcedure(code: Code, i: int, j: int) {
    forall k :: 0 <= k < |code| && (i < k <= j || j < k <= i) ==> !code[k].GlobalLabel?
  }

  /** A position a jump to the label at position pc may go to. */
  predicate IsTarget(code: Code, pc: int, l: Label, q: int) {
    0 <= q < |code| && code[q] == LocalLabel(l) && SameProcedure(code, pc, q)
  }

  ghost function JumpTarget(code: Code, pc: int, l: Label): Option<int> {
    if exists q :: IsTarget(code, pc, l, q) then
      var q :| IsTarget(code, pc, l, q);
      Some(q)
    else None
  }

  predicate IsEntry(code: Code, name: string, q: int) {
    0 <= q < |code| && code[q] == GlobalLabel(name)
  }

  ghost function EntryPoint(code: Code, name: string): Option<int> {
    if exists q :: IsEntry(code, name, q) then
      var q :| IsEntry(code, name, q);
      Some(q)
    else None
  }

  /** One step of the machine. No result means that it has stopped: the instruction pointer left
      the code, or the instruction cannot be carried out. */
  ghost function Step(code: Code, s: State): Option<State> {
    if s.pc >= |code| then None
    else
      match code[s.pc]
      case Jmp(l) => Jump(code, s, l)
      case JumpIf(cc, l) => if Holds(cc, s.flags) then Jump(code, s, l) else Some(s.(pc := s.pc + 1))
      case MovProc(name) =>
        var q := EntryPoint(code, name);
        if q.None? || q.value >= TWO_64 then None
        else Some(s.(regs := s.regs.Set(RAX, q.value), pc := s.pc + 1))
      case CallReg(reg) =>
        var a := Address(s.regs, RSP, -8);
        if a + 8 > TWO_64 || s.pc + 1 >= TWO_64 then None
        else Some(s.(regs := s.regs.Set(RSP, a), mem := Store(s.mem, a, 8, s.pc + 1), pc := s.regs.Get(reg)))
      case Ret =>
        if s.regs.rsp + 8 > TWO_64 then None
        else Some(s.(regs := s.regs.Set(RSP, Address(s.regs, RSP, 8)), pc := Load(s.mem, s.regs.rsp, 8)))
      case i => Exec(i, s)
  }

  ghost function Jump(code: Code, s: State, l: Label): Option<State> {
    var q := JumpTarget(code, s.pc, l);
    if q.None? then None else Some(s.(pc := q.value))
  }

  ghost function Run(code: Code, n: nat, s: State): Option<State> {
    if n == 0 then Some(s)
    else
      var r := Step(code, s);
      if r.None? then None else Run(code, n - 1, r.value)
  }

  lemma {:induction false} RunAdd(code: Code, n: nat, m: nat, s: State, t: State)
    requires Run(code, n, s) == Some(t)
    ensures Run(code, n + m, s) == Run(code, m, t)
    decreases n
  {
    hide Step;
    if n != 0 {
      RunAdd(code, n - 1, m, Step(code, s).value, t);
    }
  }

  /** A machine that is still running after n steps was running after every smaller number. */
  lemma {:induction false} RunPrefix(code: Code, n: nat, m: nat, s: State)
    requires n <= m && Run(code, m, s).Some?
    ensures Run(code, n, s).Some?
    decreases n
  {
    hide Step;
    if n != 0 {
      RunPrefix(code, n - 1, m - 1, Step(code, s).value);
    }
  }
}
