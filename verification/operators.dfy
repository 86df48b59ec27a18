/** Straight-line code, and the operators: the code after the operands computes the operation. */
module Operators {
  import opened Types
  import opened Memory
  import opened Words
  import opened Syntax
  import opened Typing
  import opened Machine
  import opened Emission
  import opened Semantics

  /** Code fragment c lies at position p. */
  predicate At(code: Code, p: int, c: Code) {
    0 <= p && p + |c| <= |code| && code[p..p + |c|] == c
  }

  lemma AtSplit(code: Code, p: int, c0: Code, c1: Code)
    requires At(code, p, c0 + c1)
    ensures At(code, p, c0) && At(code, p + |c0|, c1)
  {
    var c := code[p..p + |c0| + |c1|];
    assert c[..|c0|] == c0 && c[|c0|..] == c1;
    assert code[p..p + |c0|] == c[..|c0|];
    assert code[p + |c0|..p + |c0| + |c1|] == c[|c0|..];
  }

  /** Runs a fragment without jumps, calls and procedure addresses. */
  function ExecAll(c: Code, s: State): Option<State> {
    if c == [] then Some(s)
    else if IsControl(c[0]) then None
    else
      var r := Exec(c[0], s);
      if r.None? then None else ExecAll(c[1..], r.value)
  }

  lemma ExecOne(i: Instr, s: State)
    requires !IsControl(i)
    ensures ExecAll([i], s) == Exec(i, s)
  {
    hide Exec;
    assert [i][1..] == [];
  }

  lemma {:induction false} ExecAllAppend(c0: Code, c1: Code, s: State, t: State)
    requires ExecAll(c0, s) == Some(t)
    ensures ExecAll(c0 + c1, s) == ExecAll(c1, t)
  {
    hide Exec;
    if c0 == [] {
      assert c0 + c1 == c1;
    } else {
      assert (c0 + c1)[1..] == c0[1..] + c1;
      ExecAllAppend(c0[1..], c1, Exec(c0[0], s).value, t);
    }
  }

  lemma ExecTwo(i: Instr, j: Instr, s: State, t: State)
    requires !IsControl(i) && !IsControl(j)
    requires Exec(i, s) == Some(t)
    ensures ExecAll([i, j], s) == Exec(j, t)
  {
    hide Exec;
    ExecOne(i, s);
    ExecAllAppend([i], [j], s, t);
    ExecOne(j, t);
    assert [i, j] == [i] + [j];
  }

  lemma ExecPc(i: Instr, s: State)
    requires !IsControl(i) && Exec(i, s).Some?
    ensures Exec(i, s).value.pc == s.pc + 1
  {
  }

  lemma RunStep(code: Code, s: State, t: State)
    requires Step(code, s) == Some(t)
    ensures Run(code, 1, s) == Some(t)
  {
    hide Step;
    assert Run(code, 0, t) == Some(t);
  }

  lemma StepExec(code: Code, s: State)
    requires s.pc < |code| && !IsControl(code[s.pc]) && Exec(code[s.pc], s).Some?
    ensures Step(code, s) == Exec(code[s.pc], s)
    ensures Run(code, 1, s) == Exec(code[s.pc], s)
  {
    hide Run;
    RunStep(code, s, Exec(code[s.pc], s).value);
  }

  /** Memory and the two stack registers are the same. */
  predicate SameButResult(s: State, t: State) {
    t.mem == s.mem && t.regs.rsp == s.regs.rsp && t.regs.rbp == s.regs.rbp
  }

  /** Besides the flags only rax and rdx may differ. */
  predicate OnlyResult(s: State, t: State) {
    t.mem == s.mem && t.regs == s.regs.(rax := t.regs.rax, rdx := t.regs.rdx)
  }

  lemma AluCode(op: AluOp, n: opsize, s: State)
    ensures Exec(Alu(op, SubReg(RAX, n), SubReg(RDI, n)), s).Some?
    ensures var t := Exec(Alu(op, SubReg(RAX, n), SubReg(RDI, n)), s).value;
            OnlyResult(s, t) &&
            t.regs.rax % Modulus(n) == AluResult(op, s.regs.rax % Modulus(n), s.regs.rdi % Modulus(n), n)
  {
    var v := AluResult(op, s.regs.rax % Modulus(n), s.regs.rdi % Modulus(n), n);
    SetThenPart(s.regs, RAX, n, v);
  }

  lemma SetThenPart(rs: Regs, r: Reg, n: opsize, v: nat)
    requires v < Modulus(n)
    ensures rs.SetPart(SubReg(r, n), v).Part(SubReg(r, n)) == v
  {
    var x := rs.Get(r);
    if n == 1 {
      UniqueMod(WithLowByte(x, v), 256, x / 256, v);
    } else {
      UniqueMod(v, Modulus(n), 0, v);
    }
  }

  lemma SetCode(cc: Condition, n: opsize, s: State)
    ensures var t := Exec(SetCC(cc, SubReg(RAX, 1)), s).value;
            OnlyResult(s, t) &&
            t.regs.rax % Modulus(n) == Verdict(s.regs.rax % Modulus(n), Holds(cc, s.flags), n)
  {
    LowByteOfPart(s.regs.rax, Bit(Holds(cc, s.flags)), n);
  }

  lemma CompareCode(cc: Condition, n: opsize, s: State)
    ensures var c := [Cmp(SubReg(RAX, n), SubReg(RDI, n)), SetCC(cc, SubReg(RAX, 1))];
            var x, y := s.regs.rax % Modulus(n), s.regs.rdi % Modulus(n);
            ExecAll(c, s).Some? && OnlyResult(s, ExecAll(c, s).value) &&
            ExecAll(c, s).value.regs.rax % Modulus(n) == Verdict(x, Order(cc, Signed(x, n), Signed(y, n)), n)
  {
    var i, j := Cmp(SubReg(RAX, n), SubReg(RDI, n)), SetCC(cc, SubReg(RAX, 1));
    var x, y := s.regs.rax % Modulus(n), s.regs.rdi % Modulus(n);
    var t := Exec(i, s).value;
    assert t.flags == Compare(x, y, n) && t.regs == s.regs && t.mem == s.mem;
    ExecTwo(i, j, s, t);
    CompareDecides(cc, x, y, n);
    SetCode(cc, n, t);
  }

  /** `cmp r, 0` tells whether the part of r is zero. */
  lemma ZeroTest(x: nat, n: opsize)
    requires x < Modulus(n)
    ensures Compare(x, 0, n).zero <==> x == 0
  {
    CompareDecides(E, x, 0, n);
    assert Signed(0, n) == 0;
  }

  lemma LogicCode(op: AluOp, n: opsize, s: State)
    ensures var rax, rdi := SubReg(RAX, n), SubReg(RDI, n);
            var c := [Alu(op, rax, rdi), CmpZero(rax), SetCC(NE, SubReg(RAX, 1))];
            var v := AluResult(op, s.regs.rax % Modulus(n), s.regs.rdi % Modulus(n), n);
            ExecAll(c, s).Some? && OnlyResult(s, ExecAll(c, s).value) &&
            ExecAll(c, s).value.regs.rax % Modulus(n) == Verdict(v, v != 0, n)
  {
    hide Exec, ExecAll, AluResult, Verdict;
    var rax, rdi := SubReg(RAX, n), SubReg(RDI, n);
    var i, test := Alu(op, rax, rdi), [CmpZero(rax), SetCC(NE, SubReg(RAX, 1))];
    AluCode(op, n, s);
    var t := Exec(i, s).value;
    ExecOne(i, s);
    TestCode(n, t);
    ExecAllAppend([i], test, s, t);
    assert [i, CmpZero(rax), SetCC(NE, SubReg(RAX, 1))] == [i] + test;
  }

  /** Whether rax is not zero goes to its lowest byte. */
  lemma TestCode(n: opsize, s: State)
    ensures var c, v := [CmpZero(SubReg(RAX, n)), SetCC(NE, SubReg(RAX, 1))], s.regs.rax % Modulus(n);
            ExecAll(c, s).Some? && OnlyResult(s, ExecAll(c, s).value) &&
            ExecAll(c, s).value.regs.rax % Modulus(n) == Verdict(v, v != 0, n)
  {
    hide ExecAll, Compare, Verdict;
    var j, k := CmpZero(SubReg(RAX, n)), SetCC(NE, SubReg(RAX, 1));
    var u := Exec(j, s).value;
    ExecTwo(j, k, s, u);
    ZeroTest(s.regs.rax % Modulus(n), n);
    SetCode(NE, n, u);
  }

  lemma MulCode(n: opsize, s: State)
    ensures var t := Exec(ImulOne(SubReg(RDI, n)), s).value;
            OnlyResult(s, t) &&
            t.regs.rax % Modulus(n) == ((s.regs.rax % Modulus(n)) * (s.regs.rdi % Modulus(n))) % Modulus(n)
  {
    var x, y := s.regs.rax % Modulus(n), s.regs.rdi % Modulus(n);
    var p := Signed(x, n) * Signed(y, n);
    SignedProduct(x, y, n);
    if n == 1 {
      LowByteOfProduct(s.regs.rax, p);
    } else {
      UniqueMod(p % Modulus(n), Modulus(n), 0, p % Modulus(n));
    }
  }

  lemma LowByteOfProduct(x: nat, p: int)
    ensures (x - x % 0x1_0000 + p % 0x1_0000) % 256 == p % 256
  {
    var low := p % 0x1_0000;
    ModOfMultiple(low, 256 * (x / 0x1_0000), 256);
    ModOfMultiple(low, 256 * (p / 0x1_0000), 256);
  }

  /** The instructions of an operator leave its value in the low bytes of rax. */
  lemma OperatorCode(op: BinOp, n: opsize, s: State)
    requires op != Div
    ensures var c := OpCode(op, SubReg(RAX, n), SubReg(RDI, n));
            ExecAll(c, s).Some? && OnlyResult(s, ExecAll(c, s).value) &&
            ExecAll(c, s).value.regs.rax % Modulus(n) ==
              WordOp(op, s.regs.rax % Modulus(n), s.regs.rdi % Modulus(n), n)
  {
    hide Exec, ExecAll;
    match op
    case Add => AluCode(AddOp, n, s); ExecOne(Alu(AddOp, SubReg(RAX, n), SubReg(RDI, n)), s);
    case Sub => AluCode(SubOp, n, s); ExecOne(Alu(SubOp, SubReg(RAX, n), SubReg(RDI, n)), s);
    case Mul => MulCode(n, s); ExecOne(ImulOne(SubReg(RDI, n)), s); ImulRuns(n, s);
    case BitwiseOr => AluCode(OrOp, n, s); ExecOne(Alu(OrOp, SubReg(RAX, n), SubReg(RDI, n)), s);
    case BitwiseAnd => AluCode(AndOp, n, s); ExecOne(Alu(AndOp, SubReg(RAX, n), SubReg(RDI, n)), s);
    case LogOr => LogicCode(OrOp, n, s);
    case LogAnd => LogicCode(AndOp, n, s);
    case Eq => CompareCode(E, n, s);
    case Neq => CompareCode(NE, n, s);
    case Gt => CompareCode(G, n, s);
    case GtEq => CompareCode(GE, n, s);
    case Lt => CompareCode(L, n, s);
    case LtEq => CompareCode(LE, n, s);
  }

  lemma ImulRuns(n: opsize, s: State)
    ensures Exec(ImulOne(SubReg(RDI, n)), s).Some?
  {
  }

  lemma ScaleRuns(r: Reg, n: opsize, k: nat, s: State)
    requires n != 1 && (r == RAX || r == RDI)
    ensures Exec(ImulImm(SubReg(r, n), k), s).Some?
    ensures var t := Exec(ImulImm(SubReg(r, n), k), s).value;
            t.mem == s.mem && t.regs == s.regs.Set(r, t.regs.Get(r)) &&
            t.regs.Get(r) % Modulus(n) == ((s.regs.Get(r) % Modulus(n)) * k) % Modulus(n)
  {
    SetThenPart(s.regs, r, n, ((s.regs.Get(r) % Modulus(n)) * k) % Modulus(n));
  }

  /** Pointer arithmetic first turns the index into a number of bytes. */
  lemma ScalingCode(lt: Type, rt: Type, s: State)
    requires BinaryType(lt, rt).Some? && Size(lt) == Size(rt)
    ensures ExecAll(ScaleCode(lt, rt), s).Some?
    ensures var t, n := ExecAll(ScaleCode(lt, rt), s).value, Size(lt);
            t.mem == s.mem && t.regs == s.regs.(rax := t.regs.rax, rdi := t.regs.rdi) &&
            t.regs.rax % Modulus(n) == Scaled(lt, rt, s.regs.rax % Modulus(n)) &&
            t.regs.rdi % Modulus(n) == Scaled(rt, lt, s.regs.rdi % Modulus(n))
  {
    hide Exec, ExecAll;
    if lt.Pointer? && !rt.Pointer? {
      ScaleRuns(RDI, 8, Size(lt.pointee), s);
      ExecOne(ImulImm(SubReg(RDI, 8), Size(lt.pointee)), s);
    } else if !lt.Pointer? && rt.Pointer? {
      ScaleRuns(RAX, 8, Size(rt.pointee), s);
      ExecOne(ImulImm(SubReg(RAX, 8), Size(rt.pointee)), s);
    } else {
      ExecNothing(s);
    }
  }

  lemma ExecNothing(s: State)
    ensures ExecAll([], s) == Some(s)
  {
  }

  lemma PopRuns(s: State)
    requires s.regs.rsp + 8 < TWO_64
    ensures Exec(Pop(RDI), s).Some?
    ensures var t := Exec(Pop(RDI), s).value;
            t.mem == s.mem && t.pc == s.pc + 1 && t.regs == s.regs.(rsp := s.regs.rsp + 8, rdi := t.regs.rdi) &&
            t.regs.rdi == Load(s.mem, s.regs.rsp, 8)
  {
    ModulusIsPow256(8);
  }

  /** The tail of a binary operation: with the left operand in rax and the right one on top of the
      stack it leaves the operation's value in rax and takes the operand off the stack. */
  lemma BinaryTailCode(op: BinOp, lt: Type, rt: Type, l: nat, r: nat, s: State)
    requires BinaryType(lt, rt).Some? && Size(lt) == Size(rt) && op != Div
    requires s.regs.rsp + 8 < TWO_64
    requires s.regs.rax % Modulus(Size(lt)) == l && Load(s.mem, s.regs.rsp, 8) % Modulus(Size(rt)) == r
    ensures ExecAll(BinaryTail(op, lt, rt), s).Some?
    ensures var t := ExecAll(BinaryTail(op, lt, rt), s).value;
            t.mem == s.mem &&
            t.regs == s.regs.(rsp := s.regs.rsp + 8, rax := t.regs.rax, rdi := t.regs.rdi, rdx := t.regs.rdx) &&
            t.regs.rax % Modulus(Size(BinaryType(lt, rt).value)) == BinaryValue(op, lt, rt, l, r) &&
            t.regs.rdi % Modulus(Size(rt)) == Scaled(rt, lt, r)
  {
    hide Exec, ExecAll;
    var pop, scale, ops := [Pop(RDI)], ScaleCode(lt, rt), OpCode(op, Operand(RAX, lt), Operand(RDI, rt));
    PopRuns(s);
    ExecOne(Pop(RDI), s);
    var s1 := Exec(Pop(RDI), s).value;
    ScalingCode(lt, rt, s1);
    var s2 := ExecAll(scale, s1).value;
    ExecAllAppend(pop, scale, s, s1);
    OperatorCode(op, Size(lt), s2);
    ExecAllAppend(pop + scale, ops, s, s2);
  }
}
