/** Where the compiled code does what the operators promise, and where it does not: exact conditions. */
module Limits {
  import opened Types
  import opened Memory
  import opened Words
  import opened Syntax
  import opened Typing
  import opened Machine
  import opened Emission
  import opened Semantics
  import opened Operators
  import opened Relation
  import opened Leaves
  import opened Control
  import opened Simulation
  import opened Codegen
  import opened Expand

  predicate IsComparison(op: BinOp) {
    ConditionOf(op).Some?
  }

  /** What a comparison is meant to say about two n-byte words, as signed numbers. */
  predicate Compares(op: BinOp, x: nat, y: nat, n: nat) {
    var a, b := Signed(x, n), Signed(y, n);
    (op == Eq && a == b) || (op == Neq && a != b) || (op == Lt && a < b) || (op == LtEq && a <= b) ||
    (op == Gt && a > b) || (op == GtEq && a >= b)
  }

  /** A verdict in the lowest byte is all there is if and only if the bytes above it are zero. */
  lemma VerdictExact(x: nat, b: bool, n: opsize, meant: bool)
    requires x < Modulus(n)
    ensures Verdict(x, b, n) == Bit(meant) <==> x < 256 && b == meant
    ensures Truth(Verdict(x, b, n)) <==> x >= 256 || b
  {
  }

  /** A comparison is 0 or 1 if and only if the left operand is below 256: only the lowest byte of
      the register is set. For char operands that is always so. */
  lemma ComparisonExact(op: BinOp, x: nat, y: nat, n: opsize)
    requires IsComparison(op) && x < Modulus(n) && y < Modulus(n)
    ensures WordOp(op, x, y, n) == Bit(Compares(op, x, y, n)) <==> x < 256
    ensures n == 1 ==> x < 256
  {
    VerdictExact(x, Compares(op, x, y, n), n, Compares(op, x, y, n));
  }

  /** As a condition, a comparison holds if it should, and also whenever the left operand has a bit
      above its lowest byte. */
  lemma ComparisonAsCondition(op: BinOp, x: nat, y: nat, n: opsize)
    requires IsComparison(op) && x < Modulus(n) && y < Modulus(n)
    ensures Truth(WordOp(op, x, y, n)) <==> Compares(op, x, y, n) || x >= 256
  {
    VerdictExact(x, Compares(op, x, y, n), n, true);
  }

  lemma SmallOr(x: nat, y: nat)
    ensures BitOr(x, y) < 256 <==> x < 256 && y < 256
  {
    if x < 256 && y < 256 {
      assert Pow2(8) == 256 by {
        Pow2OfBytes(1);
        ModulusIsPow256(1);
      }
      BitOrBound(x, y, 8);
    }
  }

  /** `||` is 0 or 1 if and only if both operands are below 256; as a condition it is always right. */
  lemma LogicalOrExact(x: nat, y: nat, n: opsize)
    requires x < Modulus(n) && y < Modulus(n)
    ensures WordOp(LogOr, x, y, n) == Bit(x != 0 || y != 0) <==> x < 256 && y < 256
    ensures Truth(WordOp(LogOr, x, y, n)) <==> x != 0 || y != 0
  {
    hide BitOr, BitAnd, Verdict;
    BitwiseBound(x, y, n);
    SmallOr(x, y);
    VerdictExact(BitOr(x, y), BitOr(x, y) != 0, n, x != 0 || y != 0);
  }

  /** `&&` is 0 or 1 and right if and only if an operand is zero or the operands share a bit, and no
      bit above the lowest byte; as a condition it is right if and only if they share a bit or one is zero. */
  lemma LogicalAndExact(x: nat, y: nat, n: opsize)
    requires x < Modulus(n) && y < Modulus(n)
    ensures WordOp(LogAnd, x, y, n) == Bit(x != 0 && y != 0) <==> x == 0 || y == 0 || 0 < BitAnd(x, y) < 256
    ensures (Truth(WordOp(LogAnd, x, y, n)) <==> x != 0 && y != 0) <==> x == 0 || y == 0 || BitAnd(x, y) != 0
  {
    hide BitOr, BitAnd, Verdict;
    BitwiseBound(x, y, n);
    VerdictExact(BitAnd(x, y), BitAnd(x, y) != 0, n, x != 0 && y != 0);
  }

  /** On truth values, 0 and 1, both operators are the logical ones. */
  lemma LogicalOnBits(p: bool, q: bool, n: opsize)
    ensures WordOp(LogAnd, Bit(p), Bit(q), n) == Bit(p && q)
    ensures WordOp(LogOr, Bit(p), Bit(q), n) == Bit(p || q)
  {
    hide BitOr, BitAnd, WordOp;
    BitwiseOnBits(p, q);
    LogicalAndExact(Bit(p), Bit(q), n);
    LogicalOrExact(Bit(p), Bit(q), n);
  }

  /** The half of a dividend above ax that makes it the number in ax. */
  function SignExtension(x: nat, n: opsize): nat {
    if 2 * x < Modulus(n) then 0 else Modulus(n) - 1
  }

  function HighHalf(rs: Regs, n: opsize): nat {
    if n == 1 then (rs.rax / 256) % 256 else rs.rdx % Modulus(n)
  }

  /** Two numbers that share a quotient differ by less than twice the divisor. */
  lemma SameQuotient(a: int, b: int, y: int, m: int, e: int)
    requires y != 0 && 2 * Abs(y) <= m && a - b == e * m && Truncated(a, y) == Truncated(b, y)
    ensures e == 0
  {
    hide Truncated;
    TruncatedRest(a, y);
    TruncatedRest(b, y);
    assert -m < a - b < m;
    MulGrows(m, e);
    assert e * m == m * e;
  }

  lemma SameResidue(q: int, v: int, n: opsize)
    requires FitsSigned(q, n) && FitsSigned(v, n) && q % Modulus(n) == v % Modulus(n)
    ensures q == v
  {
    if n == 1 {
      assert q == 256 * (q / 256) + q % 256 && v == 256 * (v / 256) + v % 256;
    } else if n == 4 {
      assert q == TWO_32 * (q / TWO_32) + q % TWO_32 && v == TWO_32 * (v / TWO_32) + v % TWO_32;
    } else {
      assert q == TWO_64 * (q / TWO_64) + q % TWO_64 && v == TWO_64 * (v / TWO_64) + v % TWO_64;
    }
  }

  lemma DividendExact(rs: Regs, n: opsize)
    ensures HighHalf(rs, n) < Modulus(n)
    ensures exists e: int :: Dividend(rs, n) - Signed(rs.rax % Modulus(n), n) == e * Modulus(n) &&
                             (e == 0 <==> HighHalf(rs, n) == SignExtension(rs.rax % Modulus(n), n))
  {
    var x := rs.rax % Modulus(n);
    var e := Signed(HighHalf(rs, n), n) + if 2 * x < Modulus(n) then 0 else 1;
    assert Dividend(rs, n) - Signed(x, n) == e * Modulus(n);
  }

  /** What the instruction leaves is the quotient of the operands if and only if the bytes above the
      left operand extend its sign. */
  lemma IdivExact(s: State, n: opsize)
    requires var x, y := Signed(s.regs.rax % Modulus(n), n), Signed(s.regs.rdi % Modulus(n), n);
             y != 0 && FitsSigned(Truncated(x, y), n)
    ensures var x, y := Signed(s.regs.rax % Modulus(n), n), Signed(s.regs.rdi % Modulus(n), n);
            var t := Exec(Idiv(SubReg(RDI, n)), s);
            (t.Some? && t.value.regs.rax % Modulus(n) == Truncated(x, y) % Modulus(n)) <==>
            HighHalf(s.regs, n) == SignExtension(s.regs.rax % Modulus(n), n)
  {
    hide Truncated, Signed, Dividend, HighHalf, SignExtension;
    var x, y := Signed(s.regs.rax % Modulus(n), n), Signed(s.regs.rdi % Modulus(n), n);
    var d := Dividend(s.regs, n);
    DividendExact(s.regs, n);
    var e :| d - x == e * Modulus(n) && (e == 0 <==> HighHalf(s.regs, n) == SignExtension(s.regs.rax % Modulus(n), n));
    QuotientLeft(s, n);
    if e == 0 {
      assert d == x;
    } else if FitsSigned(Truncated(d, y), n) && Truncated(d, y) % Modulus(n) == Truncated(x, y) % Modulus(n) {
      SameResidue(Truncated(d, y), Truncated(x, y), n);
      SignedSmall(s.regs.rdi % Modulus(n), n);
      SameQuotient(d, x, y, Modulus(n), e);
    }
  }

  lemma SignedSmall(y: nat, n: opsize)
    requires y < Modulus(n)
    ensures 2 * Abs(Signed(y, n)) <= Modulus(n)
  {
  }

  /** What the instruction does, in the low bytes of rax. */
  lemma QuotientLeft(s: State, n: opsize)
    requires Signed(s.regs.rdi % Modulus(n), n) != 0
    ensures var t, y := Exec(Idiv(SubReg(RDI, n)), s), Signed(s.regs.rdi % Modulus(n), n);
            var q := Truncated(Dividend(s.regs, n), y);
            (t.Some? <==> FitsSigned(q, n)) && (t.Some? ==> t.value.regs.rax % Modulus(n) == q % Modulus(n))
  {
    hide Truncated, Signed, Dividend;
    var y := Signed(s.regs.rdi % Modulus(n), n);
    var q := Truncated(Dividend(s.regs, n), y);
    if n == 1 {
      var r := Dividend(s.regs, n) - y * q;
      var high := s.regs.rax / 0x1_0000;
      assert s.regs.rax - s.regs.rax % 0x1_0000 == high * 0x1_0000;
      UniqueMod(q % 256 + 256 * (r % 256), 0x1_0000, 0, q % 256 + 256 * (r % 256));
      UniqueMod(high * 0x1_0000 + q % 256 + 256 * (r % 256), 256, high * 256 + r % 256, q % 256);
    } else {
      UniqueMod(q % Modulus(n), Modulus(n), 0, q % Modulus(n));
    }
  }

  lemma IdivKeeps(s: State, n: opsize)
    ensures var t := Exec(Idiv(SubReg(RDI, n)), s);
            t.Some? ==> t.value.mem == s.mem &&
                        t.value.regs == s.regs.(rax := t.value.regs.rax, rdx := t.value.regs.rdx)
  {
    hide Truncated, Signed, Dividend;
  }

  /** Taking the right operand off the stack and scaling leave the bytes above the left operand as
      they are. */
  lemma DivisionTail(lt: Type, rt: Type, s: State) returns (t: State)
    requires BinaryType(lt, rt).Some? && Size(lt) == Size(rt) && s.regs.rsp + 8 < TWO_64
    ensures ExecAll(BinaryTail(Div, lt, rt), s) == Exec(Idiv(Operand(RDI, rt)), t)
    ensures t.mem == s.mem && t.regs == s.regs.(rsp := s.regs.rsp + 8, rax := t.regs.rax, rdi := t.regs.rdi)
    ensures var n := Size(lt);
            t.regs.rax % Modulus(n) == Scaled(lt, rt, s.regs.rax % Modulus(n)) &&
            t.regs.rdi % Modulus(n) == Scaled(rt, lt, Load(s.mem, s.regs.rsp, 8) % Modulus(n)) &&
            HighHalf(t.regs, n) == HighHalf(s.regs, n)
    ensures !lt.Pointer? && !rt.Pointer? ==> t.regs.rax == s.regs.rax && t.regs.rdi == Load(s.mem, s.regs.rsp, 8)
  {
    hide Exec, ExecAll, Load;
    var pop, scale, ops := [Pop(RDI)], ScaleCode(lt, rt), [Idiv(Operand(RDI, rt))];
    PopRuns(s);
    ExecOne(Pop(RDI), s);
    var s1 := Exec(Pop(RDI), s).value;
    ScalingCode(lt, rt, s1);
    t := ExecAll(scale, s1).value;
    ExecAllAppend(pop, scale, s, s1);
    ExecAllAppend(pop + scale, ops, s, t);
    ExecOne(Idiv(Operand(RDI, rt)), t);
    ExecNothing(s1);
  }

  /** The emitted division, from the left operand in rax and the right one on the stack: for a divisor
      that is not zero and a quotient that fits, it leaves the quotient, rounded toward zero, in the
      low bytes of rax if and only if the bytes above the left operand, which no emitted instruction
      prepares, happen to extend its sign. It takes the right operand off the stack and touches
      nothing but rax, rdi and rdx. */
  lemma DivisionExact(lt: Type, rt: Type, l: nat, r: nat, s: State)
    requires BinaryType(lt, rt).Some? && Size(lt) == Size(rt) && s.regs.rsp + 8 < TWO_64
    requires s.regs.rax % Modulus(Size(lt)) == l && Load(s.mem, s.regs.rsp, 8) % Modulus(Size(rt)) == r
    requires var n := Size(lt);
             var x, y := Signed(Scaled(lt, rt, l), n), Signed(Scaled(rt, lt, r), n);
             y != 0 && FitsSigned(Truncated(x, y), n)
    ensures var n, t := Size(lt), ExecAll(BinaryTail(Div, lt, rt), s);
            var x, y := Signed(Scaled(lt, rt, l), n), Signed(Scaled(rt, lt, r), n);
            (t.Some? && t.value.regs.rax % Modulus(n) == Truncated(x, y) % Modulus(n)) <==>
            HighHalf(s.regs, n) == SignExtension(Scaled(lt, rt, l), n)
    ensures BinaryValue(Div, lt, rt, l, r) ==
              Truncated(Signed(Scaled(lt, rt, l), Size(lt)), Signed(Scaled(rt, lt, r), Size(lt))) % Modulus(Size(lt))
    ensures var t := ExecAll(BinaryTail(Div, lt, rt), s);
            t.Some? ==>
              var u := t.value;
              u.mem == s.mem && u.regs.rdi % Modulus(Size(rt)) == Scaled(rt, lt, r) &&
              u.regs == s.regs.(rsp := s.regs.rsp + 8, rax := u.regs.rax, rdi := u.regs.rdi, rdx := u.regs.rdx)
    ensures var t := ExecAll(BinaryTail(Div, lt, rt), s);
            t.Some? && !lt.Pointer? && !rt.Pointer? ==> t.value.regs.rdi == Load(s.mem, s.regs.rsp, 8)
  {
    hide Exec, ExecAll, Load, Truncated, Signed, SignExtension, HighHalf, BinaryTail;
    var t := DivisionTail(lt, rt, s);
    IdivExact(t, Size(lt));
    IdivKeeps(t, Size(lt));
  }

  /** Code without jumps, calls and procedure addresses, where it stands. */
  lemma {:induction false} RunStraight(code: Code, c: Code, s: State)
    requires At(code, s.pc, c) && forall i | i in c :: !IsControl(i) && !i.MovProc?
    ensures Run(code, |c|, s) == ExecAll(c, s)
    decreases |c|
  {
    hide Exec;
    if c != [] {
      assert [c[0]] + c[1..] == c;
      AtSplit(code, s.pc, [c[0]], c[1..]);
      AtOne(code, s.pc, c[0]);
      assert Step(code, s) == Exec(c[0], s);
      if Exec(c[0], s).Some? {
        ExecPc(c[0], s);
        RunStraight(code, c[1..], Exec(c[0], s).value);
      }
    }
  }

  lemma DivisionStraight(lt: Type, rt: Type)
    ensures forall i | i in BinaryTail(Div, lt, rt) :: !IsControl(i) && !i.MovProc?
  {
  }

  /** The value the division of two words is meant to have. */
  ghost predicate Divides(e: Expr, env: Env, l: nat, r: nat) {
    e.Binary? && e.op == Div && OperandsSupported(e, env) &&
    var lt, rt, n := Ty(e.lhs, env), Ty(e.rhs, env), Size(Ty(e.lhs, env));
    l < Modulus(n) && r < Modulus(n) &&
    var x, y := Signed(Scaled(lt, rt, l), n), Signed(Scaled(rt, lt, r), n);
    y != 0 && FitsSigned(Truncated(x, y), n)
  }

  /** A whole division, with its operands: the machine gets to the operation with both of them, and
      behind it the value is the meant one if and only if the bytes above the left operand extended
      its sign when the operation began. */
  lemma DivisionRuns(w: World, fuel: nat, e: Expr, a: Act, sp: int, mem: Mem, s: State, l: nat, r: nat)
    returns (n: nat, t: State)
    requires Linked(w) && At(w.code, s.pc, ExprCode(e, a.env)) && Ready(w, s, a, sp, mem) && RoomFor(w.c, sp)
    requires Divides(e, a.env, l, r)
    requires var q := Eval(w.c, fuel, e.rhs, a, sp, mem);
             q.Done? && q.value == r && Eval(w.c, fuel, e.lhs, a, sp - 8, q.mem).Done? &&
             Eval(w.c, fuel, e.lhs, a, sp - 8, q.mem).value == l
    ensures OperandsAt(w, n, s, t, e, a, sp, l, r,
                       Eval(w.c, fuel, e.lhs, a, sp - 8, Eval(w.c, fuel, e.rhs, a, sp, mem).mem).mem)
    ensures var lt, rt := Ty(e.lhs, a.env), Ty(e.rhs, a.env);
            var u := Run(w.code, n + |BinaryTail(Div, lt, rt)|, s);
            (u.Some? && u.value.pc == s.pc + |ExprCode(e, a.env)| &&
             u.value.regs.rax % Modulus(Size(lt)) == BinaryValue(Div, lt, rt, l, r)) <==>
            HighHalf(t.regs, Size(lt)) == SignExtension(Scaled(lt, rt, l), Size(lt))
  {
    hide Run, Exec, ExecAll, Load, Truncated, Signed, SignExtension, HighHalf, BinaryTail, Eval, Linked, Stays,
      Settled, At, ExprCode, TypeOf, Supported, Scaled, BinaryValue, Agrees, Apart;
    n, t := OperandsSim(w, fuel, e, a, sp, mem, s);
    var lt, rt := Ty(e.lhs, a.env), Ty(e.rhs, a.env);
    var tail := BinaryTail(Div, lt, rt);
    RunAdd(w.code, n, |tail|, s, t);
    DivisionStraight(lt, rt);
    RunStraight(w.code, tail, t);
    DivisionExact(lt, rt, l, r, t);
    StraightPc(tail, t);
  }

  lemma {:induction false} StraightPc(c: Code, s: State)
    ensures ExecAll(c, s).Some? ==> ExecAll(c, s).value.pc == s.pc + |c|
    decreases |c|
  {
    hide Exec;
    if c != [] && !IsControl(c[0]) && Exec(c[0], s).Some? {
      ExecPc(c[0], s);
      StraightPc(c[1..], Exec(c[0], s).value);
    }
  }

  /** A long literal reaches the register if and only if it is below 2^31. */
  lemma LongLiteralExact(n: nat)
    requires n < 0x8000_0000_0000_0000
    ensures Printed(n) % TWO_64 == n <==> n < 0x8000_0000
  {
    var low, q := n % TWO_32, n / TWO_32;
    assert n == q * TWO_32 + low;
    if n < 0x8000_0000 {
      UniqueMod(n, TWO_32, 0, n);
      UniqueMod(n, TWO_64, 0, n);
    } else if 2 * low < TWO_32 {
      UniqueMod(low, TWO_64, 0, low);
    } else {
      UniqueMod(low - TWO_32, TWO_64, -1, low - TWO_32 + TWO_64);
    }
  }

  /** The instructions that the processor has: `!` works on single bytes only and `-` on everything
      else, and an operator on operands of equal size only, except for the one-operand multiplication
      and division, which look at the right operand alone. */
  lemma OperandForms(t: Type, op: BinOp, lt: Type, rt: Type, s: State)
    requires HasSize(t) && BinaryType(lt, rt).Some? && s.regs.rsp + 8 < TWO_64 && op != Mul && op != Div
    ensures ExecAll(UnaryTail(Not, t), s).Some? <==> Size(t) == 1
    ensures ExecAll(UnaryTail(Minus, t), s).Some? <==> Size(t) != 1
    ensures ExecAll(BinaryTail(op, lt, rt), s).Some? <==> Size(lt) == Size(rt)
  {
    hide Load, ExecAll, BinaryTail;
    NotForms(t, s);
    ExecOne(ImulImm(Operand(RAX, t), -1), s);
    if Size(lt) == Size(rt) {
      BinaryTailCode(op, lt, rt, s.regs.rax % Modulus(Size(lt)), Load(s.mem, s.regs.rsp, 8) % Modulus(Size(rt)), s);
    } else {
      MixedSizes(op, lt, rt, s);
    }
  }

  lemma NotForms(t: Type, s: State)
    requires HasSize(t)
    ensures ExecAll(UnaryTail(Not, t), s).Some? <==> Size(t) == 1
  {
    hide Compare;
    var i, j := CmpZero(Operand(RAX, t)), SetCC(E, Operand(RAX, t));
    var u := Exec(i, s).value;
    ExecTwo(i, j, s, u);
  }

  lemma {:induction false} ExecAllFails(c0: Code, c1: Code, s: State)
    ensures ExecAll(c0, s).None? ==> ExecAll(c0 + c1, s).None?
    decreases |c0|
  {
    hide Exec;
    if c0 != [] {
      assert (c0 + c1)[1..] == c0[1..] + c1;
      if !IsControl(c0[0]) && Exec(c0[0], s).Some? {
        ExecAllFails(c0[1..], c1, Exec(c0[0], s).value);
      }
    }
  }

  /** An operator on registers of different size is no instruction. */
  lemma MixedOperator(op: BinOp, x: SubReg, y: SubReg, s: State)
    requires op != Mul && op != Div && x.size != y.size
    ensures ExecAll(OpCode(op, x, y), s).None?
  {
    assert !IsControl(OpCode(op, x, y)[0]) && Exec(OpCode(op, x, y)[0], s).None?;
  }

  lemma MixedSizes(op: BinOp, lt: Type, rt: Type, s: State)
    requires BinaryType(lt, rt).Some? && Size(lt) != Size(rt) && op != Mul && op != Div && s.regs.rsp + 8 < TWO_64
    ensures ExecAll(BinaryTail(op, lt, rt), s).None?
  {
    hide Load, Exec, OpCode, ExecAll;
    var pop, scale, ops := [Pop(RDI)], ScaleCode(lt, rt), OpCode(op, Operand(RAX, lt), Operand(RDI, rt));
    PopRuns(s);
    ExecOne(Pop(RDI), s);
    var s1 := Exec(Pop(RDI), s).value;
    ExecAllAppend(pop, scale, s, s1);
    var r := ExecAll(scale, s1);
    if r.None? {
      ExecAllFails(pop + scale, ops, s);
    } else {
      ExecAllAppend(pop + scale, ops, s, r.value);
      MixedOperator(op, Operand(RAX, lt), Operand(RDI, rt), r.value);
    }
  }

  /** What a type is called, whatever it points to or takes. */
  function KindName(t: Type): string {
    match t
    case Void => "void"
    case Char => "char"
    case Int => "int"
    case Long => "long"
    case Object(_) => "object"
    case Pointer(_) => "pointer"
    case Procedure(_) => "procedure"
  }

  lemma KindsDiffer(s: Type, t: Type)
    ensures SameKind(s, t) <==> KindName(s) == KindName(t)
  {
    assert "void"[0] == 'v' && "char"[0] == 'c' && "int"[0] == 'i' && "long"[0] == 'l' && "object"[0] == 'o';
    assert "pointer"[0] == 'p' && "procedure"[0] == 'p' && "pointer"[1] == 'o' && "procedure"[1] == 'r';
  }

  /** Two operands can be combined if and only if they are of the same kind and have a size, or one of
      them is a pointer to something with a size and the other one is not a pointer. The result is a
      pointer if one of them is. */
  lemma OperandKinds(l: Type, r: Type)
    requires HasSize(l) && HasSize(r)
    ensures BinaryType(l, r).Some? <==>
            KindName(l) == KindName(r) || (l.Pointer? && !r.Pointer? && HasSize(l.pointee)) ||
            (r.Pointer? && !l.Pointer? && HasSize(r.pointee))
    ensures BinaryType(l, r).Some? ==> BinaryType(l, r).value == if r.Pointer? then r else l
  {
    KindsDiffer(l, r);
  }

  /** A call whose parts are accepted is accepted if and only if it does not have more arguments than
      there are parameters, all of them with a size; it may have fewer. */
  lemma ArgumentCount(g: Guard, e: Expr, env: Env)
    requires e.Call? && Accepted(g, e.callee, env).Some? && Accepted(g, e.callee, env).value.Procedure?
    requires forall x | x in e.args :: Accepted(g, x, env).Some?
    ensures var sig := Accepted(g, e.callee, env).value.sig;
            Accepted(g, e, env) ==
              if |e.args| <= |sig.params| && forall i | 0 <= i < |e.args| :: HasSize(sig.params[i].ty)
              then Some(sig.ret)
              else None
  {
    hide Accepted;
    CallAccepted(g, e, env);
  }

  /** A plain literal is an int: it can initialise an int and nothing else, and below 2^31 it is in
      the fragment and reads back as itself. */
  lemma PlainLiteral(g: Guard, c: Ctx, fuel: nat, x: string, n: nat, off: nat, a: Act, sp: int, mem: Mem)
    requires n < 0x8000_0000 && mem.Keys <= a.acc && Writable(a.acc, a.base - off, 4)
    requires x in a.env && a.env[x] == Variable(Int, off)
    ensures forall ty :: StmtAccepted(g, VarDecl(x, ty, Some(Num(NumAny, n)), off), a.env) <==> ty == Int
    ensures var s := VarDecl(x, Int, Some(Num(NumAny, n)), off);
            var r := ExecStmt(c, fuel, s, a, sp, mem);
            SupportedStmt(s, a.env) && r.Done? && r.value == Next &&
            Eval(c, fuel, Ident(x), a, sp, r.mem) == Done(n, r.mem)
  {
    hide Load, Store;
    LoadStore(mem, a.base - off, 4, n);
    StoreKeys(mem, a.base - off, 4, n);
    ModulusIsPow256(4);
    UniqueMod(n, TWO_32, 0, n);
    var e := Num(NumAny, n);
    assert Eval(c, fuel, e, a, sp, mem) == Done(n, mem);
    assert EvalInto(c, fuel, e, 4, a.base - off, a, sp, mem) == Done(n, Store(mem, a.base - off, 4, n));
    assert Declare(c, fuel, Int, e, a.base - off, a, sp, mem) == Done(n, Store(mem, a.base - off, 4, n));
  }

  /** The kind check of an assignment as it is written lets a variable take a value if and only if
      the value is a pointer, whatever the type of the variable. */
  lemma WrittenGuard(x: string, v: Expr, env: Env)
    requires x in env && !env[x].Routine?
    ensures Accepted(AsWritten, Assign(Ident(x), v), env).Some? <==>
            Accepted(AsWritten, v, env).Some? && Accepted(AsWritten, v, env).value.Pointer?
  {
    AssignAccepted(AsWritten, Assign(Ident(x), v), env);
  }

  /** Where it goes wrong: it wrongly accepts exactly a pointer value for a variable that is none, and
      wrongly rejects exactly a value of the variable's own kind that is not a pointer. The check that
      looks at the kind the address points to is the measure. */
  lemma WrittenGuardWrong(x: string, v: Expr, vt: Type, env: Env)
    requires x in env && !env[x].Routine?
    requires Accepted(AsWritten, v, env) == Some(vt) && Accepted(Pointed, v, env) == Some(vt)
    ensures var e, t := Assign(Ident(x), v), env[x].ty;
            (Accepted(AsWritten, e, env).Some? && Accepted(Pointed, e, env).None? <==> vt.Pointer? && !t.Pointer?) &&
            (Accepted(AsWritten, e, env).None? && Accepted(Pointed, e, env).Some? <==>
               !vt.Pointer? && HasSize(vt) && SameKind(t, vt))
  {
    hide Accepted;
    AssignAccepted(AsWritten, Assign(Ident(x), v), env);
    AssignAccepted(Pointed, Assign(Ident(x), v), env);
    VariableAddress(AsWritten, x, env);
    VariableAddress(Pointed, x, env);
  }

  lemma VariableAddress(g: Guard, x: string, env: Env)
    requires x in env && !env[x].Routine?
    ensures AcceptedAddr(g, Ident(x), env) == Some(Pointer(env[x].ty))
  {
  }

  /** Of two declarations of a name in one block the first one counts. */
  lemma {:induction false} FirstDeclaration(stmts: seq<Stmt>, i: nat)
    requires i < |stmts| && stmts[i].VarDecl?
    requires forall j | 0 <= j < i :: stmts[j].VarDecl? ==> stmts[j].ident != stmts[i].ident
    ensures stmts[i].ident in Declared(stmts) &&
            Declared(stmts)[stmts[i].ident] == Variable(stmts[i].ty, stmts[i].offset)
    decreases i
  {
    if i > 0 {
      FirstDeclaration(stmts[1..], i - 1);
    }
  }

  predicate Distinct(stmts: seq<Stmt>) {
    forall i, j | 0 <= i < j < |stmts| :: stmts[i].VarDecl? && stmts[j].VarDecl? ==> stmts[i].ident != stmts[j].ident
  }

  /** Every declaration is stored where its name is looked up. */
  predicate Visible(stmts: seq<Stmt>) {
    forall i | 0 <= i < |stmts| ::
      stmts[i].VarDecl? ==>
        stmts[i].ident in Declared(stmts) &&
        Declared(stmts)[stmts[i].ident] == Variable(stmts[i].ty, stmts[i].offset)
  }

  /** With slots of their own, all declarations of a block can be seen if and only if no name is
      declared twice. */
  lemma DeclarationsVisible(stmts: seq<Stmt>)
    requires forall i, j | 0 <= i < j < |stmts| :: stmts[i].VarDecl? && stmts[j].VarDecl? ==>
             stmts[i].offset != stmts[j].offset
    ensures Visible(stmts) <==> Distinct(stmts)
  {
    if Distinct(stmts) {
      forall i | 0 <= i < |stmts| && stmts[i].VarDecl?
        ensures stmts[i].ident in Declared(stmts) &&
                Declared(stmts)[stmts[i].ident] == Variable(stmts[i].ty, stmts[i].offset)
      {
        FirstDeclaration(stmts, i);
      }
    }
  }

  lemma TwoArguments(params: seq<Param>, x: Expr, y: Expr, env: Env)
    requires |params| == 2
    ensures ArgsCode(params, [x, y], 0, env) ==
              (ExprCode(x, env) + [Mov(Operand(RDI, params[0].ty), Operand(RAX, params[0].ty))]) +
              (ExprCode(y, env) + [Mov(Operand(RSI, params[1].ty), Operand(RAX, params[1].ty))])
  {
    hide ExprCode;
    var first, second := ExprCode(x, env) + PassCode(0, params[0].ty), ExprCode(y, env) + PassCode(1, params[1].ty);
    assert [x, y][1..] == [y] && [y][1..] == [];
    assert ArgsCode(params, [], 2, env) == [];
    assert ArgsCode(params, [y], 1, env) == second + [] == second;
    assert ArgsCode(params, [x, y], 0, env) == first + second;
  }

  /** Two arguments of a call, the second of which uses rdi; both are evaluated. */
  ghost predicate Passing(w: World, fuel: nat, params: seq<Param>, x: Expr, y: Expr, a: Act, sp: int, mem: Mem,
                          s: State) {
    |params| == 2 && ArgFits(x, params[0], 0, a.env) &&
    Supported(y, a.env) && SameKind(Ty(y, a.env), params[1].ty) && HasSize(params[1].ty) &&
    Linked(w) && Ready(w, s, a, sp, mem) && At(w.code, s.pc, ArgsCode(params, [x, y], 0, a.env)) &&
    Eval(w.c, fuel, x, a, sp, mem).Done? && Eval(w.c, fuel, y, a, sp, Eval(w.c, fuel, x, a, sp, mem).mem).Done?
  }

  /** The first argument is on its way; the code of the second one comes next. */
  lemma FirstPassed(w: World, fuel: nat, params: seq<Param>, x: Expr, y: Expr, a: Act, sp: int, mem: Mem, s: State)
    returns (n: nat, t: State)
    requires Passing(w, fuel, params, x, y, a, sp, mem, s)
    ensures Run(w.code, n, s) == Some(t) && Ready(w, t, a, sp, Eval(w.c, fuel, x, a, sp, mem).mem)
    ensures t.regs.rdi % Modulus(Size(params[0].ty)) == Eval(w.c, fuel, x, a, sp, mem).value
    ensures At(w.code, t.pc, ExprCode(y, a.env))
    ensures At(w.code, t.pc + |ExprCode(y, a.env)|, [Mov(Operand(RSI, params[1].ty), Operand(RAX, params[1].ty))])
  {
    hide ExprCode, Eval, Linked, Supported, At, ArgsCode, Run, Agrees, Apart, Overlays, Stays, Ty;
    var pass, rest := [Mov(Operand(RDI, params[0].ty), Operand(RAX, params[0].ty))], ExprCode(y, a.env);
    TwoArguments(params, x, y, a.env);
    AtSplit(w.code, s.pc, ExprCode(x, a.env) + pass,
            rest + [Mov(Operand(RSI, params[1].ty), Operand(RAX, params[1].ty))]);
    n, t := ArgSim(w, fuel, params[0], x, 0, a, sp, mem, s);
    AtSplit(w.code, t.pc, rest, [Mov(Operand(RSI, params[1].ty), Operand(RAX, params[1].ty))]);
    StillReady(w, s, t, a, sp, mem, Eval(w.c, fuel, x, a, sp, mem).mem);
  }

  /** Passing the second argument itself leaves the first register alone. */
  lemma SecondPassed(w: World, n: nat, s: State, t: State, p: Param, v: nat) returns (n': nat, u: State)
    requires Run(w.code, n, s) == Some(t) && HasSize(p.ty) && t.regs.rax % Modulus(Size(p.ty)) == v
    requires At(w.code, t.pc, [Mov(Operand(RSI, p.ty), Operand(RAX, p.ty))])
    ensures Run(w.code, n', s) == Some(u) && u.regs.rdi == t.regs.rdi && u.regs.rsi % Modulus(Size(p.ty)) == v
  {
    hide Run, Exec, At;
    u := MovArg(t, 1, Size(p.ty));
    RunOne(w, t, Mov(Operand(RSI, p.ty), Operand(RAX, p.ty)), u);
    RunAdd(w.code, n, 1, s, t);
    n' := n + 1;
    assert ARG_REGS[0] == RDI && ARG_REGS[1] == RSI;
  }

  lemma BinaryIsDone(c: Ctx, fuel: nat, e: Expr, a: Act, sp: int, mem: Mem)
    requires mem.Keys <= a.acc && e.Binary? && Eval(c, fuel, e, a, sp, mem).Done?
    ensures TypeOf(e, a.env).Some? && Eval(c, fuel, e, a, sp, mem) == EvalBinary(c, fuel, e, a, sp, mem)
    ensures Eval(c, fuel, e.rhs, a, sp, mem).Done?
  {
    assert Eval(c, fuel, e, a, sp, mem) == EvalBinary(c, fuel, e, a, sp, mem);
  }

  /** Computing an operator as the second argument leaves its right operand, scaled, in the register
      of the first argument, so the first argument arrives if and only if it is equal to that. */
  lemma SecondArgumentClobbers(w: World, fuel: nat, params: seq<Param>, x: Expr, y: Expr, a: Act, sp: int, mem: Mem,
                               s: State)
    returns (n: nat, t: State)
    requires Passing(w, fuel, params, x, y, a, sp, mem, s) && y.Binary?
    ensures var first, rt := Eval(w.c, fuel, x, a, sp, mem), Ty(y.rhs, a.env);
            var right := Eval(w.c, fuel, y.rhs, a, sp, first.mem);
            right.Done? && Run(w.code, n, s) == Some(t) &&
            t.regs.rsi % Modulus(Size(params[1].ty)) == Eval(w.c, fuel, y, a, sp, first.mem).value &&
            t.regs.rdi % Modulus(Size(rt)) == Scaled(rt, Ty(y.lhs, a.env), right.value) &&
            (Size(params[0].ty) <= Size(rt) ==>
               (t.regs.rdi % Modulus(Size(params[0].ty)) == first.value <==>
                Scaled(rt, Ty(y.lhs, a.env), right.value) % Modulus(Size(params[0].ty)) == first.value))
  {
    hide ExprCode, Linked, Supported, At, ArgsCode, Run, Agrees, Apart, Overlays, Stays, Scaled, ArgFits, KeepsArgs,
      SameArgRegs;
    var n1, t1 := FirstPassed(w, fuel, params, x, y, a, sp, mem, s);
    var m1 := Eval(w.c, fuel, x, a, sp, mem).mem;
    BinaryIsDone(w.c, fuel, y, a, sp, m1);
    hide Eval, Ty, Ready, EvalBinary;
    var n2, t2 := BinarySim(w, fuel, y, a, sp, m1, t1);
    if Size(params[0].ty) <= Size(Ty(y.rhs, a.env)) {
      var right := Eval(w.c, fuel, y.rhs, a, sp, m1).value;
      ReturnedPart(t2.regs.rdi, Scaled(Ty(y.rhs, a.env), Ty(y.lhs, a.env), right), Size(Ty(y.rhs, a.env)),
                   Size(params[0].ty));
    }
    RunAdd(w.code, n1, n2, s, t1);
    n, t := SecondPassed(w, n1 + n2, s, t2, params[1], Eval(w.c, fuel, y, a, sp, m1).value);
  }

  /** Computing an assignment as the second argument leaves the target's address there. */
  lemma SecondAssignmentClobbers(w: World, fuel: nat, params: seq<Param>, x: Expr, y: Expr, a: Act, sp: int, mem: Mem,
                                 s: State)
    returns (n: nat, t: State)
    requires Passing(w, fuel, params, x, y, a, sp, mem, s) && y.Assign?
    ensures var first := Eval(w.c, fuel, x, a, sp, mem);
            var target := EvalAddr(w.c, fuel, y.target, a, sp, first.mem);
            target.Done? && Run(w.code, n, s) == Some(t) &&
            t.regs.rsi % Modulus(Size(params[1].ty)) == Eval(w.c, fuel, y, a, sp, first.mem).value &&
            t.regs.rdi == target.value &&
            (t.regs.rdi % Modulus(Size(params[0].ty)) == first.value <==>
              target.value % Modulus(Size(params[0].ty)) == first.value)
  {
    hide ExprCode, Linked, Supported, At, ArgsCode, Run, Agrees, Apart, Overlays, Stays;
    var n1, t1 := FirstPassed(w, fuel, params, x, y, a, sp, mem, s);
    var m1 := Eval(w.c, fuel, x, a, sp, mem).mem;
    assert Eval(w.c, fuel, y, a, sp, m1) == EvalAssign(w.c, fuel, y, a, sp, m1);
    hide Eval, Ty, Ready;
    var n2, t2 := AssignSim(w, fuel, y, a, sp, m1, t1);
    RunAdd(w.code, n1, n2, s, t1);
    n, t := SecondPassed(w, n1 + n2, s, t2, params[1], Eval(w.c, fuel, y, a, sp, m1).value);
  }

  /** For instance, of the arguments 1 and 2 + 3 the first one arrives as 3. */
  lemma FirstArgumentLost(w: World, fuel: nat, params: seq<Param>, a: Act, sp: int, mem: Mem, s: State)
    returns (n: nat, t: State)
    requires params == [Param("x", Int), Param("y", Int)]
    requires Passing(w, fuel, params, Num(NumInt, 1), Binary(Add, Num(NumInt, 2), Num(NumInt, 3)), a, sp, mem, s)
    ensures Run(w.code, n, s) == Some(t) && t.regs.rdi % Modulus(4) == 3
  {
    hide Linked, Supported, At, ArgsCode, Run;
    var y := Binary(Add, Num(NumInt, 2), Num(NumInt, 3));
    n, t := SecondArgumentClobbers(w, fuel, params, Num(NumInt, 1), y, a, sp, mem, s);
    assert Ty(y.rhs, a.env) == Int && Ty(y.lhs, a.env) == Int;
  }

  /** The last argument is handled last. */
  lemma {:induction false} LastArgument(params: seq<Param>, args: seq<Expr>, i: nat, env: Env)
    requires args != [] && i + |args| > 6
    ensures ArgsCode(params, args, i, env) ==
              ArgsCode(params, args[..|args| - 1], i, env) + ExprCode(args[|args| - 1], env) + [Push(RAX)]
    decreases |args|
  {
    hide ExprCode, PassCode;
    var rest := args[1..];
    if |args| == 1 {
      NoMoreArguments(params, args, i, env);
    } else {
      LastArgument(params, rest, i + 1, env);
      var init := args[..|args| - 1];
      MiddleOf(args);
      FirstOfArguments(params, args, i, env);
      FirstOfArguments(params, init, i, env);
      hide ArgsCode;
      var t := if i < |params| then params[i].ty else Void;
      Regrouped(ExprCode(args[0], env) + PassCode(i, t), ArgsCode(params, init[1..], i + 1, env),
                ExprCode(args[|args| - 1], env), [Push(RAX)]);
    }
  }

  lemma MiddleOf<T>(s: seq<T>)
    requires |s| > 1
    ensures var init, rest := s[..|s| - 1], s[1..];
            init[1..] == rest[..|rest| - 1] && init[0] == s[0] && rest[|rest| - 1] == s[|s| - 1]
  {
  }

  lemma Regrouped(a: Code, b: Code, c: Code, d: Code)
    ensures a + (b + c + d) == a + b + c + d
  {
  }

  lemma FirstOfArguments(params: seq<Param>, args: seq<Expr>, i: nat, env: Env)
    requires args != []
    ensures var t := if i < |params| then params[i].ty else Void;
            ArgsCode(params, args, i, env) ==
              (ExprCode(args[0], env) + PassCode(i, t)) + ArgsCode(params, args[1..], i + 1, env)
  {
    hide ExprCode, PassCode;
  }

  lemma NoMoreArguments(params: seq<Param>, args: seq<Expr>, i: nat, env: Env)
    requires |args| == 1 && i >= 6
    ensures ArgsCode(params, args, i, env) == ArgsCode(params, [], i, env) + ExprCode(args[0], env) + [Push(RAX)]
    ensures args[..0] == []
  {
    hide ExprCode;
    assert args[1..] == [] && ArgsCode(params, [], i + 1, env) == [] == ArgsCode(params, [], i, env);
  }

  /** The code of a call before that of its last argument. */
  function BeforeLast(e: Expr, env: Env): Code
    requires e.Call? && e.args != []
  {
    ExprCode(e.callee, env) + [Push(RAX)] + ArgsCode(ParamsOf(Ty(e.callee, env)), e.args[..|e.args| - 1], 0, env)
  }

  lemma ManyArgumentsCode(e: Expr, env: Env)
    requires e.Call? && |e.args| > 6
    ensures ExprCode(e, env) ==
              BeforeLast(e, env) + (ExprCode(e.args[|e.args| - 1], env) + [Push(RAX)] + [Pop(RAX), CallReg(RAX)])
  {
    hide Ty;
    LastArgument(ParamsOf(Ty(e.callee, env)), e.args, 0, env);
    hide ExprCode, ArgsCode;
    var args := ArgsCode(ParamsOf(Ty(e.callee, env)), e.args, 0, env);
    CallCode(e, env);
  }

  lemma CallCode(e: Expr, env: Env)
    requires e.Call?
    ensures ExprCode(e, env) ==
            ExprCode(e.callee, env) + [Push(RAX)] + ArgsCode(ParamsOf(Ty(e.callee, env)), e.args, 0, env) +
                                [Pop(RAX), CallReg(RAX)]
  {
  }

  lemma LastPlaces(code: Code, pc: nat, e: Expr, env: Env)
    requires e.Call? && |e.args| > 6 && At(code, pc, ExprCode(e, env))
    ensures var at, c := pc + |BeforeLast(e, env)|, ExprCode(e.args[|e.args| - 1], env);
            At(code, at, c) && At(code, at + |c|, [Push(RAX)]) && At(code, at + |c| + 1, [Pop(RAX), CallReg(RAX)]) &&
            pc + |ExprCode(e, env)| == at + |c| + 3
  {
    hide ExprCode, At, BeforeLast;
    var before, c := BeforeLast(e, env), ExprCode(e.args[|e.args| - 1], env);
    ManyArgumentsCode(e, env);
    AtSplit(code, pc, before, c + [Push(RAX)] + [Pop(RAX), CallReg(RAX)]);
    AtSplit(code, pc + |before|, c + [Push(RAX)], [Pop(RAX), CallReg(RAX)]);
    AtSplit(code, pc + |before|, c, [Push(RAX)]);
  }

  /** With more than six arguments the word taken off the stack before the call is the last argument
      and not the callee: the call goes to the place whose address that argument is, so an eight-byte
      last argument sends it to the callee at f if and only if it is equal to f. */
  lemma LastArgumentCalled(w: World, fuel: nat, e: Expr, pc: nat, f: nat, a: Act, sp: int, mem: Mem, s: State)
    returns (n: nat, t: State)
    requires e.Call? && |e.args| > 6 && At(w.code, pc, ExprCode(e, a.env)) && s.pc == pc + |BeforeLast(e, a.env)|
    requires Linked(w) && Ready(w, s, a, sp, mem) && RoomFor(w.c, sp) && Supported(e.args[|e.args| - 1], a.env)
    requires Eval(w.c, fuel, e.args[|e.args| - 1], a, sp, mem).Done?
    ensures var last := e.args[|e.args| - 1];
            var v := Eval(w.c, fuel, last, a, sp, mem).value;
            Run(w.code, n, s) == Some(t) && At(w.code, t.pc, [CallReg(RAX)]) && t.pc + 1 == pc + |ExprCode(e, a.env)| &&
            t.regs.rax % Modulus(Size(Ty(last, a.env))) == v && t.regs.rsp == sp &&
            (Size(Ty(last, a.env)) == 8 ==> (t.regs.rax == f <==> v == f))
  {
    hide ExprCode, Eval, Linked, Supported, At, ArgsCode, Run, Agrees, Apart, Overlays, Stays, Ty, BeforeLast,
      KeepsArgs,
      SameArgRegs;
    var last := e.args[|e.args| - 1];
    var c := ExprCode(last, a.env);
    LastPlaces(w.code, pc, e, a.env);
    var n1, t1 := ExprSim(w, fuel, last, a, sp, mem, s);
    n, t := PushedAndPopped(w, n1, s, t1);
    UniqueMod(t1.regs.rax, TWO_64, 0, t1.regs.rax);
  }

  /** A push and a pop leave rax and the stack pointer as they were. */
  lemma PushedAndPopped(w: World, n: nat, s: State, t: State) returns (n': nat, u: State)
    requires Run(w.code, n, s) == Some(t) && 8 <= t.regs.rsp
    requires At(w.code, t.pc, [Push(RAX)]) && At(w.code, t.pc + 1, [Pop(RAX), CallReg(RAX)])
    requires w.c.limit <= t.regs.rsp - 8
    ensures Run(w.code, n', s) == Some(u) && At(w.code, u.pc, [CallReg(RAX)])
    ensures u.pc == t.pc + 2 && u.regs.rax == t.regs.rax && u.regs.rsp == t.regs.rsp
  {
    hide At, Run, Exec, Load, Store, Stays;
    PushExec(t);
    RunOne(w, t, Push(RAX), PushedState(t));
    u := PopCallee(w, PushedState(t), t.regs.rsp, {});
    PushPop(t);
    RunAdd(w.code, n, 1, s, t);
    RunAdd(w.code, n + 1, 1, s, PushedState(t));
    n' := n + 1 + 1;
  }

  lemma PushPop(s: State)
    requires 8 <= s.regs.rsp
    ensures Load(PushedState(s).mem, s.regs.rsp - 8, 8) == s.regs.rax
  {
    hide Load, Store;
    LoadStore(s.mem, s.regs.rsp - 8, 8, s.regs.rax);
    ModulusIsPow256(8);
    UniqueMod(s.regs.rax, TWO_64, 0, s.regs.rax);
  }
}
