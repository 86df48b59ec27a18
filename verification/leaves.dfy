/** Code without recursion: literals, names, unary operators, stores. */
module Leaves {
  import opened Types
  import opened Memory
  import opened Words
  import opened Syntax
  import opened Typing
  import opened Machine
  import opened Emission
  import opened Semantics
  import opened Operators
  import opened Relation

  lemma AtOne(code: Code, p: int, i: Instr)
    requires At(code, p, [i])
    ensures p < |code| && code[p] == i
  {
    assert code[p] == code[p..p + 1][0];
  }

  /** One instruction that falls through, where it stands in the code. */
  lemma RunOne(w: World, s: State, i: Instr, t: State)
    requires At(w.code, s.pc, [i]) && !IsControl(i) && Exec(i, s) == Some(t)
    ensures Run(w.code, 1, s) == Some(t) && t.pc == s.pc + 1
  {
    hide Exec, Step;
    AtOne(w.code, s.pc, i);
    ExecPc(i, s);
    StepExec(w.code, s);
  }

  /** One instruction that leaves memory and the stack pointer alone. */
  lemma RunQuiet(w: World, s: State, i: Instr, t: State, hi: int, acc: set<int>)
    requires At(w.code, s.pc, [i]) && !IsControl(i) && Exec(i, s) == Some(t)
    requires w.c.limit <= s.regs.rsp <= hi && t.mem == s.mem && t.regs.rsp == s.regs.rsp
    ensures Run(w.code, 1, s) == Some(t) && t.pc == s.pc + 1 && Stays(w, 1, s, hi, acc)
  {
    hide Exec, Step, Run, Stays;
    RunOne(w, s, i, t);
    QuietStays(w, s, t, hi, acc);
  }

  lemma RunTwo(w: World, s: State, i: Instr, j: Instr, t: State, u: State, hi: int, acc: set<int>)
    requires At(w.code, s.pc, [i, j]) && !IsControl(i) && !IsControl(j)
    requires Exec(i, s) == Some(t) && Exec(j, t) == Some(u)
    requires w.c.limit <= s.regs.rsp <= hi && InStack(w, s, t, hi, acc) && InStack(w, s, u, hi, acc)
    ensures Run(w.code, 2, s) == Some(u) && u.pc == s.pc + 2 && Stays(w, 2, s, hi, acc)
  {
    hide Exec, Step, Run, Stays;
    assert [i, j] == [i] + [j];
    AtSplit(w.code, s.pc, [i], [j]);
    RunOne(w, s, i, t);
    RunOne(w, t, j, u);
    OneStays(w, s, t, hi, acc);
    OneStays(w, t, u, hi, acc);
    Follow(w, 1, 1, s, t, hi, acc);
  }

  /** Straight-line code each of whose steps keeps the stack discipline. */
  ghost predicate Disciplined(w: World, c: Code, s: State, hi: int, acc: set<int>) {
    c == [] || IsControl(c[0]) || Exec(c[0], s).None? ||
    (InStack(w, s, Exec(c[0], s).value, hi, acc) && Disciplined(w, c[1..], Exec(c[0], s).value, hi, acc))
  }

  lemma {:induction false} RunDisciplined(w: World, c: Code, s: State, t: State, hi: int, acc: set<int>)
    requires At(w.code, s.pc, c) && ExecAll(c, s) == Some(t)
    requires w.c.limit <= s.regs.rsp <= hi && Disciplined(w, c, s, hi, acc)
    ensures Run(w.code, |c|, s) == Some(t) && t.pc == s.pc + |c| && Stays(w, |c|, s, hi, acc)
    decreases |c|
  {
    hide Exec, Step, Run, Stays;
    if c == [] {
      RunNothing(w, s, hi, acc);
    } else {
      var u := Exec(c[0], s).value;
      assert [c[0]] + c[1..] == c;
      AtSplit(w.code, s.pc, [c[0]], c[1..]);
      RunOne(w, s, c[0], u);
      OneStays(w, s, u, hi, acc);
      RunDisciplined(w, c[1..], u, t, hi, acc);
      Follow(w, 1, |c| - 1, s, u, hi, acc);
    }
  }

  lemma {:induction false} DisciplinedAppend(w: World, c0: Code, c1: Code, s: State, t: State, hi: int, acc: set<int>)
    requires ExecAll(c0, s) == Some(t) && Disciplined(w, c0, s, hi, acc) && Disciplined(w, c1, t, hi, acc)
    ensures Disciplined(w, c0 + c1, s, hi, acc)
    decreases |c0|
  {
    hide Exec, InStack;
    if c0 == [] {
      assert c0 + c1 == c1;
    } else {
      assert (c0 + c1)[1..] == c0[1..] + c1;
      DisciplinedAppend(w, c0[1..], c1, Exec(c0[0], s).value, t, hi, acc);
    }
  }

  /** Instructions that work on registers other than the stack pointer. */
  predicate OnRegisters(i: Instr) {
    match i
    case MovImm(dst, _) => dst.reg != RSP
    case Mov(dst, _) => dst.reg != RSP
    case Alu(_, dst, _) => dst.reg != RSP
    case ImulImm(dst, _) => dst.reg != RSP
    case ImulOne(_) => true
    case Cmp(_, _) => true
    case CmpZero(_) => true
    case SetCC(_, dst) => dst.reg != RSP
    case LocalLabel(_) => true
    case GlobalLabel(_) => true
    case _ => false
  }

  lemma RegistersOnly(i: Instr, s: State)
    requires OnRegisters(i) && Exec(i, s).Some?
    ensures Exec(i, s).value.mem == s.mem && Exec(i, s).value.regs.rsp == s.regs.rsp
  {
  }

  lemma {:induction false} RegistersDisciplined(w: World, c: Code, s: State, hi: int, acc: set<int>)
    requires forall k | 0 <= k < |c| :: OnRegisters(c[k])
    requires w.c.limit <= s.regs.rsp <= hi
    ensures Disciplined(w, c, s, hi, acc)
    decreases |c|
  {
    hide Exec;
    if c != [] && !IsControl(c[0]) && Exec(c[0], s).Some? {
      RegistersOnly(c[0], s);
      RegistersDisciplined(w, c[1..], Exec(c[0], s).value, hi, acc);
    }
  }

  /** A literal of one or four bytes survives printing; one of eight bytes does when it is small. */
  lemma LiteralPrinted(k: NumberKind, n: nat)
    requires k.NumLong? ==> n < 0x8000_0000
    ensures Printed(n) % Modulus(Size(LiteralType(k))) == n % Modulus(Size(LiteralType(k)))
  {
    var m, low := Modulus(Size(LiteralType(k))), n % TWO_32;
    var q := n / TWO_32;
    if k.NumLong? {
      UniqueMod(n, TWO_32, 0, n);
    } else {
      var c := TWO_32 / m;
      assert TWO_32 == m * c;
      var back := if 2 * low < TWO_32 then 0 else 1;
      assert Printed(n) == n + (-(q + back) * c) * m;
      ModOfMultiple(n, -(q + back) * c, m);
    }
  }

  lemma NumSim(w: World, fuel: nat, e: Expr, a: Act, sp: int, mem: Mem, s: State) returns (n: nat, t: State)
    requires e.Num? && Supported(e, a.env) && At(w.code, s.pc, ExprCode(e, a.env)) && Ready(w, s, a, sp, mem)
    ensures Yields(w, n, s, t, fuel, Eval(w.c, fuel, e, a, sp, mem), sp, a.acc, s.pc + |ExprCode(e, a.env)|,
            Size(Ty(e, a.env)), true)
  {
    var dst := Operand(RAX, LiteralType(e.kind));
    var i := MovImm(dst, Printed(e.value));
    n, t := 1, Exec(i, s).value;
    RunQuiet(w, s, i, t, sp, a.acc);
    SetThenPart(s.regs, RAX, dst.size, Printed(e.value) % Modulus(dst.size));
    LiteralPrinted(e.kind, e.value);
    SettledAtOnce(w, s, t, a, mem, sp);
  }

  lemma SlotAddress(s: State, base: int, offset: nat)
    requires s.regs.rbp == base && 0 <= base - offset
    ensures Address(s.regs, RBP, Below(offset)) == base - offset
  {
    UniqueMod(base - offset, TWO_64, 0, base - offset);
  }

  /** Loading n bytes from a readable address puts their value in the low bytes of rax. */
  lemma LoadRuns(w: World, s: State, a: Act, sp: int, mem: Mem, i: Instr, at: int, n: opsize) returns (t: State)
    requires Ready(w, s, a, sp, mem) && Readable(mem, at, n)
    requires i.LoadFrom? && i.dst == SubReg(RAX, n) && Address(s.regs, i.base, i.disp) == at
    ensures Exec(i, s) == Some(t) && SameButResult(s, t) && SameArgRegs(s.regs, t.regs)
    ensures t.regs.rax % Modulus(n) == Load(mem, at, n)
  {
    hide Load, Store;
    LoadAgrees(w, s, a, sp, mem, at, n);
    ModulusIsPow256(n);
    SetThenPart(s.regs, RAX, n, Load(s.mem, at, n));
    t := Exec(i, s).value;
  }

  lemma IdentSim(w: World, fuel: nat, e: Expr, a: Act, sp: int, mem: Mem, s: State) returns (n: nat, t: State)
    requires e.Ident? && e.name in a.env && !a.env[e.name].Routine?
    requires Supported(e, a.env) && At(w.code, s.pc, ExprCode(e, a.env)) && Ready(w, s, a, sp, mem)
    ensures Yields(w, n, s, t, fuel, Eval(w.c, fuel, e, a, sp, mem), sp, a.acc, s.pc + |ExprCode(e, a.env)|,
            Size(Ty(e, a.env)), true)
  {
    hide Load, Store, Exec, Step;
    var y := a.env[e.name];
    var at, k := a.base - y.offset, Size(y.ty);
    n, t := 1, s;
    if Readable(mem, at, k) {
      LoadAgrees(w, s, a, sp, mem, at, k);
      SlotAddress(s, a.base, y.offset);
      var i := LoadFrom(Operand(RAX, y.ty), RBP, Below(y.offset));
      t := LoadRuns(w, s, a, sp, mem, i, at, k);
      RunQuiet(w, s, i, t, sp, a.acc);
      SettledAtOnce(w, s, t, a, mem, sp);
    }
  }

  ghost predicate Resolved(w: World) {
    |w.code| < TWO_64 && forall x :: x in w.c.link ==> EntryPoint(w.code, x) == Some(w.c.link[x] as int)
  }

  /** Naming a procedure gives its address. */
  lemma RoutineSim(w: World, fuel: nat, x: string, a: Act, sp: int, mem: Mem, s: State) returns (n: nat, t: State)
    requires Resolved(w) && At(w.code, s.pc, [MovProc(x)]) && Ready(w, s, a, sp, mem)
    ensures Yields(w, n, s, t, fuel, ProcAddress(w.c, x, mem), sp, a.acc, s.pc + 1, 8, true)
  {
    n, t := 1, s;
    if x in w.c.link {
      AtOne(w.code, s.pc, MovProc(x));
      t := s.(regs := s.regs.Set(RAX, w.c.link[x]), pc := s.pc + 1);
      RunStep(w.code, s, t);
      QuietStays(w, s, t, sp, a.acc);
      SettledAtOnce(w, s, t, a, mem, sp);
      UniqueMod(w.c.link[x], TWO_64, 0, w.c.link[x]);
    }
  }

  /** Taking a variable's address. */
  lemma SlotAddrSim(w: World, fuel: nat, offset: nat, a: Act, sp: int, mem: Mem, s: State) returns (n: nat, t: State)
    requires At(w.code, s.pc, [Lea(RAX, RBP, Below(offset))]) && Ready(w, s, a, sp, mem)
    ensures Yields(w, n, s, t, fuel, Done((a.base - offset) % TWO_64, mem), sp, a.acc, s.pc + 1, 8, true)
  {
    var i := Lea(RAX, RBP, Below(offset));
    n, t := 1, Exec(i, s).value;
    RunQuiet(w, s, i, t, sp, a.acc);
    SettledAtOnce(w, s, t, a, mem, sp);
    UniqueMod(t.regs.rax, TWO_64, 0, t.regs.rax);
  }

  lemma NotCode(s: State, v: nat) returns (t: State, u: State)
    requires s.regs.rax % Modulus(1) == v
    ensures Exec(CmpZero(SubReg(RAX, 1)), s) == Some(t)
    ensures Exec(SetCC(E, SubReg(RAX, 1)), t) == Some(u)
    ensures t.mem == s.mem && t.regs == s.regs
    ensures SameButResult(s, u) && SameArgRegs(s.regs, u.regs) && u.regs.rax % Modulus(1) == Bit(v == 0)
  {
    t := Exec(CmpZero(SubReg(RAX, 1)), s).value;
    u := Exec(SetCC(E, SubReg(RAX, 1)), t).value;
    ZeroTest(v, 1);
    SetThenPart(t.regs, RAX, 1, Bit(Holds(E, t.flags)));
  }

  lemma MinusCode(s: State, n: opsize, v: nat) returns (t: State)
    requires s.regs.rax % Modulus(n) == v && n != 1
    ensures Exec(ImulImm(SubReg(RAX, n), -1), s) == Some(t)
    ensures SameButResult(s, t) && SameArgRegs(s.regs, t.regs)
    ensures t.regs.rax % Modulus(n) == (0 - v as int) % Modulus(n)
  {
    t := Exec(ImulImm(SubReg(RAX, n), -1), s).value;
    assert v * -1 == 0 - v as int;
    SetThenPart(s.regs, RAX, n, (v * -1) % Modulus(n));
  }

  /** The value of a unary operator, given its operand; dereferencing reads all eight bytes, of which
      the low ones are the object's. */
  lemma UnaryTailSim(w: World, fuel: nat, op: UnaryOp, ot: Type, rt: Type, v: nat, a: Act, sp: int, mem: Mem, s: State)
    returns (n: nat, t: State)
    requires !op.AddrOf? && (op.Not? ==> ot.Char? && rt.Char?) && (op.Minus? ==> ot == rt && Size(ot) >= 4)
    requires op.Deref? ==> ot.Pointer? && rt == ot.pointee && HasSize(rt)
    requires s.regs.rax % Modulus(Size(ot)) == v
    requires At(w.code, s.pc, UnaryTail(op, ot)) && Ready(w, s, a, sp, mem)
    ensures var r := if op.Deref? then ReadFrom(mem, v, Size(rt))
                     else Done(if op.Not? then Bit(v == 0) as int else (0 - v as int) % Modulus(Size(rt)), mem);
            Yields(w, n, s, t, fuel, r, sp, a.acc, s.pc + |UnaryTail(op, ot)|, Size(rt), true)
  {
    hide Load, Store, Exec, Step;
    n, t := 0, s;
    match op
    case AddrOf =>
    case Not =>
      var t1;
      t1, t := NotCode(s, v);
      n := 2;
      RunTwo(w, s, CmpZero(SubReg(RAX, 1)), SetCC(E, SubReg(RAX, 1)), t1, t, sp, a.acc);
      SettledAtOnce(w, s, t, a, mem, sp);
    case Minus =>
      t := MinusCode(s, Size(ot), v);
      n := 1;
      RunQuiet(w, s, ImulImm(Operand(RAX, ot), -1), t, sp, a.acc);
      SettledAtOnce(w, s, t, a, mem, sp);
    case Deref =>
      if Readable(mem, v, Size(rt)) {
        t := DerefCode(w, v, Size(rt), a, sp, mem, s);
        n := 1;
        RunQuiet(w, s, LoadFrom(SubReg(RAX, 8), RAX, 0), t, sp, a.acc);
        SettledAtOnce(w, s, t, a, mem, sp);
      }
  }

  lemma DerefCode(w: World, v: nat, k: opsize, a: Act, sp: int, mem: Mem, s: State) returns (t: State)
    requires s.regs.rax % TWO_64 == v && Ready(w, s, a, sp, mem) && Readable(mem, v, k)
    ensures Exec(LoadFrom(SubReg(RAX, 8), RAX, 0), s) == Some(t)
    ensures SameButResult(s, t) && SameArgRegs(s.regs, t.regs)
    ensures t.regs.rax % Modulus(k) == Load(mem, v, k)
  {
    hide Load, Store;
    LoadAgrees(w, s, a, sp, mem, v, k);
    UniqueMod(s.regs.rax, TWO_64, 0, s.regs.rax);
    LoadLow(s.mem, v, 8, k);
    ModulusIsPow256(k);
    ModulusIsPow256(8);
    t := Exec(LoadFrom(SubReg(RAX, 8), RAX, 0), s).value;
  }

  /** Storing the low n bytes of a register to a writable address. */
  lemma StoreRuns(w: World, s: State, t: State, a: Act, sp: int, mem: Mem, m1: Mem, i: Instr, at: int, n: opsize,
                  v: nat)
    returns (u: State)
    requires Ready(w, s, a, sp, mem) && Settled(w, s, t, m1, sp) && mem.Keys <= m1.Keys <= a.acc
    requires Writable(a.acc, at, n)
    requires i.StoreTo? && i.src.size == n && Address(t.regs, i.base, i.disp) == at
    requires t.regs.Part(i.src) == v
    ensures Exec(i, t) == Some(u) && u.regs == t.regs && u.pc == t.pc + 1 && u.mem == Store(t.mem, at, n, v)
    ensures Settled(w, s, u, Store(m1, at, n, v), sp)
  {
    hide Load, Store;
    assert at in a.acc;
    u := Exec(i, t).value;
    StoreSettles(w, s, t, u, a, sp, mem, m1, at, n, v);
  }
}
