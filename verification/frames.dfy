/** Entering and leaving a procedure: return address, frame pointer, frame, parameters. */
module Frames {
  import opened Types
  import opened Memory
  import opened Words
  import opened Syntax
  import opened Typing
  import opened Machine
  import opened Emission
  import opened Semantics
  import opened Operators
  import opened Relation
  import opened Leaves

  /** After `call rax`: the return address is on the stack and the callee is next. */
  function CalledState(s: State): State
    requires 8 <= s.regs.rsp && s.pc + 1 < TWO_64
  {
    s.(regs := s.regs.(rsp := s.regs.rsp - 8), mem := Store(s.mem, s.regs.rsp - 8, 8, s.pc + 1), pc := s.regs.rax)
  }

  lemma CallRuns(w: World, s: State, acc: set<int>)
    requires At(w.code, s.pc, [CallReg(RAX)]) && w.c.limit <= s.regs.rsp - 8 && |w.code| < TWO_64
    ensures Run(w.code, 1, s) == Some(CalledState(s)) && Stays(w, 1, s, s.regs.rsp, acc)
  {
    hide Load, Store, Run, Exec, Stays;
    AtOne(w.code, s.pc, CallReg(RAX));
    ReduceDifference(s.regs.rsp - 8, TWO_64);
    RunStep(w.code, s, CalledState(s));
    OnlyBelow(s.mem, s.regs.rsp - 8, s.pc + 1);
    OneStays(w, s, CalledState(s), s.regs.rsp, acc);
  }

  /** What a word written on the stack leaves alone. */
  lemma OnlyBelow(m: Mem, at: int, v: nat)
    ensures forall x :: x < at || at + 8 <= x ==> Get(Store(m, at, 8, v), x) == Get(m, x)
  {
    hide Store;
    forall x | x < at || at + 8 <= x ensures Get(Store(m, at, 8, v), x) == Get(m, x) {
      StoreOutside(m, at, 8, v, x);
    }
  }

  /** The state after the fixed part of the prologue of a procedure with n bytes of frame. */
  function FrameState(s: State, n: nat): State
    requires 8 + n <= s.regs.rsp
  {
    var base := s.regs.rsp - 8;
    State(s.regs.(rsp := base - n, rbp := base), Compare(base, n % TWO_64, 8), Store(s.mem, base, 8, s.regs.rbp),
          s.pc + 4)
  }

  function EnterCode(name: string, n: nat): Code {
    [GlobalLabel(name), Push(RBP), Mov(SubReg(RBP, 8), SubReg(RSP, 8)), SubRsp(n)]
  }

  lemma SaveFrame(name: string, s: State) returns (t: State)
    requires 8 <= s.regs.rsp
    ensures ExecAll([GlobalLabel(name), Push(RBP)], s) == Some(t)
    ensures var base := s.regs.rsp - 8;
            t == State(s.regs.(rsp := base), s.flags, Store(s.mem, base, 8, s.regs.rbp), s.pc + 2)
  {
    hide Load, Store, ExecAll;
    var base := s.regs.rsp - 8;
    ReduceDifference(base, TWO_64);
    var s1 := s.(pc := s.pc + 1);
    t := State(s.regs.(rsp := base), s.flags, Store(s.mem, base, 8, s.regs.rbp), s.pc + 2);
    assert Exec(GlobalLabel(name), s) == Some(s1) && Exec(Push(RBP), s1) == Some(t);
    ExecTwo(GlobalLabel(name), Push(RBP), s, s1);
  }

  lemma OpenFrame(n: nat, s: State) returns (t: State)
    requires n <= s.regs.rsp
    ensures ExecAll([Mov(SubReg(RBP, 8), SubReg(RSP, 8)), SubRsp(n)], s) == Some(t)
    ensures t == State(s.regs.(rsp := s.regs.rsp - n, rbp := s.regs.rsp), Compare(s.regs.rsp, n % TWO_64, 8), s.mem,
            s.pc + 2)
  {
    hide ExecAll, Compare;
    var base := s.regs.rsp;
    UniqueMod(base, TWO_64, 0, base);
    ReduceDifference(base - n, TWO_64);
    var s1 := s.(regs := s.regs.(rbp := base), pc := s.pc + 1);
    t := State(s1.regs.(rsp := base - n), Compare(base, n % TWO_64, 8), s.mem, s.pc + 2);
    assert Exec(Mov(SubReg(RBP, 8), SubReg(RSP, 8)), s) == Some(s1) && Exec(SubRsp(n), s1) == Some(t);
    ExecTwo(Mov(SubReg(RBP, 8), SubReg(RSP, 8)), SubRsp(n), s, s1);
  }

  lemma FrameOpened(s: State, t: State, u: State, n: nat)
    requires 8 + n <= s.regs.rsp
    requires var base := s.regs.rsp - 8;
             t == State(s.regs.(rsp := base), s.flags, Store(s.mem, base, 8, s.regs.rbp), s.pc + 2)
    requires u == State(t.regs.(rsp := t.regs.rsp - n, rbp := t.regs.rsp), Compare(t.regs.rsp, n % TWO_64, 8), t.mem,
             t.pc + 2)
    ensures u == FrameState(s, n)
  {
    hide Store, Compare;
  }

  lemma EnterRuns(name: string, n: nat, s: State)
    requires 8 + n <= s.regs.rsp
    ensures ExecAll(EnterCode(name, n), s) == Some(FrameState(s, n))
  {
    hide Load, Store, Exec, ExecAll, Compare, FrameState;
    var t := SaveFrame(name, s);
    var u := OpenFrame(n, t);
    FrameOpened(s, t, u, n);
    var first, second := [GlobalLabel(name), Push(RBP)], [Mov(SubReg(RBP, 8), SubReg(RSP, 8)), SubRsp(n)];
    ExecAllAppend(first, second, s, t);
    assert EnterCode(name, n) == first + second;
  }

  /** The fixed part of the prologue stays in the free stack. */
  lemma EnterDisciplined(w: World, name: string, n: nat, s: State, hi: int, acc: set<int>)
    requires w.c.limit + 8 + n <= s.regs.rsp <= hi
    ensures Disciplined(w, EnterCode(name, n), s, hi, acc)
  {
    hide Load, Store, Exec, ExecAll, Compare, Disciplined;
    var first, second := [GlobalLabel(name), Push(RBP)], [Mov(SubReg(RBP, 8), SubReg(RSP, 8)), SubRsp(n)];
    var t := SaveFrame(name, s);
    SaveDisciplined(w, name, s, hi, acc);
    OpenDisciplined(w, n, t, hi, acc);
    DisciplinedAppend(w, first, second, s, t, hi, acc);
    assert EnterCode(name, n) == first + second;
  }

  lemma DisciplinedOne(w: World, i: Instr, s: State, t: State, hi: int, acc: set<int>)
    requires !IsControl(i) && Exec(i, s) == Some(t) && InStack(w, s, t, hi, acc)
    ensures Disciplined(w, [i], s, hi, acc)
  {
    hide Exec, InStack;
    assert [i][1..] == [];
  }

  lemma DisciplinedTwo(w: World, i: Instr, j: Instr, s: State, t: State, u: State, hi: int, acc: set<int>)
    requires !IsControl(i) && !IsControl(j) && Exec(i, s) == Some(t) && Exec(j, t) == Some(u)
    requires InStack(w, s, t, hi, acc) && InStack(w, t, u, hi, acc)
    ensures Disciplined(w, [i, j], s, hi, acc)
  {
    hide Exec, InStack, Disciplined;
    DisciplinedOne(w, i, s, t, hi, acc);
    DisciplinedOne(w, j, t, u, hi, acc);
    ExecOne(i, s);
    DisciplinedAppend(w, [i], [j], s, t, hi, acc);
    assert [i, j] == [i] + [j];
  }

  lemma SaveDisciplined(w: World, name: string, s: State, hi: int, acc: set<int>)
    requires w.c.limit + 8 <= s.regs.rsp <= hi
    ensures Disciplined(w, [GlobalLabel(name), Push(RBP)], s, hi, acc)
  {
    hide Load, Store, Disciplined;
    var base := s.regs.rsp - 8;
    ReduceDifference(base, TWO_64);
    var s1 := s.(pc := s.pc + 1);
    var t := State(s.regs.(rsp := base), s.flags, Store(s.mem, base, 8, s.regs.rbp), s.pc + 2);
    OnlyBelow(s.mem, base, s.regs.rbp);
    DisciplinedTwo(w, GlobalLabel(name), Push(RBP), s, s1, t, hi, acc);
  }

  lemma OpenDisciplined(w: World, n: nat, s: State, hi: int, acc: set<int>)
    requires w.c.limit + n <= s.regs.rsp <= hi
    ensures Disciplined(w, [Mov(SubReg(RBP, 8), SubReg(RSP, 8)), SubRsp(n)], s, hi, acc)
  {
    hide Compare, Disciplined;
    var base := s.regs.rsp;
    UniqueMod(base, TWO_64, 0, base);
    ReduceDifference(base - n, TWO_64);
    var s1 := s.(regs := s.regs.(rbp := base), pc := s.pc + 1);
    var t := State(s1.regs.(rsp := base - n), Compare(base, n % TWO_64, 8), s.mem, s.pc + 2);
    DisciplinedTwo(w, Mov(SubReg(RBP, 8), SubReg(RSP, 8)), SubRsp(n), s, s1, t, hi, acc);
  }

  /** Which argument is in which register. */
  ghost predicate ArgsIn(rs: Regs, params: seq<Param>, vs: seq<nat>, i: nat) {
    |params| == |vs| && i + |vs| <= 6 &&
    forall k :: 0 <= k < |vs| ==> rs.Get(ARG_REGS[i + k]) % Modulus(Size(params[k].ty)) == vs[k]
  }

  /** The word in which a caller passes argument number k: six registers, then the stack from `top`
      upwards. */
  function ArgWord(rs: Regs, m: Mem, top: int, k: nat): nat {
    match k
    case 0 => rs.rdi
    case 1 => rs.rsi
    case 2 => rs.rdx
    case 3 => rs.rcx
    case 4 => rs.r8
    case 5 => rs.r9
    case _ => Load(m, top + 8 * (k - 6), 8)
  }

  /** The values vs are passed as the arguments from number i on, the ones on the stack inside the
      address space; there may be any number of them. */
  ghost predicate Passed(rs: Regs, m: Mem, top: int, params: seq<Param>, vs: seq<nat>, i: nat) {
    |params| == |vs| && (i + |vs| > 6 ==> 0 <= top && top + 8 * (i + |vs| - 6) <= TWO_64) &&
    forall k :: 0 <= k < |vs| ==> ArgWord(rs, m, top, i + k) % Modulus(Size(params[k].ty)) == vs[k]
  }

  /** Arguments in their registers are passed as they should, whatever is on the stack. */
  lemma InRegistersPassed(rs: Regs, m: Mem, top: int, params: seq<Param>, vs: seq<nat>)
    requires ArgsIn(rs, params, vs, 0)
    ensures Passed(rs, m, top, params, vs, 0)
  {
    forall k | 0 <= k < |vs| ensures ArgWord(rs, m, top, 0 + k) % Modulus(Size(params[k].ty)) == vs[k] {
      assert rs.Get(ARG_REGS[0 + k]) == ArgWord(rs, m, top, k);
    }
  }

  /** Passing depends on the six registers and on the stack from `top` on only. */
  lemma SamePassed(r: Regs, q: Regs, m: Mem, m': Mem, top: int, params: seq<Param>, vs: seq<nat>, i: nat)
    requires Passed(r, m, top, params, vs, i) && SameArgRegs(r, q)
    requires forall x | top <= x :: Get(m', x) == Get(m, x)
    ensures Passed(q, m', top, params, vs, i)
  {
    hide Load;
    forall k | 0 <= k < |vs| ensures ArgWord(q, m', top, i + k) % Modulus(Size(params[k].ty)) == vs[k] {
      if i + k >= 6 {
        LoadSame(m', m, top + 8 * (i + k - 6), 8);
      }
      assert ArgWord(q, m', top, i + k) == ArgWord(r, m, top, i + k);
    }
  }

  lemma RestPassed(rs: Regs, m: Mem, top: int, params: seq<Param>, vs: seq<nat>, i: nat)
    requires Passed(rs, m, top, params, vs, i) && params != []
    ensures ArgWord(rs, m, top, i) % Modulus(Size(params[0].ty)) == vs[0]
    ensures Passed(rs, m, top, params[1..], vs[1..], i + 1)
  {
    hide ArgWord;
    assert ArgWord(rs, m, top, i + 0) % Modulus(Size(params[0].ty)) == vs[0];
    forall k | 0 <= k < |vs[1..]|
      ensures ArgWord(rs, m, top, i + 1 + k) % Modulus(Size(params[1..][k].ty)) == vs[1..][k]
    {
      assert ArgWord(rs, m, top, i + (k + 1)) % Modulus(Size(params[k + 1].ty)) == vs[k + 1];
    }
  }

  /** An argument on the stack: its low bytes go to rax. */
  lemma StackArgument(t: State, ty: Type, top: int, up: nat, i: nat, v: nat) returns (u: State)
    requires HasSize(ty) && i >= 6 && up == 16 + 8 * (i - 6) && t.regs.rbp == top - 16
    requires top + 8 * (i - 6) + 8 <= TWO_64
    requires ArgWord(t.regs, t.mem, top, i) % Modulus(Size(ty)) == v
    ensures Exec(LoadFrom(Operand(RAX, ty), RBP, up), t) == Some(u) && u.mem == t.mem
    ensures SameButResult(t, u) && SameArgRegs(t.regs, u.regs) && u.regs.Part(Operand(RAX, ty)) == v
  {
    hide Load, Store;
    var at := top + 8 * (i - 6);
    UniqueMod(at, TWO_64, 0, at);
    assert Address(t.regs, RBP, up) == at;
    LoadLow(t.mem, at, 8, Size(ty));
    ModulusIsPow256(Size(ty));
    ModulusIsPow256(8);
    SetThenPart(t.regs, RAX, Size(ty), Load(t.mem, at, Size(ty)));
    u := Exec(LoadFrom(Operand(RAX, ty), RBP, up), t).value;
  }

  /** Slots begin below the frame base, which is no live byte, so a store to one ends there. */
  lemma SlotStoreBelow(m: Mem, base: int, slot: nat, k: nat, acc: set<int>, v: nat)
    requires base !in acc && Writable(acc, base - slot, k)
    ensures forall x | base <= x :: Get(Store(m, base - slot, k, v), x) == Get(m, x)
  {
    hide Store;
    assert k <= slot || base in acc;
    forall x | base <= x ensures Get(Store(m, base - slot, k, v), x) == Get(m, x) {
      StoreOutside(m, base - slot, k, v, x);
    }
  }

  lemma ParamSim(w: World, ty: Type, slot: nat, v: nat, i: nat, up: nat, a: Act, sp: int, mem: Mem, m1: Mem, s: State,
                 t: State)
    returns (u: State)
    requires HasSize(ty) && up == 16 + 8 * (if i < 6 then 0 else i - 6)
    requires Ready(w, s, a, sp, mem) && Settled(w, s, t, m1, sp) && mem.Keys <= m1.Keys <= a.acc
    requires Writable(a.acc, a.base - slot, Size(ty)) && a.base !in a.acc
    requires ArgWord(t.regs, t.mem, a.base + 16, i) % Modulus(Size(ty)) == v
    requires i >= 6 ==> a.base + 16 + 8 * (i - 6) + 8 <= TWO_64
    ensures ExecAll(ParamCode(ty, slot, i, up), t) == Some(u) && SameArgRegs(t.regs, u.regs)
    ensures Disciplined(w, ParamCode(ty, slot, i, up), t, sp, a.acc)
    ensures Settled(w, s, u, Store(m1, a.base - slot, Size(ty), v), sp)
    ensures forall x | a.base <= x :: Get(u.mem, x) == Get(t.mem, x)
  {
    hide Load, Store, Exec, ExecAll, Ready, Settled, InStack, Disciplined, ArgWord;
    var at, k := a.base - slot, Size(ty);
    ReadyStack(w, s, t, a, sp, mem, m1);
    SlotStoreBelow(t.mem, a.base, slot, k, a.acc, v);
    if i < 6 {
      var ins := StoreTo(RBP, Below(slot), Operand(ARG_REGS[i], ty));
      RegisterArgument(t, ty, a.base + 16, i, v);
      ReadySlot(w, s, t, a, sp, mem, m1, at, slot);
      u := StoreRuns(w, s, t, a, sp, mem, m1, ins, at, k, v);
      ExecOne(ins, t);
      StoreInStack(w, t, u, sp, a.acc, at, k, v);
      DisciplinedOne(w, ins, t, u, sp, a.acc);
    } else {
      var load, ins := LoadFrom(Operand(RAX, ty), RBP, up), StoreTo(RBP, Below(slot), Operand(RAX, ty));
      var t1 := StackArgument(t, ty, a.base + 16, up, i, v);
      SettledStep(w, s, t, t1, m1, sp);
      ReadySlot(w, s, t1, a, sp, mem, m1, at, slot);
      u := StoreRuns(w, s, t1, a, sp, mem, m1, ins, at, k, v);
      ExecTwo(load, ins, t, t1);
      QuietInStack(w, t, t1, sp, a.acc);
      StoreInStack(w, t1, u, sp, a.acc, at, k, v);
      DisciplinedTwo(w, load, ins, t, t1, u, sp, a.acc);
    }
  }

  lemma QuietInStack(w: World, s: State, t: State, hi: int, acc: set<int>)
    requires w.c.limit <= s.regs.rsp <= hi && SameButResult(s, t)
    ensures InStack(w, s, t, hi, acc)
  {
  }

  lemma RegisterArgument(t: State, ty: Type, top: int, i: nat, v: nat)
    requires HasSize(ty) && i < 6 && ArgWord(t.regs, t.mem, top, i) % Modulus(Size(ty)) == v
    ensures t.regs.Part(Operand(ARG_REGS[i], ty)) == v
  {
  }

  /** The prologue stores every argument in its slot, from its register or from the caller's stack. */
  lemma {:induction false} ParamsSim(w: World, params: seq<Param>, slots: seq<nat>, vs: seq<nat>, i: nat, up: nat,
                                     a: Act, sp: int, mem: Mem, m1: Mem, s: State, t: State)
    returns (u: State)
    requires |params| == |slots| && Passed(t.regs, t.mem, a.base + 16, params, vs, i)
    requires up == 16 + 8 * (if i < 6 then 0 else i - 6)
    requires forall q :: q in params ==> HasSize(q.ty)
    requires Ready(w, s, a, sp, mem) && Settled(w, s, t, m1, sp) && mem.Keys <= m1.Keys <= a.acc
    requires a.base !in a.acc && Bind(params, slots, vs, a.base, a.acc, m1).Done?
    ensures ExecAll(ParamsCode(params, slots, i, up), t) == Some(u) && SameArgRegs(t.regs, u.regs)
    ensures Disciplined(w, ParamsCode(params, slots, i, up), t, sp, a.acc)
    ensures Settled(w, s, u, Bind(params, slots, vs, a.base, a.acc, m1).mem, sp)
    decreases |params|
  {
    hide Load, Store, Exec, ExecAll, Ready, Settled, InStack, ArgWord, Passed, Disciplined, ParamCode, Writable;
    if params == [] {
      u := t;
      ExecNothing(t);
      NothingDisciplined(w, t, sp, a.acc);
    } else {
      var k, at, next := Size(params[0].ty), a.base - slots[0], if i < 6 then up else up + 8;
      var first, rest := ParamCode(params[0].ty, slots[0], i, up), ParamsCode(params[1..], slots[1..], i + 1, next);
      FirstInRange(t.regs, t.mem, a.base + 16, params, vs, i);
      RestPassed(t.regs, t.mem, a.base + 16, params, vs, i);
      var t1 := ParamSim(w, params[0].ty, slots[0], vs[0], i, up, a, sp, mem, m1, s, t);
      StoreKeys(m1, at, k, vs[0]);
      SamePassed(t.regs, t1.regs, t.mem, t1.mem, a.base + 16, params[1..], vs[1..], i + 1);
      u := ParamsSim(w, params[1..], slots[1..], vs[1..], i + 1, next, a, sp, mem, Store(m1, at, k, vs[0]), s, t1);
      ExecAllAppend(first, rest, t, t1);
      DisciplinedAppend(w, first, rest, t, t1, sp, a.acc);
      assert ParamsCode(params, slots, i, up) == first + rest;
    }
  }

  lemma NothingDisciplined(w: World, s: State, hi: int, acc: set<int>)
    ensures Disciplined(w, [], s, hi, acc)
  {
  }

  lemma FirstInRange(rs: Regs, m: Mem, top: int, params: seq<Param>, vs: seq<nat>, i: nat)
    requires Passed(rs, m, top, params, vs, i) && params != []
    ensures |vs| == |params| && (i >= 6 ==> top + 8 * (i - 6) + 8 <= TWO_64)
  {
  }

  lemma ReadyStack(w: World, s: State, t: State, a: Act, sp: int, mem: Mem, m1: Mem)
    requires Ready(w, s, a, sp, mem) && Settled(w, s, t, m1, sp)
    ensures w.c.limit <= t.regs.rsp == sp && t.regs.rbp == a.base
  {
  }

  lemma ReadySlot(w: World, s: State, t: State, a: Act, sp: int, mem: Mem, m1: Mem, at: int, slot: nat)
    requires Ready(w, s, a, sp, mem) && Settled(w, s, t, m1, sp)
    requires at == a.base - slot && at in a.acc
    ensures Address(t.regs, RBP, Below(slot)) == at
  {
    SlotAddress(t, a.base, slot);
  }

  /** The epilogue, one instruction after the other. */
  lemma LeaveSteps(s: State) returns (s1: State, s2: State, s3: State)
    requires s.regs.rbp + 8 < TWO_64
    ensures Exec(LocalLabel(ReturnLabel), s) == Some(s1) && s1 == s.(pc := s.pc + 1)
    ensures Exec(Mov(SubReg(RSP, 8), SubReg(RBP, 8)), s1) == Some(s2)
    ensures s2.mem == s.mem && s2.regs == s.regs.(rsp := s.regs.rbp)
    ensures Exec(Pop(RBP), s2) == Some(s3) && s3.mem == s.mem && s3.regs.rbp == Load(s.mem, s.regs.rbp, 8)
    ensures s3.regs == s.regs.(rsp := s.regs.rbp + 8, rbp := s3.regs.rbp)
  {
    hide Load, Store;
    s1 := s.(pc := s.pc + 1);
    s2 := LeaveFrame(s1);
    s3 := RestoreFrame(s2);
  }

  lemma LeaveFrame(s: State) returns (t: State)
    ensures Exec(Mov(SubReg(RSP, 8), SubReg(RBP, 8)), s) == Some(t)
    ensures t.mem == s.mem && t.regs == s.regs.(rsp := s.regs.rbp)
  {
    UniqueMod(s.regs.rbp, TWO_64, 0, s.regs.rbp);
    t := s.(regs := s.regs.(rsp := s.regs.rbp), pc := s.pc + 1);
  }

  lemma RestoreFrame(s: State) returns (t: State)
    requires s.regs.rsp + 8 < TWO_64
    ensures Exec(Pop(RBP), s) == Some(t) && t.mem == s.mem && t.regs.rbp == Load(s.mem, s.regs.rsp, 8)
    ensures t.regs == s.regs.(rsp := s.regs.rsp + 8, rbp := t.regs.rbp)
  {
    hide Load;
    UniqueMod(s.regs.rsp + 8, TWO_64, 0, s.regs.rsp + 8);
    ModulusIsPow256(8);
    t := Exec(Pop(RBP), s).value;
  }

  /** The epilogue up to `ret`. */
  lemma LeaveRuns(s: State)
    requires s.regs.rbp + 8 < TWO_64
    ensures ExecAll([LocalLabel(ReturnLabel), Mov(SubReg(RSP, 8), SubReg(RBP, 8)), Pop(RBP)], s).Some?
    ensures var t := ExecAll([LocalLabel(ReturnLabel), Mov(SubReg(RSP, 8), SubReg(RBP, 8)), Pop(RBP)], s).value;
            t.mem == s.mem && t.regs == s.regs.(rsp := s.regs.rbp + 8, rbp := t.regs.rbp) &&
            t.regs.rbp == Load(s.mem, s.regs.rbp, 8)
  {
    hide Load, Store, ExecAll, Exec;
    var i0, i1, i2 := LocalLabel(ReturnLabel), Mov(SubReg(RSP, 8), SubReg(RBP, 8)), Pop(RBP);
    var s1, s2, s3 := LeaveSteps(s);
    ExecTwo(i0, i1, s, s1);
    ExecAllAppend([i0, i1], [i2], s, s2);
    ExecOne(i2, s2);
    assert [i0, i1, i2] == [i0, i1] + [i2];
  }

  /** The epilogue goes up from the frame to the return address. */
  lemma LeaveDisciplined(w: World, s: State, hi: int, acc: set<int>)
    requires s.regs.rbp + 8 < TWO_64 && w.c.limit <= s.regs.rsp <= hi && w.c.limit <= s.regs.rbp <= hi - 8
    ensures Disciplined(w, [LocalLabel(ReturnLabel), Mov(SubReg(RSP, 8), SubReg(RBP, 8)), Pop(RBP)], s, hi, acc)
  {
    hide Load, Store, ExecAll, Exec, Disciplined;
    var i0, i1, i2 := LocalLabel(ReturnLabel), Mov(SubReg(RSP, 8), SubReg(RBP, 8)), Pop(RBP);
    var s1, s2, s3 := LeaveSteps(s);
    DisciplinedTwo(w, i0, i1, s, s1, s2, hi, acc);
    DisciplinedOne(w, i2, s2, s3, hi, acc);
    ExecTwo(i0, i1, s, s1);
    DisciplinedAppend(w, [i0, i1], [i2], s, s2, hi, acc);
    assert [i0, i1, i2] == [i0, i1] + [i2];
  }

  lemma RetRuns(w: World, s: State, hi: int, acc: set<int>)
    requires At(w.code, s.pc, [Ret]) && s.regs.rsp + 8 < TWO_64 && w.c.limit <= s.regs.rsp <= hi - 8
    ensures Stays(w, 1, s, hi, acc)
    ensures Run(w.code, 1, s) == Some(s.(regs := s.regs.(rsp := s.regs.rsp + 8), pc := Load(s.mem, s.regs.rsp, 8)))
  {
    hide Load, Store, Run, Exec, Stays;
    AtOne(w.code, s.pc, Ret);
    UniqueMod(s.regs.rsp + 8, TWO_64, 0, s.regs.rsp + 8);
    var t := s.(regs := s.regs.(rsp := s.regs.rsp + 8), pc := Load(s.mem, s.regs.rsp, 8));
    RunStep(w.code, s, t);
    OneStays(w, s, t, hi, acc);
  }

  /** Right after the call and the prologue, the saved frame pointer and the return address are
      above the new frame, whose bytes are live. */
  lemma FrameReady(w: World, s: State, n: nat, env: Env, acc: set<int>, sp: int, mem: Mem)
    requires s.regs.rsp == sp && Apart(acc, w.c.limit, sp) && mem.Keys <= acc && Agrees(mem, s.mem)
    requires w.c.limit <= sp - 16 - n && s.pc + 1 < TWO_64
    ensures var t := FrameState(CalledState(s), n);
            Ready(w, t, Act(env, sp - 16, acc + Range(sp - 16 - n, n)), sp - 16 - n, mem) &&
            Load(t.mem, sp - 8, 8) == s.pc + 1 && Load(t.mem, sp - 16, 8) == s.regs.rbp &&
            (forall x :: x < sp - 16 || sp <= x ==> Get(t.mem, x) == Get(s.mem, x))
  {
    hide Load, Store;
    var m1 := CalledState(s).mem;
    var t := FrameState(CalledState(s), n);
    LoadStore(s.mem, sp - 8, 8, s.pc + 1);
    LoadStore(m1, sp - 16, 8, s.regs.rbp);
    ModulusIsPow256(8);
    UniqueMod(s.pc + 1, TWO_64, 0, s.pc + 1);
    UniqueMod(s.regs.rbp, TWO_64, 0, s.regs.rbp);
    forall x | sp - 8 <= x < sp ensures Get(t.mem, x) == Get(m1, x) {
      StoreOutside(m1, sp - 16, 8, s.regs.rbp, x);
    }
    LoadSame(t.mem, m1, sp - 8, 8);
    forall x | x < sp - 16 || sp <= x ensures Get(t.mem, x) == Get(s.mem, x) {
      StoreOutside(m1, sp - 16, 8, s.regs.rbp, x);
      StoreOutside(s.mem, sp - 8, 8, s.pc + 1, x);
    }
  }

  /** When the body is done, what the caller needs is still there, and seen from the caller only
      live objects changed. */
  lemma FrameKept(w: World, s: State, t: State, u: State, n: nat, acc: set<int>, sp: int, mem: Mem, m2: Mem)
    requires s.regs.rsp == sp && Apart(acc, w.c.limit, sp)
    requires w.c.limit <= sp - 16 - n && s.pc + 1 < TWO_64
    requires forall x :: x < sp - 16 || sp <= x ==> Get(t.mem, x) == Get(s.mem, x)
    requires Settled(w, t, u, m2, sp - 16 - n) && m2.Keys <= acc + Range(sp - 16 - n, n)
    ensures Load(u.mem, sp - 8, 8) == Load(t.mem, sp - 8, 8)
    ensures Load(u.mem, sp - 16, 8) == Load(t.mem, sp - 16, 8)
    ensures Overlays(s.mem, Restrict(m2, acc), w.c.limit, sp, u.mem)
  {
    hide Load, Store;
    LoadSame(u.mem, t.mem, sp - 8, 8);
    LoadSame(u.mem, t.mem, sp - 16, 8);
  }
}
