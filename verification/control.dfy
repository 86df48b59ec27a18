/** Labels and jumps inside a procedure, and the code around a procedure body. */
module Control {
  import opened Types
  import opened Memory
  import opened Words
  import opened Syntax
  import opened Typing
  import opened Machine
  import opened Emission
  import opened Semantics
  import opened Operators
  import opened Relation
  import opened Leaves

  /** Positions lo..hi hold one procedure: its label, then code whose local labels are distinct. */
  ghost predicate Region(code: Code, lo: int, hi: int) {
    0 <= lo < hi <= |code| && code[lo].GlobalLabel? && (hi < |code| ==> code[hi].GlobalLabel?) &&
    (forall i :: lo < i < hi ==> !code[i].GlobalLabel?) &&
    (forall i, j :: lo < i < hi && lo < j < hi && code[i].LocalLabel? && code[i] == code[j] ==> i == j)
  }

  /** A jump inside a procedure goes to the one label of that name in the procedure. */
  lemma JumpResolves(code: Code, lo: int, hi: int, i: int, j: int, l: Label)
    requires Region(code, lo, hi) && lo < i < hi && lo < j < hi && code[j] == LocalLabel(l)
    ensures JumpTarget(code, i, l) == Some(j)
  {
    hide Region;
    TargetInside(code, lo, hi, i, j, l);
    forall q | IsTarget(code, i, l, q) ensures q == j {
      OneTarget(code, lo, hi, i, j, l, q);
    }
  }

  lemma TargetInside(code: Code, lo: int, hi: int, i: int, j: int, l: Label)
    requires Region(code, lo, hi) && lo < i < hi && lo < j < hi && code[j] == LocalLabel(l)
    ensures IsTarget(code, i, l, j)
  {
  }

  lemma OneTarget(code: Code, lo: int, hi: int, i: int, j: int, l: Label, q: int)
    requires Region(code, lo, hi) && lo < i < hi && lo < j < hi && code[j] == LocalLabel(l)
    requires IsTarget(code, i, l, q)
    ensures q == j
  {
    assert code[lo].GlobalLabel? && (hi < |code| ==> code[hi].GlobalLabel?);
  }

  /** The procedure a statement belongs to: where its code begins and ends, and its return label. */
  datatype Home = Home(lo: int, hi: int, ret: int)

  ghost predicate Inside(code: Code, h: Home, pc: int, c: Code) {
    Region(code, h.lo, h.hi) && h.lo < pc && pc + |c| <= h.hi && At(code, pc, c) &&
    h.lo < h.ret < h.hi && code[h.ret] == LocalLabel(ReturnLabel)
  }

  lemma InsideSplit(code: Code, h: Home, pc: int, c0: Code, c1: Code)
    requires Inside(code, h, pc, c0 + c1)
    ensures Inside(code, h, pc, c0) && Inside(code, h, pc + |c0|, c1)
  {
    hide Region;
    AtSplit(code, pc, c0, c1);
  }

  lemma InsideAt(code: Code, h: Home, pc: int, c: Code)
    requires Inside(code, h, pc, c)
    ensures At(code, pc, c)
  {
  }

  lemma InsideOne(code: Code, h: Home, pc: int, i: Instr)
    requires Inside(code, h, pc, [i])
    ensures At(code, pc, [i]) && code[pc] == i && h.lo < pc < h.hi
  {
    hide Region;
    AtOne(code, pc, i);
  }

  lemma JumpRuns(w: World, h: Home, s: State, l: Label, j: int, hi: int, acc: set<int>)
    requires Inside(w.code, h, s.pc, [Jmp(l)]) && h.lo < j < h.hi && w.code[j] == LocalLabel(l)
    requires w.c.limit <= s.regs.rsp <= hi
    ensures Run(w.code, 1, s) == Some(s.(pc := j)) && Stays(w, 1, s, hi, acc)
  {
    hide Stays;
    AtOne(w.code, s.pc, Jmp(l));
    JumpResolves(w.code, h.lo, h.hi, s.pc, j, l);
    RunStep(w.code, s, s.(pc := j));
    QuietStays(w, s, s.(pc := j), hi, acc);
  }

  lemma LabelRuns(w: World, s: State, l: Label, hi: int, acc: set<int>)
    requires At(w.code, s.pc, [LocalLabel(l)]) && w.c.limit <= s.regs.rsp <= hi
    ensures Run(w.code, 1, s) == Some(s.(pc := s.pc + 1)) && Stays(w, 1, s, hi, acc)
  {
    hide Step, Stays;
    RunQuiet(w, s, LocalLabel(l), s.(pc := s.pc + 1), hi, acc);
  }

  /** Testing the low bytes of rax against zero and branching on the outcome. */
  lemma BranchRuns(w: World, h: Home, s: State, k: opsize, cc: Condition, l: Label, j: int, v: nat, hi: int,
                   acc: set<int>)
    returns (t: State)
    requires Inside(w.code, h, s.pc, [CmpZero(SubReg(RAX, k)), JumpIf(cc, l)])
    requires cc == E || cc == NE
    requires h.lo < j < h.hi && w.code[j] == LocalLabel(l)
    requires s.regs.rax % Modulus(k) == v && w.c.limit <= s.regs.rsp <= hi
    ensures Run(w.code, 2, s) == Some(t) && SameButResult(s, t) && Stays(w, 2, s, hi, acc)
    ensures t.pc == if (cc == E) == (v == 0) then j else s.pc + 2
  {
    hide Region, Stays;
    var i := CmpZero(SubReg(RAX, k));
    assert [i, JumpIf(cc, l)] == [i] + [JumpIf(cc, l)];
    InsideSplit(w.code, h, s.pc, [i], [JumpIf(cc, l)]);
    var u := Exec(i, s).value;
    RunQuiet(w, s, i, u, hi, acc);
    AtOne(w.code, u.pc, JumpIf(cc, l));
    ZeroTest(v, k);
    JumpResolves(w.code, h.lo, h.hi, u.pc, j, l);
    t := u.(pc := if (cc == E) == (v == 0) then j else s.pc + 2);
    RunStep(w.code, u, t);
    QuietStays(w, u, t, hi, acc);
    Follow(w, 1, 1, s, u, hi, acc);
  }

  lemma MovArg(s: State, i: nat, n: opsize) returns (t: State)
    requires i < 6
    ensures Exec(Mov(SubReg(ARG_REGS[i], n), SubReg(RAX, n)), s) == Some(t)
    ensures SameButResult(s, t) && t.regs.rax == s.regs.rax
    ensures t.regs.Get(ARG_REGS[i]) % Modulus(n) == s.regs.rax % Modulus(n)
    ensures forall j :: 0 <= j < 6 && j != i ==> t.regs.Get(ARG_REGS[j]) == s.regs.Get(ARG_REGS[j])
  {
    t := Exec(Mov(SubReg(ARG_REGS[i], n), SubReg(RAX, n)), s).value;
    SetThenPart(s.regs, ARG_REGS[i], n, s.regs.rax % Modulus(n));
  }
}
