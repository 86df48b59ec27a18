/** The compiler is correct: main theorems about whole runs of compiled programs. */
module Correctness {
  import opened Types
  import opened Memory
  import opened Words
  import opened Syntax
  import opened Typing
  import opened Machine
  import opened Emission
  import opened Semantics
  import opened Operators
  import opened Relation
  import opened Control
  import opened Frames
  import opened Simulation
  import opened Linking
  import opened Fuel

  /** A program whose procedures are in the fragment, to be linked with other code. */
  ghost predicate Compilable(procs: seq<Proc>, post: Code) {
    SlotsMatch(procs) && DistinctNames(procs) && Foreign(post, procs) &&
    (forall p | p in procs :: SupportedProc(p, GlobalEnv(procs))) &&
    |ProgramCode(procs, GlobalEnv(procs), 0) + post| < TWO_64 &&
    forall x :: x in LinkMap(procs, GlobalEnv(procs), 0, 0) ==> LinkMap(procs, GlobalEnv(procs), 0, 0)[x] < TWO_64
  }

  /** The machine is about to call procedure p with the values vs: its address is in rax, the
      arguments, however many, are in the six registers and on the stack from rsp up, and the stack
      below rsp is free. */
  ghost predicate Calling(w: World, p: Proc, vs: seq<nat>, s: State, acc: set<int>, mem: Mem) {
    p in w.c.procs && p.name in w.c.link && s.regs.rax == w.c.link[p.name] && At(w.code, s.pc, [CallReg(RAX)]) &&
    |vs| == |p.slots| == |p.sig.params| && Passed(s.regs, s.mem, s.regs.rsp, p.sig.params, vs, 0) &&
    mem.Keys <= acc && Apart(acc, w.c.limit, s.regs.rsp) && Agrees(mem, s.mem)
  }

  lemma CallRoom(c: Ctx, fuel: nat, p: Proc, vs: seq<nat>, sp: int, acc: set<int>, mem: Mem)
    requires mem.Keys <= acc && |vs| == |p.slots| == |p.sig.params|
    ensures !CallProc(c, fuel, p, vs, sp, acc, mem).Undefined? ==> c.limit <= sp - 16 - p.stackSize
  {
    hide ExecBlock, Bind, FinishCall;
  }

  /** Under the stack discipline a push, or a call's push of the return address, writes to the free
      stack below the stack pointer only, so it misses every live object. */
  lemma PushesMissLive(w: World, n: nat, s: State, hi: int, acc: set<int>, k: nat, u: State, v: State)
    requires Stays(w, n, s, hi, acc) && Apart(acc, w.c.limit, hi) && 0 < w.c.limit && k < n
    requires Run(w.code, k, s) == Some(u) && Run(w.code, k + 1, s) == Some(v)
    requires u.pc < |w.code| && (w.code[u.pc].Push? || w.code[u.pc].CallReg?)
    ensures forall x :: Get(v.mem, x) != Get(u.mem, x) ==> w.c.limit <= x < u.regs.rsp <= hi
    ensures forall x | x in acc :: Get(v.mem, x) == Get(u.mem, x)
  {
    hide Run, Store, Get, Apart;
    RunAdd(w.code, k, 1, s, u);
    assert InStack(w, s, u, hi, acc) && InStack(w, s, v, hi, acc);
    var at := Address(u.regs, RSP, -8);
    OneStep(w.code, u, v);
    assert v.regs.rsp == at && at + 8 <= TWO_64;
    BelowPointer(u.regs.rsp);
    assert at == u.regs.rsp - 8;
    forall x | !(at <= x < at + 8) ensures Get(v.mem, x) == Get(u.mem, x) {
      var y := if w.code[u.pc].Push? then u.regs.Get(w.code[u.pc].reg) else u.pc + 1;
      StoreOutside(u.mem, at, 8, y, x);
    }
    forall x | x in acc ensures Get(v.mem, x) == Get(u.mem, x) {
      LiveOutside(acc, w.c.limit, hi, x);
    }
  }

  lemma LiveOutside(acc: set<int>, limit: int, hi: int, x: int)
    requires Apart(acc, limit, hi) && x in acc
    ensures !(limit <= x < hi)
  {
  }

  lemma OneStep(code: Code, u: State, v: State)
    requires Run(code, 1, u) == Some(v)
    ensures Step(code, u) == Some(v)
  {
    hide Step;
    assert Run(code, 0, Step(code, u).value) == Step(code, u);
  }

  /** Eight bytes below a nonzero stack pointer: either there is room for them or the write would
      leave the address space. */
  lemma BelowPointer(rsp: word)
    requires 0 < rsp && (rsp - 8) % TWO_64 + 8 <= TWO_64
    ensures (rsp - 8) % TWO_64 == rsp - 8
  {
    if rsp < 8 {
      UniqueMod(rsp - 8, TWO_64, -1, rsp - 8 + TWO_64);
    }
  }

  /** Step k of a run from s: the stack pointer is not above hi, and if a word is pushed, by a push or
      by a call, no live byte changes. */
  ghost predicate PushesLow(w: World, s: State, k: nat, hi: int, acc: set<int>) {
    Run(w.code, k, s).Some? && Run(w.code, k + 1, s).Some? ==>
      var u, v := Run(w.code, k, s).value, Run(w.code, k + 1, s).value;
      w.c.limit <= u.regs.rsp <= hi &&
      (u.pc < |w.code| && (w.code[u.pc].Push? || w.code[u.pc].CallReg?) ==>
         forall x | x in acc :: Get(v.mem, x) == Get(u.mem, x))
  }

  /** Stack discipline of an expression, however deeply nested: the stack pointer is never above
      where it began, and no push touches a live object, the slots of the running frame included. */
  lemma ExprDisciplined(w: World, fuel: nat, e: Expr, a: Act, sp: int, mem: Mem, s: State) returns (n: nat, t: State)
    requires Linked(w) && Supported(e, a.env) && At(w.code, s.pc, ExprCode(e, a.env)) && Ready(w, s, a, sp, mem)
    requires 0 < w.c.limit && !Eval(w.c, fuel, e, a, sp, mem).Undefined?
    ensures Yields(w, n, s, t, fuel, Eval(w.c, fuel, e, a, sp, mem), sp, a.acc, s.pc + |ExprCode(e, a.env)|,
                   Size(Ty(e, a.env)), KeepsArgs(e))
    ensures forall k: nat | k < n :: PushesLow(w, s, k, sp, a.acc)
  {
    hide Run, Eval, Linked, Supported, At, ExprCode, Overlays, Agrees, Apart, PushesLow, Stays, Ty;
    n, t := ExprSim(w, fuel, e, a, sp, mem, s);
    forall k: nat | k < n ensures PushesLow(w, s, k, sp, a.acc) {
      StayPushesLow(w, n, s, sp, a.acc, k);
    }
  }

  lemma StayPushesLow(w: World, n: nat, s: State, hi: int, acc: set<int>, k: nat)
    requires Stays(w, n, s, hi, acc) && Apart(acc, w.c.limit, hi) && 0 < w.c.limit && k < n
    ensures PushesLow(w, s, k, hi, acc)
  {
    hide Run, Apart;
    if Run(w.code, k, s).Some? && Run(w.code, k + 1, s).Some? {
      var u, v := Run(w.code, k, s).value, Run(w.code, k + 1, s).value;
      assert InStack(w, s, u, hi, acc);
      if u.pc < |w.code| && (w.code[u.pc].Push? || w.code[u.pc].CallReg?) {
        PushesMissLive(w, n, s, hi, acc, k, u, v);
      }
    }
  }

  /** The meaning of a call does not depend on how much fuel it is given, if it is enough. */
  lemma OneMeaning(c: Ctx, f: nat, g: nat, p: Proc, vs: seq<nat>, sp: int, acc: set<int>, mem: Mem)
    requires mem.Keys <= acc && |vs| == |p.slots| == |p.sig.params|
    requires !CallProc(c, f, p, vs, sp, acc, mem).OutOfFuel? && !CallProc(c, g, p, vs, sp, acc, mem).OutOfFuel?
    ensures CallProc(c, f, p, vs, sp, acc, mem) == CallProc(c, g, p, vs, sp, acc, mem)
  {
    hide CallProc;
    if f <= g {
      ProcMore(c, f, g, p, vs, sp, acc, mem);
    } else {
      ProcMore(c, g, f, p, vs, sp, acc, mem);
    }
  }

  /** A call that returns: the machine comes back behind the call with the result in rax, with its
      stack and frame pointers restored, and every byte outside the free stack is either what the
      source wrote there or what it was. On the way the stack pointer is never above where it was,
      and no byte above it changes that is not live. The result is that of every sufficient fuel. */
  lemma CallReturns(procs: seq<Proc>, post: Code, limit: nat, p: Proc, vs: seq<nat>, fuel: nat, s: State, acc: set<int>,
                    mem: Mem)
    returns (n: nat, t: State)
    requires Compilable(procs, post)
    requires var w := Program(procs, post, limit);
             Calling(w, p, vs, s, acc, mem) && CallProc(w.c, fuel, p, vs, s.regs.rsp, acc, mem).Done?
    ensures var w := Program(procs, post, limit);
            var r := CallProc(w.c, fuel, p, vs, s.regs.rsp, acc, mem);
            Run(w.code, n, s) == Some(t) && t.pc == s.pc + 1 && t.regs.rsp == s.regs.rsp && t.regs.rbp == s.regs.rbp &&
            t.regs.rax % Modulus(Size(p.sig.ret)) == r.value && Stays(w, n, s, s.regs.rsp, acc) &&
            forall x :: !(limit <= x < s.regs.rsp) ==> Get(t.mem, x) == if x in r.mem then r.mem[x] else Get(s.mem, x)
    ensures var c := Program(procs, post, limit).c;
            var r := CallProc(c, fuel, p, vs, s.regs.rsp, acc, mem);
            forall g: nat :: var q := CallProc(c, g, p, vs, s.regs.rsp, acc, mem); q.OutOfFuel? || q == r
  {
    hide Run, CallProc, Linked, ProgramCode, LinkMap, SupportedProc, Passed, At;
    var w := Program(procs, post, limit);
    ProgramLinked(procs, post, limit);
    CallRoom(w.c, fuel, p, vs, s.regs.rsp, acc, mem);
    n, t := CallProcSim(w, fuel, p, vs, s.regs.rbp, s.regs.rsp, acc, mem, s);
    forall g: nat | !CallProc(w.c, g, p, vs, s.regs.rsp, acc, mem).OutOfFuel?
      ensures CallProc(w.c, g, p, vs, s.regs.rsp, acc, mem) == CallProc(w.c, fuel, p, vs, s.regs.rsp, acc, mem)
    {
      OneMeaning(w.c, fuel, g, p, vs, s.regs.rsp, acc, mem);
    }
  }

  /** A call that never returns in the source never stops the machine, and however long it runs, it
      keeps to the free stack and the live objects. */
  lemma CallDiverges(procs: seq<Proc>, post: Code, limit: nat, p: Proc, vs: seq<nat>, s: State, acc: set<int>, mem: Mem,
                     n: nat)
    requires Compilable(procs, post)
    requires var w := Program(procs, post, limit);
             Calling(w, p, vs, s, acc, mem) &&
             forall fuel: nat :: CallProc(w.c, fuel, p, vs, s.regs.rsp, acc, mem).OutOfFuel?
    ensures var w := Program(procs, post, limit);
            Run(w.code, n, s).Some? && InStack(w, s, Run(w.code, n, s).value, s.regs.rsp, acc)
  {
    hide Run, CallProc, Linked, ProgramCode, LinkMap, SupportedProc, Passed, At;
    var w := Program(procs, post, limit);
    ProgramLinked(procs, post, limit);
    assert CallProc(w.c, n, p, vs, s.regs.rsp, acc, mem).OutOfFuel?;
    CallRoom(w.c, n, p, vs, s.regs.rsp, acc, mem);
    var m, t := CallProcSim(w, n, p, vs, s.regs.rbp, s.regs.rsp, acc, mem, s);
    RunPrefix(w.code, n, m, s);
  }

  /** When the call is the last instruction of the code and the source stays within its rules, the
      machine stops if and only if the source call returns. */
  lemma StopsIffReturns(procs: seq<Proc>, post: Code, limit: nat, p: Proc, vs: seq<nat>, s: State, acc: set<int>,
                        mem: Mem)
    requires Compilable(procs, post)
    requires var w := Program(procs, post, limit);
             Calling(w, p, vs, s, acc, mem) && s.pc + 1 == |w.code| &&
             forall fuel: nat :: !CallProc(w.c, fuel, p, vs, s.regs.rsp, acc, mem).Undefined?
    ensures var w := Program(procs, post, limit);
            (exists n: nat :: Run(w.code, n, s).None?) <==>
            (exists fuel: nat :: CallProc(w.c, fuel, p, vs, s.regs.rsp, acc, mem).Done?)
  {
    hide CallProc, Linked, ProgramCode, LinkMap, SupportedProc, Passed, At, Step;
    var w := Program(procs, post, limit);
    if exists fuel: nat :: CallProc(w.c, fuel, p, vs, s.regs.rsp, acc, mem).Done? {
      var fuel: nat :| CallProc(w.c, fuel, p, vs, s.regs.rsp, acc, mem).Done?;
      var n, t := CallReturns(procs, post, limit, p, vs, fuel, s, acc, mem);
      RunAdd(w.code, n, 1, s, t);
      StopsOutside(w.code, t);
    } else {
      forall n: nat ensures Run(w.code, n, s).Some? {
        CallDiverges(procs, post, limit, p, vs, s, acc, mem, n);
      }
    }
  }

  lemma StopsOutside(code: Code, t: State)
    requires t.pc >= |code|
    ensures Run(code, 1, t).None?
  {
  }
}
