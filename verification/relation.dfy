/** How machine states follow source states: which machine memory a source memory allows, and the
    bookkeeping of runs. */
module Relation {
  import opened Types
  import opened Memory
  import opened Words
  import opened Syntax
  import opened Typing
  import opened Machine
  import opened Emission
  import opened Semantics
  import opened Operators

  /** A compiled program and the context its source is evaluated in. */
  datatype World = World(c: Ctx, code: Code)

  /** The machine holds every byte the source has written. */
  ghost predicate Agrees(mem: Mem, m: Mem) {
    forall x :: x in mem ==> Get(m, x) == mem[x]
  }

  /** No live object lies in the free stack below sp or at the end of the address space. */
  ghost predicate Apart(acc: set<int>, limit: int, sp: int) {
    forall x :: x in acc ==> 0 <= x && x + 8 <= TWO_64 && !(limit <= x < sp)
  }

  ghost predicate Ready(w: World, s: State, a: Act, sp: int, mem: Mem) {
    w.c.limit <= s.regs.rsp == sp && s.regs.rbp == a.base && mem.Keys <= a.acc &&
    Apart(a.acc, w.c.limit, sp) && Agrees(mem, s.mem)
  }

  /** Outside the free stack, memory m1 is memory m0 with the bytes of the source memory put in:
      what the source has not written is untouched. */
  ghost predicate Overlays(m0: Mem, mem: Mem, limit: int, sp: int, m1: Mem) {
    forall x :: !(limit <= x < sp) ==> Get(m1, x) == if x in mem then mem[x] else Get(m0, x)
  }

  predicate SameArgRegs(r: Regs, q: Regs) {
    r.rdi == q.rdi && r.rsi == q.rsi && r.rdx == q.rdx && r.rcx == q.rcx && r.r8 == q.r8 && r.r9 == q.r9
  }

  /** Seen from state s, state u has its stack pointer between the limit and hi, and every byte that
      is neither in the free stack below hi nor live is as it was. */
  ghost predicate InStack(w: World, s: State, u: State, hi: int, acc: set<int>) {
    w.c.limit <= u.regs.rsp <= hi &&
    forall x :: !(w.c.limit <= x < hi) && x !in acc ==> Get(u.mem, x) == Get(s.mem, x)
  }

  /** Stack discipline: this holds at each of the next n steps, not only after the last one. */
  ghost predicate Stays(w: World, n: nat, s: State, hi: int, acc: set<int>) {
    forall k: nat :: k <= n && Run(w.code, k, s).Some? ==> InStack(w, s, Run(w.code, k, s).value, hi, acc)
  }

  /** After n steps from s the machine is at t, behind the code that computes r: stack and frame
      pointers are restored and memory changed only as the source says. A source that runs out of
      fuel keeps the machine busy for that long. All the time the stack discipline is kept. */
  ghost predicate Goes<T>(w: World, n: nat, s: State, t: State, fuel: nat, r: Outcome<T>, sp: int, acc: set<int>,
                          pc: nat, keeps: bool) {
    match r
    case Undefined => true
    case OutOfFuel => n >= fuel && Run(w.code, n, s).Some? && Stays(w, n, s, sp, acc)
    case Done(_, mem) =>
      Run(w.code, n, s) == Some(t) && t.pc == pc && Settled(w, s, t, mem, sp) && Stays(w, n, s, sp, acc) &&
      (keeps ==> SameArgRegs(s.regs, t.regs))
  }

  /** Besides, the low bytes of rax hold the value; its other bytes may hold anything. */
  ghost predicate Yields(w: World, n: nat, s: State, t: State, fuel: nat, r: Outcome<nat>, sp: int, acc: set<int>,
                         pc: nat, size: nat, keeps: bool) {
    Goes(w, n, s, t, fuel, r, sp, acc, pc, keeps) && (r.Done? ==> t.regs.rax % Modulus(size) == r.value)
  }

  ghost predicate Settled(w: World, s: State, t: State, mem: Mem, sp: int) {
    t.regs.rsp == s.regs.rsp && t.regs.rbp == s.regs.rbp && Overlays(s.mem, mem, w.c.limit, sp, t.mem)
  }

  /** One run after another; if both keep the stack discipline, so does the whole. */
  lemma Follow(w: World, n: nat, m: nat, s: State, t: State, hi: int, acc: set<int>)
    requires Run(w.code, n, s) == Some(t)
    ensures Run(w.code, n + m, s) == Run(w.code, m, t)
    ensures Stays(w, n, s, hi, acc) && Stays(w, m, t, hi, acc) ==> Stays(w, n + m, s, hi, acc)
  {
    hide Run;
    RunAdd(w.code, n, m, s, t);
    if Stays(w, n, s, hi, acc) && Stays(w, m, t, hi, acc) {
      assert InStack(w, s, t, hi, acc);
      forall k: nat | k <= n + m && Run(w.code, k, s).Some?
        ensures InStack(w, s, Run(w.code, k, s).value, hi, acc)
      {
        if k > n {
          RunAdd(w.code, n, k - n, s, t);
          assert InStack(w, t, Run(w.code, k - n, t).value, hi, acc);
        }
      }
    }
  }

  lemma RunNothing(w: World, s: State, hi: int, acc: set<int>)
    ensures Run(w.code, 0, s) == Some(s)
    ensures w.c.limit <= s.regs.rsp <= hi ==> Stays(w, 0, s, hi, acc)
  {
  }

  lemma OneStays(w: World, s: State, t: State, hi: int, acc: set<int>)
    requires Run(w.code, 1, s) == Some(t) && w.c.limit <= s.regs.rsp <= hi && InStack(w, s, t, hi, acc)
    ensures Stays(w, 1, s, hi, acc)
  {
    forall k: nat | k <= 1 && Run(w.code, k, s).Some? ensures InStack(w, s, Run(w.code, k, s).value, hi, acc) {
      assert k == 0 || k == 1;
    }
  }

  /** A step that leaves memory and the stack pointer alone. */
  lemma QuietStays(w: World, s: State, t: State, hi: int, acc: set<int>)
    requires Run(w.code, 1, s) == Some(t) && w.c.limit <= s.regs.rsp <= hi && t.mem == s.mem && t.regs.rsp == s.regs.rsp
    ensures Stays(w, 1, s, hi, acc)
  {
    hide Run;
    OneStays(w, s, t, hi, acc);
  }

  /** A step that writes live bytes only. */
  lemma StoreInStack(w: World, s: State, t: State, hi: int, acc: set<int>, at: int, n: nat, v: nat)
    requires w.c.limit <= s.regs.rsp <= hi && t.regs.rsp == s.regs.rsp
    requires Writable(acc, at, n) && t.mem == Store(s.mem, at, n, v)
    ensures InStack(w, s, t, hi, acc)
  {
    hide Store;
    forall x | x !in acc ensures Get(t.mem, x) == Get(s.mem, x) {
      StoreOutside(s.mem, at, n, v, x);
    }
  }

  lemma StoreStays(w: World, s: State, t: State, hi: int, acc: set<int>, at: int, n: nat, v: nat)
    requires Run(w.code, 1, s) == Some(t) && w.c.limit <= s.regs.rsp <= hi && t.regs.rsp == s.regs.rsp
    requires Writable(acc, at, n) && t.mem == Store(s.mem, at, n, v)
    ensures Stays(w, 1, s, hi, acc)
  {
    hide Run, Store;
    StoreInStack(w, s, t, hi, acc, at, n, v);
    OneStays(w, s, t, hi, acc);
  }

  /** What stays in a smaller part of the stack, or touches only bytes of the stack besides the live
      ones, stays in the larger part. */
  lemma StaysWider(w: World, n: nat, s: State, lo: int, inner: set<int>, hi: int, acc: set<int>)
    requires Stays(w, n, s, lo, inner) && lo <= hi
    requires forall x | x in inner :: x in acc || w.c.limit <= x < hi
    ensures Stays(w, n, s, hi, acc)
  {
    hide Run;
    forall k: nat | k <= n && Run(w.code, k, s).Some? ensures InStack(w, s, Run(w.code, k, s).value, hi, acc) {
      assert InStack(w, s, Run(w.code, k, s).value, lo, inner);
    }
  }

  /** Settled states are ready for what comes next. */
  lemma StillReady(w: World, s: State, t: State, a: Act, sp: int, mem: Mem, mem': Mem)
    requires Ready(w, s, a, sp, mem) && Settled(w, s, t, mem', sp) && mem'.Keys <= a.acc
    ensures Ready(w, t, a, sp, mem')
  {
  }

  lemma SettledTrans(w: World, s: State, t: State, u: State, m1: Mem, m2: Mem, sp: int)
    requires Settled(w, s, t, m1, sp) && Settled(w, t, u, m2, sp) && m1.Keys <= m2.Keys
    ensures Settled(w, s, u, m2, sp)
  {
  }

  /** Two runs one after the other. */
  lemma GoesOn<T, U>(w: World, fuel: nat, sp: int, acc: set<int>, n1: nat, s: State, t1: State, r1: Outcome<T>,
                     pc1: nat, keeps1: bool, n2: nat, t2: State, r2: Outcome<U>, pc2: nat, keeps2: bool)
    requires Goes(w, n1, s, t1, fuel, r1, sp, acc, pc1, keeps1) && r1.Done?
    requires Goes(w, n2, t1, t2, fuel, r2, sp, acc, pc2, keeps2)
    requires r2.Done? ==> r1.mem.Keys <= r2.mem.Keys
    ensures Goes(w, n1 + n2, s, t2, fuel, r2, sp, acc, pc2, keeps1 && keeps2)
  {
    hide Overlays, Stays;
    Follow(w, n1, n2, s, t1, sp, acc);
    if r2.Done? {
      SettledTrans(w, s, t1, t2, r1.mem, r2.mem, sp);
    }
  }

  /** A step that touches neither memory nor the two stack registers. */
  lemma SettledStep(w: World, s: State, t: State, u: State, m1: Mem, sp: int)
    requires Settled(w, s, t, m1, sp)
    requires SameButResult(t, u)
    ensures Settled(w, s, u, m1, sp)
  {
  }

  lemma SettledAtOnce(w: World, s: State, t: State, a: Act, mem: Mem, sp: int)
    requires Ready(w, s, a, sp, mem) && SameButResult(s, t)
    ensures Settled(w, s, t, mem, sp)
  {
  }

  /** What a push of rax does; there must be room on the stack. */
  function PushedState(s: State): State
    requires 8 <= s.regs.rsp
  {
    State(s.regs.(rsp := s.regs.rsp - 8), s.flags, Store(s.mem, s.regs.rsp - 8, 8, s.regs.rax), s.pc + 1)
  }

  lemma PushExec(s: State)
    requires 8 <= s.regs.rsp
    ensures Exec(Push(RAX), s) == Some(PushedState(s))
  {
    hide Load, Store;
    ReduceDifference(s.regs.rsp - 8, TWO_64);
  }

  lemma PushRuns(w: World, s: State, a: Act, sp: int, mem: Mem)
    requires Ready(w, s, a, sp, mem) && RoomFor(w.c, sp)
    requires At(w.code, s.pc, [Push(RAX)])
    ensures Run(w.code, 1, s) == Some(PushedState(s))
    ensures Ready(w, PushedState(s), a, sp - 8, mem)
    ensures Load(PushedState(s).mem, sp - 8, 8) == s.regs.rax
    ensures Stays(w, 1, s, sp, a.acc)
  {
    hide Load, Store, Exec, Step, Run, Stays;
    assert w.code[s.pc] == w.code[s.pc..s.pc + 1][0];
    var t := PushedState(s);
    PushExec(s);
    StepExec(w.code, s);
    LoadStore(s.mem, sp - 8, 8, s.regs.rax);
    ModulusIsPow256(8);
    forall x | x in mem ensures Get(t.mem, x) == mem[x] {
      StoreOutside(s.mem, sp - 8, 8, s.regs.rax, x);
    }
    forall x | !(w.c.limit <= x < sp) ensures Get(t.mem, x) == Get(s.mem, x) {
      StoreOutside(s.mem, sp - 8, 8, s.regs.rax, x);
    }
    OneStays(w, s, t, sp, a.acc);
  }

  /** A temporary on the stack survives the evaluation done above it. */
  lemma TemporarySurvives(w: World, s: State, t: State, a: Act, sp: int, m1: Mem, m2: Mem)
    requires Ready(w, s, a, sp, m1) && RoomFor(w.c, sp)
    requires m2.Keys <= a.acc
    requires Settled(w, PushedState(s), t, m2, sp - 8)
    ensures Load(t.mem, sp - 8, 8) == Load(PushedState(s).mem, sp - 8, 8)
  {
    hide Load, Store;
    LoadSame(t.mem, PushedState(s).mem, sp - 8, 8);
  }

  /** Pushing the result of a first computation makes the machine ready for a second one above it. */
  lemma StartAbove<T>(w: World, fuel: nat, a: Act, sp: int, mem: Mem, n1: nat, s: State, t1: State, r1: Outcome<T>,
                      pc1: nat, keeps: bool)
    requires Ready(w, s, a, sp, mem) && Goes(w, n1, s, t1, fuel, r1, sp, a.acc, pc1, keeps)
    requires r1.Done? && r1.mem.Keys <= a.acc && RoomFor(w.c, sp) && At(w.code, pc1, [Push(RAX)])
    ensures t1.regs.rsp == sp >= 8 && t1.regs.rbp == s.regs.rbp && t1.pc == pc1
    ensures Run(w.code, n1 + 1, s) == Some(PushedState(t1)) && Ready(w, PushedState(t1), a, sp - 8, r1.mem)
    ensures Stays(w, n1 + 1, s, sp, a.acc)
  {
    hide Load, Store, Overlays, Agrees, Apart, At, Stays, Run;
    StillReady(w, s, t1, a, sp, mem, r1.mem);
    PushRuns(w, t1, a, sp, r1.mem);
    Follow(w, n1, 1, s, t1, sp, a.acc);
  }

  /** After the second computation the first result is still on top of the stack, and once it is
      taken off, seen from below only live objects have changed. */
  lemma EndAbove<T, U>(w: World, fuel: nat, a: Act, sp: int, mem: Mem, n1: nat, s: State, t1: State, r1: Outcome<T>,
                       pc1: nat, keeps: bool, n2: nat, t2: State, r2: Outcome<U>, pc2: nat)
    requires Ready(w, s, a, sp, mem) && Goes(w, n1, s, t1, fuel, r1, sp, a.acc, pc1, keeps)
    requires r1.Done? && r1.mem.Keys <= a.acc && RoomFor(w.c, sp) && At(w.code, pc1, [Push(RAX)])
    requires t1.regs.rsp == sp && Goes(w, n2, PushedState(t1), t2, fuel, r2, sp - 8, a.acc, pc2, false)
    requires r2.Done? ==> r1.mem.Keys <= r2.mem.Keys <= a.acc
    ensures r2.OutOfFuel? ==> Run(w.code, n1 + 1 + n2, s).Some?
    ensures !r2.Undefined? ==> Stays(w, n1 + 1 + n2, s, sp, a.acc)
    ensures r2.Done? ==>
              Run(w.code, n1 + 1 + n2, s) == Some(t2) && t2.pc == pc2 && t2.regs.rsp == sp - 8 &&
              t2.regs.rbp == s.regs.rbp &&
              Load(t2.mem, sp - 8, 8) == t1.regs.rax
    ensures r2.Done? ==>
              forall v: State :: v.mem == t2.mem && v.regs.rsp == sp && v.regs.rbp == s.regs.rbp ==>
                Settled(w, s, v, r2.mem, sp)
  {
    hide Load, Store, Agrees, Apart, At, Stays, Run;
    StartAbove(w, fuel, a, sp, mem, n1, s, t1, r1, pc1, keeps);
    if !r2.Undefined? {
      StaysWider(w, n2, PushedState(t1), sp - 8, a.acc, sp, a.acc);
    }
    Follow(w, n1 + 1, n2, s, PushedState(t1), sp, a.acc);
    StillReady(w, s, t1, a, sp, mem, r1.mem);
    PushRuns(w, t1, a, sp, r1.mem);
    if r2.Done? {
      TemporarySurvives(w, t1, t2, a, sp, r1.mem, r2.mem);
      forall x | !(w.c.limit <= x < sp)
        ensures Get(t2.mem, x) == if x in r2.mem then r2.mem[x] else Get(s.mem, x)
      {
        StoreOutside(t1.mem, sp - 8, 8, t1.regs.rax, x);
      }
    }
  }

  /** A store into a live object does to the machine what it does to the source. */
  lemma StoreSettles(w: World, s: State, t: State, u: State, a: Act, sp: int, mem: Mem, m1: Mem, at: int, n: nat,
                     v: nat)
    requires Ready(w, s, a, sp, mem) && Settled(w, s, t, m1, sp)
    requires mem.Keys <= m1.Keys <= a.acc && Writable(a.acc, at, n)
    requires u.mem == Store(t.mem, at, n, v) && u.regs.rsp == t.regs.rsp && u.regs.rbp == t.regs.rbp
    ensures Settled(w, s, u, Store(m1, at, n, v), sp)
  {
    hide Load, Store;
    forall x | !(w.c.limit <= x < sp)
      ensures Get(u.mem, x) == if x in Store(m1, at, n, v) then Store(m1, at, n, v)[x] else Get(s.mem, x)
    {
      if at <= x < at + n {
        StoreInside(t.mem, m1, at, n, v, x);
      } else {
        StoreOutside(t.mem, at, n, v, x);
        StoreOutside(m1, at, n, v, x);
      }
    }
  }

  /** Reading a written object gives the same number on both sides. */
  lemma LoadAgrees(w: World, s: State, a: Act, sp: int, mem: Mem, at: int, n: nat)
    requires Ready(w, s, a, sp, mem) && Readable(mem, at, n)
    ensures Load(s.mem, at, n) == Load(mem, at, n)
    ensures n > 0 ==> 0 <= at && at + 8 <= TWO_64
  {
    hide Load, Store;
    forall x | at <= x < at + n ensures Get(s.mem, x) == Get(mem, x) {
      assert x in mem;
    }
    LoadSame(s.mem, mem, at, n);
    if n > 0 {
      assert at in mem;
    }
  }
}
