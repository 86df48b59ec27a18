/** Arguments: in a frame that the layout made, every parameter slot receives its own argument, and
    the machine has them there when the body begins. */
module Arguments {
  import opened Types
  import opened Memory
  import opened Words
  import opened Syntax
  import opened Typing
  import opened Machine
  import opened Emission
  import opened Semantics
  import opened Layout
  import opened Slots
  import opened Operators
  import opened Relation
  import opened Control
  import opened Leaves
  import opened Frames
  import opened Simulation
  import opened Linking
  import opened Correctness

  /** The slot of every parameter holds its argument. */
  ghost predicate Received(mem: Mem, params: seq<Param>, slots: seq<nat>, vs: seq<nat>, base: int) {
    |params| == |slots| == |vs| &&
    forall k | 0 <= k < |vs| :: Load(mem, base - slots[k], Size(params[k].ty)) == vs[k]
  }

  /** The same of a memory of the source, which also knows that the slot has been written. */
  ghost predicate InSlots(mem: Mem, params: seq<Param>, slots: seq<nat>, vs: seq<nat>, base: int) {
    |params| == |slots| == |vs| &&
    forall k | 0 <= k < |vs| ::
      Readable(mem, base - slots[k], Size(params[k].ty)) && Load(mem, base - slots[k], Size(params[k].ty)) == vs[k]
  }

  predicate InRange(params: seq<Param>, vs: seq<nat>) {
    |params| == |vs| && forall k | 0 <= k < |vs| :: vs[k] < Modulus(Size(params[k].ty))
  }

  lemma WholeLoad(mem: Mem, at: int, t: Type, v: nat)
    requires v < Modulus(Size(t))
    ensures Load(Store(mem, at, Size(t), v), at, Size(t)) == v && Readable(Store(mem, at, Size(t), v), at, Size(t))
  {
    hide Load, Store;
    LoadStore(mem, at, Size(t), v);
    StoreKeys(mem, at, Size(t), v);
    ModulusIsPow256(Size(t));
    UniqueMod(v, Modulus(Size(t)), 0, v);
  }

  /** Stores to slots that lie one below the other keep all the arguments, and stay between the two
      depths. */
  lemma {:induction false} BindArrives(params: seq<Param>, slots: seq<nat>, vs: seq<nat>, lo: nat, hi: nat, base: int,
                                       acc: set<int>, mem: Mem)
    requires |params| == |slots| && Stacked(ParamSlots(params, slots), lo, hi) && InRange(params, vs)
    requires mem.Keys <= acc && forall x | base - hi <= x < base - lo :: x in acc
    ensures Bind(params, slots, vs, base, acc, mem).Done?
    ensures InSlots(Bind(params, slots, vs, base, acc, mem).mem, params, slots, vs, base)
    ensures forall x | !(base - hi <= x < base - lo) ::
              Get(Bind(params, slots, vs, base, acc, mem).mem, x) == Get(mem, x) &&
              (x in Bind(params, slots, vs, base, acc, mem).mem <==> x in mem)
    decreases |params|
  {
    hide Load, Store, Stacked;
    if params != [] {
      var at, k := base - slots[0], Size(params[0].ty);
      HeadStacked(params, slots, lo, hi);
      var m := Store(mem, at, k, vs[0]);
      StoreKeys(mem, at, k, vs[0]);
      assert InRange(params[1..], vs[1..]) by {
        assert forall j | 0 <= j < |vs[1..]| :: vs[1..][j] == vs[j + 1] && params[1..][j] == params[j + 1];
      }
      BindArrives(params[1..], slots[1..], vs[1..], slots[0], hi, base, acc, m);
      var m1 := Bind(params, slots, vs, base, acc, mem).mem;
      assert m1 == Bind(params[1..], slots[1..], vs[1..], base, acc, m).mem;
      FirstArrives(mem, m1, at, params[0].ty, vs[0]);
      ConsInSlots(m1, params, slots, vs, base);
      forall x | !(base - hi <= x < base - lo) ensures Get(m1, x) == Get(mem, x) && (x in m1 <==> x in mem) {
        StoreOutside(mem, at, k, vs[0], x);
      }
    }
  }

  lemma HeadStacked(params: seq<Param>, slots: seq<nat>, lo: nat, hi: nat)
    requires params != [] && |params| == |slots| && Stacked(ParamSlots(params, slots), lo, hi)
    ensures lo + Size(params[0].ty) <= slots[0] <= hi
    ensures Stacked(ParamSlots(params[1..], slots[1..]), slots[0], hi)
  {
    var all, rest := ParamSlots(params, slots), ParamSlots(params[1..], slots[1..]);
    assert all[0] == Slot(slots[0], Size(params[0].ty)) && all[1..] == rest;
    forall i | 0 <= i < |rest| ensures slots[0] + rest[i].size <= rest[i].offset <= hi {
      assert rest[i] == all[i + 1];
    }
    forall i, j | 0 <= i < j < |rest| ensures rest[i].offset + rest[j].size <= rest[j].offset {
      assert rest[i] == all[i + 1] && rest[j] == all[j + 1];
    }
  }

  lemma FirstArrives(mem: Mem, m1: Mem, at: int, t: Type, v: nat)
    requires v < Modulus(Size(t))
    requires var m := Store(mem, at, Size(t), v);
             forall x | at <= x < at + Size(t) :: Get(m1, x) == Get(m, x) && (x in m1 <==> x in m)
    ensures Readable(m1, at, Size(t)) && Load(m1, at, Size(t)) == v
  {
    hide Load, Store;
    WholeLoad(mem, at, t, v);
    LoadSame(m1, Store(mem, at, Size(t), v), at, Size(t));
  }

  lemma ConsInSlots(mem: Mem, params: seq<Param>, slots: seq<nat>, vs: seq<nat>, base: int)
    requires params != [] && |params| == |slots| == |vs|
    requires InSlots(mem, params[1..], slots[1..], vs[1..], base)
    requires Readable(mem, base - slots[0], Size(params[0].ty)) &&
             Load(mem, base - slots[0], Size(params[0].ty)) == vs[0]
    ensures InSlots(mem, params, slots, vs, base)
  {
    hide Load, Readable;
    forall k | 0 <= k < |vs|
      ensures Readable(mem, base - slots[k], Size(params[k].ty)) &&
              Load(mem, base - slots[k], Size(params[k].ty)) == vs[k]
    {
      if k > 0 {
        assert params[k] == params[1..][k - 1] && slots[k] == slots[1..][k - 1] && vs[k] == vs[1..][k - 1];
      }
    }
  }

  /** Where the parameters of a laid-out procedure lie: below everything of the body. */
  lemma {:induction false} LaidParams(procs: seq<Proc>, l: Lay, p: Proc) returns (lo: nat)
    requires l.Valid() && p in LayProcs(procs, l).0
    ensures |p.slots| == |p.sig.params| && Stacked(ParamSlots(p.sig.params, p.slots), lo, p.stackSize)
    decreases |procs|
  {
    hide LayBlock, LayParams, Stacked;
    var r := LayProc(procs[0], l);
    if p == r.0 {
      var q := LayBlock(procs[0].body, l.Insert(procs[0].name, Routine(procs[0].sig)).(size := 0));
      lo := q.1.size;
      ParamsStacked(procs[0].sig.params, q.1.(head := q.0.table));
    } else {
      lo := LaidParams(procs[1..], r.1, p);
    }
  }

  /** In the frame of a laid-out procedure the arguments find room, each is in its slot afterwards,
      and nothing outside the frame changes. */
  lemma FrameBinds(src: seq<Proc>, p: Proc, vs: seq<nat>, base: int, acc: set<int>, mem: Mem)
    requires p in LayProgram(src).0 && InRange(p.sig.params, vs)
    requires mem.Keys <= acc + Range(base - p.stackSize, p.stackSize)
    ensures |p.slots| == |p.sig.params|
    ensures var r := Bind(p.sig.params, p.slots, vs, base, acc + Range(base - p.stackSize, p.stackSize), mem);
            r.Done? && InSlots(r.mem, p.sig.params, p.slots, vs, base) &&
            forall x | !(base - p.stackSize <= x < base) :: Get(r.mem, x) == Get(mem, x) && (x in r.mem <==> x in mem)
  {
    hide Bind, Stacked, InSlots, LayProcs;
    var lo := LaidParams(src, Lay(0, [Scope(map[], None)], 0), p);
    BindArrives(p.sig.params, p.slots, vs, lo, p.stackSize, base, acc + Range(base - p.stackSize, p.stackSize), mem);
  }

  /** So with room for its frame, a call of a laid-out procedure means running its body on a memory
      that has the arguments in the slots: only the body can be Undefined. */
  lemma CallIsBody(src: seq<Proc>, c: Ctx, fuel: nat, p: Proc, vs: seq<nat>, sp: int, acc: set<int>, mem: Mem)
    returns (m1: Mem)
    requires p in LayProgram(src).0 && InRange(p.sig.params, vs) && mem.Keys <= acc && c.limit <= sp - 16 - p.stackSize
    ensures |p.slots| == |p.sig.params| && mem.Keys <= m1.Keys <= acc + Range(sp - 16 - p.stackSize, p.stackSize)
    ensures InSlots(m1, p.sig.params, p.slots, vs, sp - 16)
    ensures forall x | !(sp - 16 - p.stackSize <= x < sp - 16) :: Get(m1, x) == Get(mem, x)
    ensures var low := sp - 16 - p.stackSize;
            CallProc(c, fuel, p, vs, sp, acc, mem) ==
              FinishCall(p.sig.ret, acc,
                         ExecBlock(c, fuel, p.body, Act(ProcEnv(p, c.globals), sp - 16, acc + Range(low, p.stackSize)),
                                   low, m1))
    ensures Bind(p.sig.params, p.slots, vs, sp - 16, acc + Range(sp - 16 - p.stackSize, p.stackSize), mem).Done?
    ensures Bind(p.sig.params, p.slots, vs, sp - 16, acc + Range(sp - 16 - p.stackSize, p.stackSize), mem).mem == m1
  {
    hide Bind, InSlots, LayProgram, ExecBlock, FinishCall;
    FrameBinds(src, p, vs, sp - 16, acc, mem);
    m1 := Bind(p.sig.params, p.slots, vs, sp - 16, acc + Range(sp - 16 - p.stackSize, p.stackSize), mem).mem;
  }

  /** The return theorem without a condition on binding: in a laid-out program with room for the
      frame, a body that ends well from the memory with the arguments in their slots brings the
      machine back with its result. */
  lemma BodyReturns(src: seq<Proc>, procs: seq<Proc>, post: Code, limit: nat, p: Proc, vs: seq<nat>, fuel: nat,
                    s: State, acc: set<int>, mem: Mem)
    returns (m1: Mem, n: nat, t: State)
    requires procs == LayProgram(src).0 && Compilable(procs, post)
    requires Calling(Program(procs, post, limit), p, vs, s, acc, mem) && limit <= s.regs.rsp - 16 - p.stackSize
    ensures InSlots(m1, p.sig.params, p.slots, vs, s.regs.rsp - 16)
    ensures forall x | !(s.regs.rsp - 16 - p.stackSize <= x < s.regs.rsp - 16) :: Get(m1, x) == Get(mem, x)
    ensures m1.Keys <= acc + Range(s.regs.rsp - 16 - p.stackSize, p.stackSize)
    ensures var w, base, low := Program(procs, post, limit), s.regs.rsp - 16, s.regs.rsp - 16 - p.stackSize;
            var a := Act(ProcEnv(p, w.c.globals), base, acc + Range(low, p.stackSize));
            var r := FinishCall(p.sig.ret, acc, ExecBlock(w.c, fuel, p.body, a, low, m1));
            r.Done? ==>
              Run(w.code, n, s) == Some(t) && t.pc == s.pc + 1 && t.regs.rsp == s.regs.rsp &&
              t.regs.rbp == s.regs.rbp &&
              t.regs.rax % Modulus(Size(p.sig.ret)) == r.value && Stays(w, n, s, s.regs.rsp, acc) &&
              forall x :: !(limit <= x < s.regs.rsp) ==> Get(t.mem, x) == if x in r.mem then r.mem[x] else Get(s.mem, x)
  {
    hide Run, LayProgram, ProgramCode, LinkMap, SupportedProc, Passed, At, Bind, InSlots, Linked, CallProc, Load,
      Agrees, Stays;
    hide Apart, InRange, ExecBlock, FinishCall;
    var w := Program(procs, post, limit);
    PassedInRange(s.regs, s.mem, s.regs.rsp, p.sig.params, vs);
    m1 := CallIsBody(src, w.c, fuel, p, vs, s.regs.rsp, acc, mem);
    n, t := 0, s;
    if CallProc(w.c, fuel, p, vs, s.regs.rsp, acc, mem).Done? {
      n, t := CallReturns(procs, post, limit, p, vs, fuel, s, acc, mem);
    }
  }

  lemma PassedInRange(rs: Regs, m: Mem, top: int, params: seq<Param>, vs: seq<nat>)
    requires Passed(rs, m, top, params, vs, 0)
    ensures InRange(params, vs)
  {
    hide ArgWord;
    forall k | 0 <= k < |vs| ensures vs[k] < Modulus(Size(params[k].ty)) {
      assert ArgWord(rs, m, top, 0 + k) % Modulus(Size(params[k].ty)) == vs[k];
    }
  }

  lemma SameInSlots(w: World, t: State, a: Act, sp: int, mem: Mem, params: seq<Param>, slots: seq<nat>, vs: seq<nat>)
    requires Ready(w, t, a, sp, mem) && InSlots(mem, params, slots, vs, a.base)
    ensures Received(t.mem, params, slots, vs, a.base)
  {
    hide Load, Readable;
    forall k | 0 <= k < |vs| ensures Load(t.mem, a.base - slots[k], Size(params[k].ty)) == vs[k] {
      assert Readable(mem, a.base - slots[k], Size(params[k].ty));
      LoadAgrees(w, t, a, sp, mem, a.base - slots[k], Size(params[k].ty));
    }
  }

  /** The machine at the first instruction of the body of p, called with the values vs from state s. */
  ghost predicate AtBody(w: World, p: Proc, vs: seq<nat>, s: State, t: State, ln: nat) {
    |p.slots| == |p.sig.params| &&
    t.regs.rbp == s.regs.rsp - 16 && t.regs.rsp == s.regs.rsp - 16 - p.stackSize &&
    At(w.code, t.pc, BlockCode(p.body, ProcEnv(p, w.c.globals), ln)) &&
    Received(t.mem, p.sig.params, p.slots, vs, s.regs.rsp - 16) &&
    Load(t.mem, s.regs.rsp - 8, 8) == s.pc + 1 && Load(t.mem, s.regs.rsp - 16, 8) == s.regs.rbp &&
    forall x :: !(w.c.limit <= x < s.regs.rsp) ==> Get(t.mem, x) == Get(s.mem, x)
  }

  /** Binding wrote only below the return address, so nothing outside the stack changed. */
  lemma OutsideKept(w: World, s: State, s2: State, t: State, low: int, mem: Mem, m1: Mem)
    requires Agrees(mem, s.mem) && Settled(w, s2, t, m1, low) && low <= s.regs.rsp - 16
    requires forall x | !(low <= x < s.regs.rsp - 16) :: Get(m1, x) == Get(mem, x) && (x in m1 <==> x in mem)
    requires forall x | x < s.regs.rsp - 16 || s.regs.rsp <= x :: Get(s2.mem, x) == Get(s.mem, x)
    requires w.c.limit <= low
    ensures forall x :: !(w.c.limit <= x < s.regs.rsp) ==> Get(t.mem, x) == Get(s.mem, x)
  {
    forall x | !(w.c.limit <= x < s.regs.rsp) ensures Get(t.mem, x) == Get(s.mem, x) {
      assert Get(m1, x) == Get(mem, x);
      assert Get(s2.mem, x) == Get(s.mem, x);
    }
  }

  lemma BodyReached(w: World, p: Proc, vs: seq<nat>, s: State, acc: set<int>, mem: Mem, m1: Mem)
    returns (n: nat, t: State, ln: nat)
    requires Linked(w) && Resolved(w) && Calling(w, p, vs, s, acc, mem) && w.c.limit <= s.regs.rsp - 16 - p.stackSize
    requires var live := acc + Range(s.regs.rsp - 16 - p.stackSize, p.stackSize);
             var r := Bind(p.sig.params, p.slots, vs, s.regs.rsp - 16, live, mem);
             r.Done? && r.mem == m1
    requires InSlots(m1, p.sig.params, p.slots, vs, s.regs.rsp - 16)
    requires forall x | !(s.regs.rsp - 16 - p.stackSize <= x < s.regs.rsp - 16) ::
               Get(m1, x) == Get(mem, x) && (x in m1 <==> x in mem)
    ensures Run(w.code, n, s) == Some(t) && Stays(w, n, s, s.regs.rsp, acc) && AtBody(w, p, vs, s, t, ln)
  {
    hide Run, SupportedProc, Passed, At, ParamsCode, BlockCode, Bind, InSlots, Received, Inside, Overlays, Linked, Load,
      Agrees, FrameState, ProcEnv;
    hide Stays, Apart;
    var sp := s.regs.rsp;
    var low, live := sp - 16 - p.stackSize, acc + Range(sp - 16 - p.stackSize, p.stackSize);
    var at, h;
    ln, at, h := ProcParts(w, p);
    var start := at + 4 + |ParamsCode(p.sig.params, p.slots, 0, 16)|;
    n, t := EnterSim(w, p, vs, s.regs.rbp, sp, acc, mem, s, start);
    InsideAt(w.code, h, start, BlockCode(p.body, ProcEnv(p, w.c.globals), ln));
    var s2 := FrameState(CalledState(s), p.stackSize);
    FrameKept(w, s, s2, t, p.stackSize, acc, sp, mem, m1);
    OutsideKept(w, s, s2, t, low, mem, m1);
    SameInSlots(w, t, Act(ProcEnv(p, w.c.globals), sp - 16, live), low, m1, p.sig.params, p.slots, vs);
  }

  /** From the call to the body: whatever the body does later, the machine reaches its first
      instruction with every argument in the slot of its parameter, the frame pointer and the return
      address saved above the frame, and the stack pointer at the end of the frame. Nothing outside
      the free stack has changed. */
  lemma ArgumentsArrive(src: seq<Proc>, procs: seq<Proc>, post: Code, limit: nat, p: Proc, vs: seq<nat>, s: State,
                        acc: set<int>, mem: Mem)
    returns (n: nat, t: State, ln: nat)
    requires procs == LayProgram(src).0 && Compilable(procs, post)
    requires Calling(Program(procs, post, limit), p, vs, s, acc, mem) && limit <= s.regs.rsp - 16 - p.stackSize
    ensures var w := Program(procs, post, limit);
            Run(w.code, n, s) == Some(t) && Stays(w, n, s, s.regs.rsp, acc) && AtBody(w, p, vs, s, t, ln)
  {
    hide Run, LayProgram, ProgramCode, LinkMap, SupportedProc, Passed, At, Bind, InSlots, Linked, Agrees, Stays, Apart,
      InRange;
    hide AtBody, Resolved;
    var w, base := Program(procs, post, limit), s.regs.rsp - 16;
    ProgramLinked(procs, post, limit);
    LinkedResolved(w);
    PassedInRange(s.regs, s.mem, s.regs.rsp, p.sig.params, vs);
    FrameBinds(src, p, vs, base, acc, mem);
    var m1 := Bind(p.sig.params, p.slots, vs, base, acc + Range(base - p.stackSize, p.stackSize), mem).mem;
    n, t, ln := BodyReached(w, p, vs, s, acc, mem, m1);
  }
}
