/** A procedure with a loop, for every argument: what it computes, and when it comes back. */
module Sums {
  import opened Types
  import opened Memory
  import opened Words
  import opened Syntax
  import opened Typing
  import opened Machine
  import opened Emission
  import opened Semantics
  import opened Expand
  import opened Desugar
  import opened Layout
  import opened Operators
  import opened Leaves
  import opened Frames
  import opened Simulation
  import opened Relation
  import opened Linking
  import opened Correctness
  import opened Pipeline
  import opened Sample

  const ZERO := Num(NumAny, 0)
  const MORE := Binary(Neq, Ident("i"), Ident("n"))
  const ADD := Assign(Ident("s"), Binary(Add, Ident("s"), Ident("i")))
  const STEP := Assign(Ident("i"), Binary(Add, Ident("i"), Num(NumAny, 1)))

  function Loop(off: nat, table: nat, inner: nat): Stmt {
    For("i", Int, ZERO, MORE, STEP, Block([ExprStmt(ADD)], inner), off, table)
  }

  /** proc sum(n: int) int { let s: int = 0; for i: int = 0, i != n, i = i + 1 { s = s + i; } return s; } */
  const WRITTEN := Proc("sum", Signature([Param("n", Int)], Int),
                        Block([VarDecl("s", Int, Some(ZERO), 0), Loop(0, 0, 0), Return(Some(Ident("s")))], 0), [], 0)

  /** The same with its objects placed: s, i and n lie 16, 32 and 36 bytes below the frame base. */
  const SUM := Proc("sum", Signature([Param("n", Int)], Int),
                    Block([VarDecl("s", Int, Some(ZERO), 16), Loop(32, 2, 3), Return(Some(Ident("s")))], 1), [36], 36)

  lemma OnePlaced(x: Stmt, rest: seq<Stmt>, l: Lay)
    requires l.Valid()
    ensures var r := PlaceStmt(x, l);
            var q := PlaceStmts(rest, r.1);
            PlaceStmts([x] + rest, l) == ([r.0] + q.0, q.1)
  {
    hide PlaceStmt;
    assert ([x] + rest)[1..] == rest;
  }

  lemma LastPlaced(x: Stmt, l: Lay)
    requires l.Valid()
    ensures PlaceStmts([x], l) == ([PlaceStmt(x, l).0], PlaceStmt(x, l).1)
  {
    hide PlaceStmt;
    var r := PlaceStmt(x, l);
    OnePlaced(x, [], l);
    assert PlaceStmts([], r.1) == ([], r.1);
    hide PlaceStmts;
    assert [x] + [] == [x] && [r.0] + [] == [r.0];
  }

  lemma ThreePlaced(x: Stmt, y: Stmt, z: Stmt, l: Lay)
    requires l.Valid()
    ensures var r1 := PlaceStmt(x, l);
            var r2 := PlaceStmt(y, r1.1);
            var r3 := PlaceStmt(z, r2.1);
            PlaceStmts([x, y, z], l) == ([r1.0, r2.0, r3.0], r3.1)
  {
    hide PlaceStmt, PlaceStmts;
    var r1 := PlaceStmt(x, l);
    OnePlaced(x, [y, z], l);
    OnePlaced(y, [z], r1.1);
    var r2 := PlaceStmt(y, r1.1);
    LastPlaced(z, r2.1);
    var r3 := PlaceStmt(z, r2.1);
    assert [x] + [y, z] == [x, y, z] && [y] + [z] == [y, z];
    assert [r1.0] + ([r2.0] + [r3.0]) == [r1.0, r2.0, r3.0];
  }

  lemma PartsPlaced(size: nat)
    ensures LayExpr(ZERO, size) == (ZERO, size) && LayExpr(MORE, size) == (MORE, size)
    ensures LayExpr(ADD, size) == (ADD, size) && LayExpr(STEP, size) == (STEP, size)
  {
    assert LayExpr(Ident("s"), size) == (Ident("s"), size) && LayExpr(Ident("i"), size) == (Ident("i"), size);
    assert LayExpr(Ident("n"), size) == (Ident("n"), size) && LayExpr(Num(NumAny, 1), size) == (Num(NumAny, 1), size);
    assert LayExpr(ADD.rvalue, size) == (ADD.rvalue, size) && LayExpr(STEP.rvalue, size) == (STEP.rvalue, size);
  }

  lemma LoopBodyPlaced(l: Lay)
    requires l.Valid()
    ensures PlaceStmts([ExprStmt(ADD)], l) == ([ExprStmt(ADD)], l)
  {
    hide LayExpr, PlaceStmts;
    LastPlaced(ExprStmt(ADD), l);
    PartsPlaced(l.size);
    assert LayStmt(ExprStmt(ADD), l) == (ExprStmt(ADD), l);
  }

  lemma LoopPlaced(l: Lay)
    requires l.Valid() && l.size == 16 && |l.scopes| == 2
    ensures PlaceStmt(Loop(0, 0, 0), l).0 == Loop(32, 2, 3) && PlaceStmt(Loop(0, 0, 0), l).1.size == 32
  {
    hide LayExpr, PlaceStmts;
    PartsPlaced(32);
    LoopBodyPlaced(l.Push().(size := 32).Insert("i", Variable(Int, 32)).Push());
  }

  lemma StatementsPlaced(l: Lay)
    requires l.Valid() && l.size == 0 && |l.scopes| == 2
    ensures PlaceStmts(WRITTEN.body.stmts, l).0 == SUM.body.stmts && PlaceStmts(WRITTEN.body.stmts, l).1.size == 32
  {
    hide PlaceStmts;
    var first, last := VarDecl("s", Int, Some(ZERO), 0), Return(Some(Ident("s")));
    ThreePlaced(first, Loop(0, 0, 0), last, l);
    var r := PlaceStmt(first, l);
    FirstPlaced(l);
    hide LayStmt;
    LoopPlaced(r.1);
    SecondPlaced(PlaceStmt(Loop(0, 0, 0), r.1).1);
  }

  lemma FirstPlaced(l: Lay)
    requires l.Valid() && l.size == 0
    ensures var r := PlaceStmt(VarDecl("s", Int, Some(ZERO), 0), l);
            r.0 == VarDecl("s", Int, Some(ZERO), 16) && r.1.size == 16 && |r.1.scopes| == |l.scopes|
  {
    assert LayExpr(ZERO, 16) == (ZERO, 16);
  }

  lemma SecondPlaced(l: Lay)
    requires l.Valid()
    ensures PlaceStmt(Return(Some(Ident("s"))), l) == (Return(Some(Ident("s"))), l)
  {
    assert LayExpr(Ident("s"), l.size) == (Ident("s"), l.size);
  }

  /** Where the objects of the procedure lie. */
  lemma SumPlaced()
    ensures Pipeline.Placed([WRITTEN]) == [SUM]
  {
    hide PlaceStmts, PlaceStmt;
    var l := Lay(0, [Scope(map[], None)], 0);
    var l0 := l.Insert("sum", Routine(WRITTEN.sig)).(size := 0);
    StatementsPlaced(l0.Push());
    var r := PlaceBlock(WRITTEN.body, l0);
    assert r.0 == SUM.body && r.1.size == 32;
    hide PlaceBlock;
    ParameterPlaced(r.1.(head := 1));
    assert PlaceProc(WRITTEN, l).0 == SUM;
    hide PlaceProc;
    assert [WRITTEN][1..] == [];
  }

  lemma ParameterPlaced(l: Lay)
    requires l.Valid() && l.size == 32
    ensures LayParams([Param("n", Int)], l).0 == [36] && LayParams([Param("n", Int)], l).1.size == 36
  {
    assert [Param("n", Int)][1..] == [];
  }

  /** Four bytes of memory hold a value. */
  predicate Keeps(mem: Mem, at: int, v: nat) {
    Readable(mem, at, 4) && Load(mem, at, 4) == v
  }

  /** The values of i, s and n. */
  predicate Values(mem: Mem, base: int, i: nat, s: nat, n: nat) {
    Keeps(mem, base - 32, i) && Keeps(mem, base - 16, s) && Keeps(mem, base - 36, n)
  }

  /** What the names mean inside the loop. */
  predicate Named(env: Env) {
    "i" in env && env["i"] == Variable(Int, 32) && "s" in env && env["s"] == Variable(Int, 16) &&
    "n" in env && env["n"] == Parameter(Int, 36)
  }

  /** The frame is live, inside the address space, and there is room for two temporaries. */
  ghost predicate Roomy(c: Ctx, a: Act, sp: int, mem: Mem) {
    mem.Keys <= a.acc && 36 <= a.base < TWO_64 && c.limit <= sp - 16 &&
    forall x | a.base - 36 <= x < a.base :: x in a.acc
  }

  lemma Kept(mem: Mem, at: int, v: nat)
    requires v < TWO_32
    ensures Keeps(Store(mem, at, 4, v), at, v)
    ensures forall b, w | (b + 4 <= at || at + 4 <= b) && Keeps(mem, b, w) :: Keeps(Store(mem, at, 4, v), b, w)
  {
    hide Load, Store;
    LoadStore(mem, at, 4, v);
    StoreKeys(mem, at, 4, v);
    ModulusIsPow256(4);
    UniqueMod(v, TWO_32, 0, v);
    forall b, w | (b + 4 <= at || at + 4 <= b) && Keeps(mem, b, w) ensures Keeps(Store(mem, at, 4, v), b, w) {
      forall x | b <= x < b + 4 ensures Get(Store(mem, at, 4, v), x) == Get(mem, x) {
        StoreOutside(mem, at, 4, v, x);
      }
      LoadSame(Store(mem, at, 4, v), mem, b, 4);
    }
  }

  lemma NameRead(c: Ctx, fuel: nat, x: string, off: nat, v: nat, a: Act, sp: int, mem: Mem)
    requires x in a.env && (a.env[x] == Variable(Int, off) || a.env[x] == Parameter(Int, off))
    requires mem.Keys <= a.acc && Keeps(mem, a.base - off, v)
    ensures Eval(c, fuel, Ident(x), a, sp, mem) == Done(v, mem) && TypeOf(Ident(x), a.env) == Some(Int)
  {
    hide Load;
  }

  lemma Added(c: Ctx, fuel: nat, l: Expr, r: Expr, x: nat, y: nat, a: Act, sp: int, mem: Mem)
    requires mem.Keys <= a.acc && RoomFor(c, sp) && TypeOf(l, a.env) == Some(Int) && TypeOf(r, a.env) == Some(Int)
    requires Eval(c, fuel, r, a, sp, mem) == Done(y, mem) && Eval(c, fuel, l, a, sp - 8, mem) == Done(x, mem)
    ensures var e := Binary(Add, l, r);
            Eval(c, fuel, e, a, sp, mem) == Done((x + y) % TWO_32, mem) && TypeOf(e, a.env) == Some(Int)
  {
    var e := Binary(Add, l, r);
    assert TypeOf(e, a.env) == Some(Int);
    assert BinaryValue(Add, Int, Int, x, y) == (x + y) % TWO_32;
    hide BinaryValue;
    assert EvalBinary(c, fuel, e, a, sp, mem) == Done((x + y) % TWO_32, mem);
  }

  lemma Assigned(c: Ctx, fuel: nat, x: string, off: nat, e: Expr, v: nat, a: Act, sp: int, mem: Mem)
    requires mem.Keys <= a.acc && RoomFor(c, sp) && x in a.env && a.env[x] == Variable(Int, off)
    requires 0 <= a.base - off < TWO_64 && Writable(a.acc, a.base - off, 4)
    requires TypeOf(e, a.env) == Some(Int) && Eval(c, fuel, e, a, sp - 8, mem) == Done(v, mem)
    ensures Eval(c, fuel, Assign(Ident(x), e), a, sp, mem) == Done(v, Store(mem, a.base - off, 4, v))
    ensures Store(mem, a.base - off, 4, v).Keys <= a.acc
  {
    hide Store;
    var q := Assign(Ident(x), e);
    StoreKeys(mem, a.base - off, 4, v);
    UniqueMod(a.base - off, TWO_64, 0, a.base - off);
    assert AddrTypeOf(Ident(x), a.env) == Some(Pointer(Int));
    assert TypeOf(q, a.env) == Some(Int);
    assert EvalAddr(c, fuel, Ident(x), a, sp, mem) == Done(a.base - off, mem);
    assert EvalAssign(c, fuel, q, a, sp, mem) == Done(v, Store(mem, a.base - off, 4, v));
  }

  /** The condition holds while i and n differ, and also whenever i does not fit into one byte. */
  lemma Tested(c: Ctx, fuel: nat, i: nat, s: nat, n: nat, a: Act, sp: int, mem: Mem)
    requires Roomy(c, a, sp, mem) && Named(a.env) && Values(mem, a.base, i, s, n)
    ensures var r := Eval(c, fuel, MORE, a, sp, mem);
            r.Done? && r.mem == mem && (Truth(r.value) <==> i != n || i >= 256)
  {
    hide Load, WordOp;
    NameRead(c, fuel, "n", 36, n, a, sp, mem);
    NameRead(c, fuel, "i", 32, i, a, sp - 8, mem);
    hide Eval;
    assert TypeOf(MORE, a.env) == Some(Int);
    BoundedLoad(mem, a.base - 32, i);
    BoundedLoad(mem, a.base - 36, n);
    TestedValue(i, n);
    MoreEvaluated(c, fuel, i, n, a, sp, mem);
  }

  lemma BoundedLoad(mem: Mem, at: int, v: nat)
    requires Keeps(mem, at, v)
    ensures v < TWO_32
  {
    ModulusIsPow256(4);
    hide Load;
  }

  lemma TestedValue(i: nat, n: nat)
    requires i < TWO_32 && n < TWO_32
    ensures Truth(BinaryValue(Neq, Int, Int, i, n)) <==> i != n || i >= 256
  {
    Signs(i, n);
  }

  lemma Signs(i: nat, n: nat)
    requires i < TWO_32 && n < TWO_32
    ensures Signed(i, 4) == Signed(n, 4) <==> i == n
  {
  }

  lemma MoreEvaluated(c: Ctx, fuel: nat, i: nat, n: nat, a: Act, sp: int, mem: Mem)
    requires mem.Keys <= a.acc && RoomFor(c, sp) && i < TWO_32 && n < TWO_32
    requires TypeOf(MORE, a.env) == Some(Int) && Ty(MORE.lhs, a.env) == Int && Ty(MORE.rhs, a.env) == Int
    requires Eval(c, fuel, Ident("n"), a, sp, mem) == Done(n, mem)
    requires Eval(c, fuel, Ident("i"), a, sp - 8, mem) == Done(i, mem)
    ensures Eval(c, fuel, MORE, a, sp, mem) == Done(BinaryValue(Neq, Int, Int, i, n), mem)
  {
    hide BinaryValue, TypeOf;
    assert EvalBinary(c, fuel, MORE, a, sp, mem) == Done(BinaryValue(Neq, Int, Int, i, n), mem);
  }

  /** The body adds i to s. */
  lemma BodyRuns(c: Ctx, fuel: nat, i: nat, s: nat, n: nat, a: Act, sp: int, mem: Mem) returns (m: Mem)
    requires Roomy(c, a, sp, mem) && Named(a.env) && Values(mem, a.base, i, s, n)
    ensures ExecBlock(c, fuel, Block([ExprStmt(ADD)], 3), a, sp, mem) == Done(Next, m) && m.Keys <= a.acc
    ensures Values(m, a.base, i, (s + i) % TWO_32, n)
  {
    hide Load, Store, Keeps;
    var v, at := (s + i) % TWO_32, a.base - 16;
    NameRead(c, fuel, "i", 32, i, a, sp - 8, mem);
    NameRead(c, fuel, "s", 16, s, a, sp - 16, mem);
    Added(c, fuel, Ident("s"), Ident("i"), s, i, a, sp - 8, mem);
    Assigned(c, fuel, "s", 16, ADD.rvalue, v, a, sp, mem);
    m := Store(mem, at, 4, v);
    Kept(mem, at, v);
    OneStatement(c, fuel, ADD, v, a, sp, mem, m);
  }

  lemma OneStatement(c: Ctx, fuel: nat, e: Expr, v: nat, a: Act, sp: int, mem: Mem, m: Mem)
    requires mem.Keys <= a.acc && m.Keys <= a.acc && Eval(c, fuel, e, a, sp, mem) == Done(v, m)
    ensures ExecBlock(c, fuel, Block([ExprStmt(e)], 3), a, sp, mem) == Done(Next, m)
  {
    hide Eval;
    var stmts := [ExprStmt(e)];
    assert stmts[1..] == [] && Declared(stmts) == map[] && a.env + map[] == a.env;
    assert a.(env := a.env + Declared(stmts)) == a;
    assert ExecStmt(c, fuel, stmts[0], a, sp, mem) == Done(Next, m);
    assert ExecStmts(c, fuel, stmts, a, sp, mem) == Done(Next, m);
  }

  /** The update counts i up, wrapping around. */
  lemma Stepped(c: Ctx, fuel: nat, i: nat, s: nat, n: nat, a: Act, sp: int, mem: Mem) returns (m: Mem)
    requires Roomy(c, a, sp, mem) && Named(a.env) && Values(mem, a.base, i, s, n)
    ensures Eval(c, fuel, STEP, a, sp, mem) == Done((i + 1) % TWO_32, m) && m.Keys <= a.acc
    ensures Values(m, a.base, (i + 1) % TWO_32, s, n)
  {
    hide Load, Store, Keeps;
    var v, at, one := (i + 1) % TWO_32, a.base - 32, Num(NumAny, 1);
    NameRead(c, fuel, "i", 32, i, a, sp - 16, mem);
    assert Eval(c, fuel, one, a, sp - 8, mem) == Done(1, mem) && TypeOf(one, a.env) == Some(Int);
    Added(c, fuel, Ident("i"), one, i, 1, a, sp - 8, mem);
    Assigned(c, fuel, "i", 32, STEP.rvalue, v, a, sp, mem);
    m := Store(mem, at, 4, v);
    Kept(mem, at, v);
  }

  /** One round of the loop. */
  lemma RoundRuns(c: Ctx, fuel: nat, i: nat, s: nat, n: nat, a: Act, sp: int, mem: Mem) returns (m: Mem)
    requires Roomy(c, a, sp, mem) && Named(a.env) && Values(mem, a.base, i, s, n) && (i != n || i >= 256)
    ensures Roomy(c, a, sp, m) && Values(m, a.base, (i + 1) % TWO_32, (s + i) % TWO_32, n)
    ensures var q := Loop(32, 2, 3);
            ExecFor(c, fuel, q, a, sp, mem) == if fuel == 0 then OutOfFuel else ExecFor(c, fuel - 1, q, a, sp, m)
  {
    hide Eval, ExecBlock, Values, Named;
    Tested(c, fuel, i, s, n, a, sp, mem);
    var f := if fuel == 0 then 0 else fuel - 1;
    var m1 := BodyRuns(c, f, i, s, n, a, sp, mem);
    m := Stepped(c, f, i, (s + i) % TWO_32, n, a, sp, m1);
  }

  /** The sum of the numbers below i. */
  function Below(i: nat): nat {
    if i == 0 then 0 else Below(i - 1) + (i - 1)
  }

  lemma {:induction false} Gauss(i: nat)
    ensures 2 * Below(i) == i * (i - 1)
    decreases i
  {
    if i > 0 {
      Gauss(i - 1);
      assert (i - 1) * (i - 2) + 2 * (i - 1) == i * (i - 1);
    }
  }

  /** With n below 256 the loop ends with the sum of the numbers below n. */
  lemma {:induction false} LoopEnds(c: Ctx, fuel: nat, i: nat, n: nat, a: Act, sp: int, mem: Mem) returns (m: Mem)
    requires Roomy(c, a, sp, mem) && Named(a.env) && i <= n < 256 && n - i <= fuel
    requires Values(mem, a.base, i, Below(i), n)
    ensures ExecFor(c, fuel, Loop(32, 2, 3), a, sp, mem) == Done(Next, m) && m.Keys <= a.acc
    ensures Values(m, a.base, n, Below(n), n)
    decreases n - i
  {
    hide Eval, ExecBlock, Values, Named, Below;
    if i == n {
      Tested(c, fuel, i, Below(i), n, a, sp, mem);
      m := mem;
    } else {
      hide ExecFor;
      BelowNext(i);
      var m1 := RoundRuns(c, fuel, i, Below(i), n, a, sp, mem);
      m := LoopEnds(c, fuel - 1, i + 1, n, a, sp, m1);
    }
  }

  lemma BelowNext(i: nat)
    requires i < 256
    ensures Below(i + 1) == Below(i) + i == (Below(i) + i) % TWO_32 && (i + 1) % TWO_32 == i + 1
  {
    BelowSmall(i);
  }

  lemma {:induction false} BelowSmall(i: nat)
    ensures i <= 256 ==> Below(i) <= 256 * i
    decreases i
  {
    if i > 0 {
      BelowSmall(i - 1);
    }
  }

  /** With any other n it never ends, whatever i is: when i reaches n, the bytes of i above the lowest
      one make the condition hold. */
  lemma {:induction false} LoopGoesOn(c: Ctx, fuel: nat, i: nat, s: nat, n: nat, a: Act, sp: int, mem: Mem)
    requires Roomy(c, a, sp, mem) && Named(a.env) && 256 <= n && Values(mem, a.base, i, s, n)
    ensures ExecFor(c, fuel, Loop(32, 2, 3), a, sp, mem).OutOfFuel?
    decreases fuel
  {
    hide Values, Named, ExecFor;
    var m := RoundRuns(c, fuel, i, s, n, a, sp, mem);
    if fuel > 0 {
      LoopGoesOn(c, fuel - 1, (i + 1) % TWO_32, (s + i) % TWO_32, n, a, sp, m);
    }
  }

  /** The frame of a call and what is live in it. */
  function Frame(c: Ctx, sp: int): Act {
    Act(ProcEnv(SUM, c.globals), sp - 16, {} + Range(sp - 52, 36))
  }

  function LoopAct(c: Ctx, sp: int): Act {
    var a := Frame(c, sp);
    var b := a.(env := a.env + Declared(SUM.body.stmts));
    b.(env := b.env["i" := Variable(Int, 32)])
  }

  lemma NamesFound(c: Ctx, sp: int)
    ensures Named(LoopAct(c, sp).env) && LoopAct(c, sp).base == sp - 16 && LoopAct(c, sp).acc == Frame(c, sp).acc
    ensures var a := Frame(c, sp);
            var env := a.env + Declared(SUM.body.stmts);
            "s" in env && env["s"] == Variable(Int, 16)
  {
    var stmts := SUM.body.stmts;
    assert Declared(stmts[3..]) == map[];
    assert Declared(stmts[2..]) == map[] by { assert stmts[2..][1..] == stmts[3..]; }
    assert Declared(stmts[1..]) == map[] by { assert stmts[1..][1..] == stmts[2..]; }
    assert Declared(stmts) == map["s" := Variable(Int, 16)];
    assert SUM.sig.params[1..] == [];
    assert Parameters([Param("n", Int)], [36]) == map["n" := Parameter(Int, 36)];
  }

  lemma Initialised(c: Ctx, fuel: nat, at: int, a: Act, sp: int, mem: Mem)
    requires mem.Keys <= a.acc && Writable(a.acc, at, 4)
    ensures Declare(c, fuel, Int, ZERO, at, a, sp, mem) == Done(0, Store(mem, at, 4, 0))
    ensures Store(mem, at, 4, 0).Keys <= a.acc
  {
    hide Store;
    StoreKeys(mem, at, 4, 0);
    assert Eval(c, fuel, ZERO, a, sp, mem) == Done(0, mem);
    assert EvalInto(c, fuel, ZERO, 4, at, a, sp, mem) == Done(0, Store(mem, at, 4, 0));
  }

  /** The memory when the loop begins. */
  lemma Prepared(base: int, n: nat) returns (m0: Mem, m1: Mem, m2: Mem)
    requires n < TWO_32
    ensures m0 == Store(map[], base - 36, 4, n) && m1 == Store(m0, base - 16, 4, 0) && m2 == Store(m1, base - 32, 4, 0)
    ensures Values(m2, base, 0, Below(0), n)
    ensures m0.Keys <= Range(base - 36, 36) && m1.Keys <= Range(base - 36, 36) && m2.Keys <= Range(base - 36, 36)
  {
    hide Load, Store, Keeps;
    m0 := Store(map[], base - 36, 4, n);
    m1 := Store(m0, base - 16, 4, 0);
    m2 := Store(m1, base - 32, 4, 0);
    StoreKeys(map[], base - 36, 4, n);
    StoreKeys(m0, base - 16, 4, 0);
    StoreKeys(m1, base - 32, 4, 0);
    Kept(map[], base - 36, n);
    Kept(m0, base - 16, 0);
    Kept(m1, base - 32, 0);
  }

  /** The statements in front of the loop. */
  lemma ReachesLoop(c: Ctx, fuel: nat, n: nat, sp: int) returns (m: Mem)
    requires n < TWO_32 && 68 <= sp < TWO_64 && c.limit <= sp - 68
    ensures var a := LoopAct(c, sp);
            Roomy(c, a, sp - 52, m) && Named(a.env) && Values(m, a.base, 0, Below(0), n)
    ensures var a := Frame(c, sp);
            var r := ExecFor(c, fuel, Loop(32, 2, 3), LoopAct(c, sp), sp - 52, m);
            CallProc(c, fuel, SUM, [n], sp, {}, map[]) ==
            FinishCall(Int, {}, Behind(c, fuel, r, LAST, a.(env := a.env + Declared(SUM.body.stmts)), sp - 52))
  {
    hide Values, Named, Store, ExecFor, CallProc, ExecBlock, FinishCall, Behind, Declared, Frame, LoopAct, Roomy;
    NamesFound(c, sp);
    var m0, m1;
    m0, m1, m := Prepared(sp - 16, n);
    FrameRoomy(c, sp, m);
    BoundTo(c, fuel, n, sp, m0);
    StartsLoop(c, fuel, sp, m0, m1, m);
  }

  lemma FrameRoomy(c: Ctx, sp: int, m: Mem)
    requires 68 <= sp < TWO_64 && c.limit <= sp - 68 && m.Keys <= Range(sp - 52, 36)
    ensures Roomy(c, LoopAct(c, sp), sp - 52, m) && m.Keys <= Frame(c, sp).acc
  {
    hide Declared, ProcEnv;
  }

  const LAST := [Return(Some(Ident("s")))]

  /** What follows the first statement of a list. */
  function Behind(c: Ctx, fuel: nat, r: Outcome<Flow>, rest: seq<Stmt>, a: Act, sp: int): Outcome<Flow>
    requires r.Done? ==> r.mem.Keys <= a.acc
  {
    var (flow, m) :- r;
    if flow.Returned? then Done(flow, m) else ExecStmts(c, fuel, rest, a, sp, m)
  }

  lemma BoundTo(c: Ctx, fuel: nat, n: nat, sp: int, m0: Mem)
    requires c.limit <= sp - 68 && m0 == Store(map[], sp - 52, 4, n) && m0.Keys <= Range(sp - 52, 36)
    ensures CallProc(c, fuel, SUM, [n], sp, {}, map[]) ==
              FinishCall(Int, {}, ExecBlock(c, fuel, SUM.body, Frame(c, sp), sp - 52, m0))
  {
    hide Store, ExecBlock, FinishCall, CallProc, ProcEnv, Bind, Writable, Range;
    var live := {} + Range(sp - 52, 36);
    FrameWritable(sp - 52);
    OneBound(Param("n", Int), 36, n, sp - 16, live, m0);
    BodyOf(c, fuel, SUM, [n], sp, m0);
  }

  lemma FrameWritable(low: int)
    ensures Writable({} + Range(low, 36), low, 4) && {} + Range(low, 36) == Range(low, 36)
  {
    hide Range;
  }

  lemma OneBound(p: Param, slot: nat, n: nat, base: int, live: set<int>, m0: Mem)
    requires p.ty == Int && Writable(live, base - slot, 4) && m0 == Store(map[], base - slot, 4, n) && m0.Keys <= live
    ensures Bind([p], [slot], [n], base, live, map[]) == Done((), m0)
  {
    hide Store;
    assert [p][1..] == [] && [slot][1..] == [] && [n][1..] == [];
    assert WriteTo(map[], live, base - slot, 4, n) == Done(n, m0);
  }

  lemma BodyOf(c: Ctx, fuel: nat, p: Proc, vs: seq<nat>, sp: int, m0: Mem)
    requires |vs| == |p.slots| == |p.sig.params| && c.limit <= sp - 16 - p.stackSize
    requires var live := {} + Range(sp - 16 - p.stackSize, p.stackSize);
             m0.Keys <= live && Bind(p.sig.params, p.slots, vs, sp - 16, live, map[]) == Done((), m0)
    ensures var low := sp - 16 - p.stackSize;
            var a := Act(ProcEnv(p, c.globals), sp - 16, {} + Range(low, p.stackSize));
            CallProc(c, fuel, p, vs, sp, {}, map[]) ==
            FinishCall(p.sig.ret, {}, ExecBlock(c, fuel, p.body, a, low, m0))
  {
    hide Bind, ExecBlock, FinishCall, ProcEnv;
  }

  lemma StartsLoop(c: Ctx, fuel: nat, sp: int, m0: Mem, m1: Mem, m2: Mem)
    requires m1 == Store(m0, sp - 32, 4, 0) && m2 == Store(m1, sp - 48, 4, 0)
    requires var acc := Range(sp - 52, 36); m0.Keys <= acc && m1.Keys <= acc && m2.Keys <= acc
    ensures var a, b := Frame(c, sp), LoopAct(c, sp);
            var inner := a.(env := a.env + Declared(SUM.body.stmts));
            ExecBlock(c, fuel, SUM.body, a, sp - 52, m0) ==
            Behind(c, fuel, ExecFor(c, fuel, Loop(32, 2, 3), b, sp - 52, m2), LAST, inner, sp - 52)
  {
    hide Store, ExecFor, Declare, Declared;
    var a, b, stmts := Frame(c, sp), LoopAct(c, sp), SUM.body.stmts;
    var inner := a.(env := a.env + Declared(stmts));
    Initialised(c, fuel, sp - 32, inner, sp - 52, m0);
    Initialised(c, fuel, sp - 48, b, sp - 52, m1);
    assert stmts[1..] == [stmts[1], stmts[2]] && stmts[1..][1..] == [stmts[2]];
    assert ExecStmt(c, fuel, stmts[0], inner, sp - 52, m0) == Done(Next, m1);
    assert ExecStmt(c, fuel, stmts[1], inner, sp - 52, m1) == ExecFor(c, fuel, Loop(32, 2, 3), b, sp - 52, m2);
    hide ExecStmt;
    OneMore(c, fuel, stmts[0], stmts[1..], inner, sp - 52, m0, m1);
    OneMoreOf(c, fuel, stmts[1], [stmts[2]], inner, sp - 52, m1);
    assert [stmts[0]] + stmts[1..] == stmts && [stmts[1]] + [stmts[2]] == stmts[1..];
  }

  lemma OneMore(c: Ctx, fuel: nat, s: Stmt, rest: seq<Stmt>, a: Act, sp: int, mem: Mem, m: Mem)
    requires mem.Keys <= a.acc && m.Keys <= a.acc && ExecStmt(c, fuel, s, a, sp, mem) == Done(Next, m)
    ensures ExecStmts(c, fuel, [s] + rest, a, sp, mem) == ExecStmts(c, fuel, rest, a, sp, m)
  {
    hide ExecStmt;
    assert ([s] + rest)[1..] == rest;
  }

  lemma OneMoreOf(c: Ctx, fuel: nat, s: Stmt, rest: seq<Stmt>, a: Act, sp: int, mem: Mem)
    requires mem.Keys <= a.acc
    ensures ExecStmts(c, fuel, [s] + rest, a, sp, mem) ==
              Behind(c, fuel, ExecStmt(c, fuel, s, a, sp, mem), rest, a, sp)
  {
    hide ExecStmt;
    assert ([s] + rest)[1..] == rest;
  }

  /** By the rules of the source a call of the procedure returns the sum of the numbers below its
      argument, for arguments below 256, and never returns for any other. */
  lemma SumMeans(c: Ctx, fuel: nat, n: nat, sp: int)
    requires n < TWO_32 && 68 <= sp < TWO_64 && c.limit <= sp - 68
    ensures n < 256 && n <= fuel ==> CallProc(c, fuel, SUM, [n], sp, {}, map[]) == Done(Below(n), map[])
    ensures n >= 256 ==> CallProc(c, fuel, SUM, [n], sp, {}, map[]).OutOfFuel?
  {
    hide CallProc, ExecFor, Values, Named, LoopAct, FinishCall, Declared, Below, Roomy, Frame, ExecStmts;
    NamesFound(c, sp);
    var m := ReachesLoop(c, fuel, n, sp);
    if n >= 256 {
      LoopGoesOn(c, fuel, 0, Below(0), n, LoopAct(c, sp), sp - 52, m);
    } else if n <= fuel {
      var m' := LoopEnds(c, fuel, 0, n, LoopAct(c, sp), sp - 52, m);
      LoopLeft(c, fuel, n, sp, m');
    }
  }

  lemma LoopLeft(c: Ctx, fuel: nat, n: nat, sp: int, m: Mem)
    requires n < 256 && m.Keys <= LoopAct(c, sp).acc && Values(m, sp - 16, n, Below(n), n)
    ensures var a := Frame(c, sp);
            m.Keys <= a.acc &&
            FinishCall(Int, {}, Behind(c, fuel, Done(Next, m), LAST, a.(env := a.env + Declared(SUM.body.stmts)),
                                       sp - 52)) == Done(Below(n), map[])
  {
    hide Below, Keeps, Declared, ProcEnv, FinishCall;
    NamesFound(c, sp);
    var a := Frame(c, sp);
    var inner := a.(env := a.env + Declared(SUM.body.stmts));
    NameRead(c, fuel, "s", 16, Below(n), inner, sp - 52, m);
    BelowSmall(n);
    NameReturned(c, fuel, "s", Below(n), inner, sp - 52, m);
    FrameDies(Below(n), m);
  }

  lemma NameReturned(c: Ctx, fuel: nat, x: string, v: nat, a: Act, sp: int, m: Mem)
    requires m.Keys <= a.acc && Eval(c, fuel, Ident(x), a, sp, m) == Done(v, m) && TypeOf(Ident(x), a.env) == Some(Int)
    ensures ExecStmts(c, fuel, [Return(Some(Ident(x)))], a, sp, m) == Done(Returned(v, 4), m)
  {
    hide Eval, TypeOf;
    var s := Return(Some(Ident(x)));
    assert [s][1..] == [];
    assert ExecStmt(c, fuel, s, a, sp, m) == Done(Returned(v, 4), m);
  }

  lemma FrameDies(v: nat, m: Mem)
    requires v < TWO_32
    ensures FinishCall(Int, {}, Done(Returned(v, 4), m)) == Done(v, map[])
  {
    UniqueMod(v, TWO_32, 0, v);
  }

  const BODY := Block([ExprStmt(ADD), ExprStmt(STEP)], 3)
  const WHILE := BlockStmt(Block([VarDecl("i", Int, Some(ZERO), 32), While(MORE, BODY)], 2))

  /** The procedure that is compiled. */
  const DESUGARED := SUM.(body := Block([VarDecl("s", Int, Some(ZERO), 16), WHILE, LAST[0]], 1))

  lemma SumDesugared()
    ensures ExpandProc(SUM) == DESUGARED
  {
    assert ExpandExpr(ADD) == ADD && ExpandExpr(STEP) == STEP && ExpandExpr(MORE) == MORE;
    assert ExpandStmts([ExprStmt(ADD)]) == [ExprStmt(ADD)];
    assert ExpandExpr(ZERO) == ZERO && [ExprStmt(ADD)] + [ExprStmt(STEP)] == BODY.stmts;
    assert ExpandStmt(Loop(32, 2, 3)) == WHILE;
    hide ExpandExpr;
    assert ExpandStmt(SUM.body.stmts[0]) == SUM.body.stmts[0] && ExpandStmt(LAST[0]) == LAST[0];
    hide ExpandStmt;
    assert |ExpandStmts(SUM.body.stmts)| == 3;
  }

  lemma NameTyped(x: string, off: nat, env: Env)
    requires x in env && (env[x] == Variable(Int, off) || env[x] == Parameter(Int, off))
    ensures Supported(Ident(x), env) && TypeOf(Ident(x), env) == Some(Int) && |ExprCode(Ident(x), env)| == 1
    ensures SupportedAddr(Ident(x), env) && AddrTypeOf(Ident(x), env) == Some(Pointer(Int))
    ensures |AddrCode(Ident(x), env)| == 1
  {
  }

  lemma AssignTyped(x: string, off: nat, e: Expr, env: Env)
    requires x in env && env[x] == Variable(Int, off) && Supported(e, env) && TypeOf(e, env) == Some(Int)
    ensures var q := Assign(Ident(x), e);
            Supported(q, env) && |ExprCode(q, env)| == |ExprCode(e, env)| + 4
  {
    NameTyped(x, off, env);
    hide ExprCode, AddrCode;
    AssignCode(Ident(x), e, env);
  }

  lemma AssignCode(t: Expr, e: Expr, env: Env)
    ensures |ExprCode(Assign(t, e), env)| == |AddrCode(t, env)| + |ExprCode(e, env)| + 3
  {
  }

  /** The expressions of the loop are in the fragment, and their code is short. */
  lemma LoopTyped(env: Env)
    requires Named(env)
    ensures Supported(MORE, env) && TypeOf(MORE, env) == Some(Int) && |ExprCode(MORE, env)| <= 8
    ensures Supported(ADD, env) && Supported(STEP, env) && |ExprCode(ADD, env)| <= 12 && |ExprCode(STEP, env)| <= 12
  {
    NameTyped("i", 32, env);
    NameTyped("s", 16, env);
    NameTyped("n", 36, env);
    LiteralTyped(1, env);
    hide ExprCode, Supported, TypeOf, AddrCode;
    ShortTails();
    OperationTyped(Neq, Ident("i"), Ident("n"), env);
    OperationTyped(Add, Ident("s"), Ident("i"), env);
    OperationTyped(Add, Ident("i"), Num(NumAny, 1), env);
    AssignTyped("s", 16, ADD.rvalue, env);
    AssignTyped("i", 32, STEP.rvalue, env);
  }

  lemma ShortTails()
    ensures |BinaryTail(Neq, Int, Int)| == 3 && |BinaryTail(Add, Int, Int)| == 2
  {
  }

  lemma BodyTyped(env: Env, n: nat)
    requires Named(env)
    ensures SupportedBlock(BODY, env) && BlockLabels(BODY) == 0 && |BlockCode(BODY, env, n)| <= 24
  {
    hide ExprCode, Supported;
    LoopTyped(env);
    var stmts := BODY.stmts;
    assert stmts[1..] == [ExprStmt(STEP)] && stmts[1..][1..] == [];
    assert Declared(stmts[1..]) == map[];
    assert Declared(stmts) == map[] && env + map[] == env;
    assert StmtsLabels(stmts[1..]) == 0 && StmtsLabels(stmts) == 0;
    assert StmtsCode(stmts[1..], env, n) == ExprCode(STEP, env) + [];
    assert StmtsCode(stmts, env, n) == ExprCode(ADD, env) + StmtsCode(stmts[1..], env, n);
  }

  /** The loop with its variable. */
  lemma WhileTyped(env: Env, n: nat)
    requires "s" in env && env["s"] == Variable(Int, 16) && "n" in env && env["n"] == Parameter(Int, 36)
    ensures SupportedStmt(WHILE, env) && Emission.Labels(WHILE) == 1 && |StmtCode(WHILE, env, n)| <= 50
  {
    var b := WHILE.block;
    var first, loop := b.stmts[0], b.stmts[1];
    assert b.stmts[1..] == [loop] && [loop][1..] == [];
    assert Declared([loop][1..]) == map[] && Declared([loop]) == map[];
    assert Declared(b.stmts) == Declared(b.stmts[1..])["i" := Variable(Int, 32)];
    var inner := env + map["i" := Variable(Int, 32)];
    LoopTyped(inner);
    BodyTyped(inner, n + 1);
    LiteralTyped(0, inner);
    hide ExprCode, Supported, TypeOf, BlockCode, BlockLabels, SupportedBlock, Declared;
    assert SupportedStmt(first, inner) && |StmtCode(first, inner, n)| == 2 && Emission.Labels(first) == 0;
    assert SupportedStmt(loop, inner) && |StmtCode(loop, inner, n)| <= 40 && Emission.Labels(loop) == 1;
    hide SupportedStmt, StmtCode, Emission.Labels;
    TwoStatements(first, loop, inner, n);
    BlockOf(b, env, n);
  }

  lemma TwoStatements(x: Stmt, y: Stmt, env: Env, n: nat)
    requires Emission.Labels(x) == 0
    ensures StmtsCode([x, y], env, n) == StmtCode(x, env, n) + StmtCode(y, env, n)
    ensures StmtsLabels([x, y]) == Emission.Labels(y)
  {
    hide StmtCode, Emission.Labels;
    assert [x, y][1..] == [y] && [y][1..] == [];
    assert StmtsCode([y], env, n) == StmtCode(y, env, n) + [];
    assert StmtsLabels([y]) == Emission.Labels(y);
  }

  lemma BlockOf(b: Block, env: Env, n: nat)
    ensures StmtCode(BlockStmt(b), env, n) == StmtsCode(b.stmts, env + Declared(b.stmts), n)
    ensures Emission.Labels(BlockStmt(b)) == StmtsLabels(b.stmts)
    ensures SupportedStmt(BlockStmt(b), env) <==> forall s | s in b.stmts :: SupportedStmt(s, env + Declared(b.stmts))
  {
    hide StmtsCode, StmtsLabels, Declared;
  }

  lemma ThreeStatements(x: Stmt, y: Stmt, z: Stmt, env: Env, n: nat)
    requires Emission.Labels(x) == 0
    ensures StmtsCode([x, y, z], env, n) ==
              StmtCode(x, env, n) + (StmtCode(y, env, n) + StmtCode(z, env, n + Emission.Labels(y)))
  {
    hide StmtCode, Emission.Labels;
    assert [x, y, z][1..] == [y, z] && [y, z][1..] == [z] && [z][1..] == [];
    var m := n + Emission.Labels(y);
    assert StmtsCode([z], env, m) == StmtCode(z, env, m) + [];
  }

  lemma SumBody(globals: Env)
    ensures SupportedBlock(DESUGARED.body, ProcEnv(DESUGARED, globals))
    ensures |BlockCode(DESUGARED.body, ProcEnv(DESUGARED, globals), 0)| <= 60
  {
    var stmts, outer := DESUGARED.body.stmts, ProcEnv(DESUGARED, globals);
    BodyNames(globals);
    var env := outer + Declared(stmts);
    WhileTyped(env, 0);
    LiteralTyped(0, env);
    NameTyped("s", 16, env);
    hide ExprCode, Supported, TypeOf, Declared, SupportedBlock, BlockCode, BlockLabels;
    assert SupportedStmt(stmts[0], env) && |StmtCode(stmts[0], env, 0)| == 2;
    assert SupportedStmt(stmts[2], env) && |StmtCode(stmts[2], env, 1)| == 2;
    assert Emission.Labels(stmts[0]) == 0;
    hide SupportedStmt, StmtCode, Emission.Labels;
    ThreeStatements(stmts[0], stmts[1], stmts[2], env, 0);
    BlockParts(DESUGARED.body, outer);
  }

  lemma BlockParts(b: Block, env: Env)
    ensures BlockCode(b, env, 0) == StmtsCode(b.stmts, env + Declared(b.stmts), 0)
    ensures SupportedBlock(b, env) <==> forall s | s in b.stmts :: SupportedStmt(s, env + Declared(b.stmts))
  {
    hide StmtsCode, Declared, SupportedStmt;
  }

  lemma BodyNames(globals: Env)
    ensures var env := ProcEnv(DESUGARED, globals) + Declared(DESUGARED.body.stmts);
            "s" in env && env["s"] == Variable(Int, 16) && "n" in env && env["n"] == Parameter(Int, 36)
  {
    var stmts := DESUGARED.body.stmts;
    assert Declared(stmts[3..]) == map[];
    assert Declared(stmts[2..]) == map[] by { assert stmts[2..][1..] == stmts[3..]; }
    assert Declared(stmts[1..]) == map[] by { assert stmts[1..][1..] == stmts[2..]; }
    assert Declared(stmts) == map["s" := Variable(Int, 16)];
    assert SUM.sig.params[1..] == [];
    assert Parameters([Param("n", Int)], [36]) == map["n" := Parameter(Int, 36)];
  }

  /** The procedure is in the fragment, and its code is short. */
  lemma SumSupported(globals: Env)
    ensures SupportedProc(DESUGARED, globals) && |ProcCode(DESUGARED, globals, 0)| <= 70
  {
    hide BlockCode, SupportedBlock, ProcEnv;
    SumBody(globals);
    assert SUM.sig.params[1..] == [];
    assert |ParamsCode(DESUGARED.sig.params, DESUGARED.slots, 0, 16)| == 1;
  }

  lemma SumCompiled(post: Code)
    requires Foreign(post, [DESUGARED]) && |post| < TWO_32
    ensures Compiled([WRITTEN], [DESUGARED], post)
  {
    hide ProgramCode, LayProgram, SupportedProc, LinkMap, Pipeline.Placed, ProcCode, StartsProc, Named;
    var g := GlobalEnv([DESUGARED]);
    SumPlaced();
    SumDesugared();
    PlacedExpands([WRITTEN]);
    assert ExpandProcs([SUM]) == [DESUGARED];
    SumSupported(g);
    OneProcedure(DESUGARED, g);
    LinkBounds([DESUGARED], post);
    SumKeepsNames();
  }

  lemma SumKeepsNames()
    ensures KeepsNames([WRITTEN])
  {
    assert Declared([ExprStmt(ADD)]) == map[];
    assert Avoids(STEP, {});
  }

  lemma SumCalls(post: Code, limit: nat, n: nat, s: State)
    requires Compiled([WRITTEN], [DESUGARED], post) && n < TWO_32 && limit <= s.regs.rsp - 68
    requires Calling(Program([DESUGARED], post, limit), DESUGARED, [n], s, {}, map[])
    ensures SUM in Pipeline.Placed([WRITTEN]) && ExpandProc(SUM) == DESUGARED
    ensures var c := SourceCtx([WRITTEN], Program([DESUGARED], post, limit).c);
            forall fuel: nat ::
              (n < 256 && n <= fuel ==> CallProc(c, fuel, SUM, [n], s.regs.rsp, {}, map[]) == Done(Below(n), map[])) &&
              (n >= 256 ==> CallProc(c, fuel, SUM, [n], s.regs.rsp, {}, map[]).OutOfFuel?)
  {
    hide CallProc, Calling, LayProgram, Pipeline.Placed, ProgramCode, LinkMap, SupportedProc, KeepsNames;
    SumPlaced();
    SumDesugared();
    var c := SourceCtx([WRITTEN], Program([DESUGARED], post, limit).c);
    forall fuel: nat
      ensures (n < 256 && n <= fuel ==>
                 CallProc(c, fuel, SUM, [n], s.regs.rsp, {}, map[]) == Done(Below(n), map[])) &&
              (n >= 256 ==> CallProc(c, fuel, SUM, [n], s.regs.rsp, {}, map[]).OutOfFuel?)
    {
      SumMeans(c, fuel, n, s.regs.rsp);
    }
  }

  /** A loop in the machine: called with an argument below 256 and 68 bytes of free stack, the compiled
      procedure comes back with the sum of the numbers below it, and nothing but the free stack has
      changed. With any other argument it never comes back, because the condition of the loop also holds
      whenever i has a bit above its lowest byte. */
  lemma SumRuns(post: Code, limit: nat, n: nat, s: State)
    returns (m: nat, t: State)
    requires Foreign(post, [DESUGARED]) && |post| < TWO_32 && n < TWO_32 && limit <= s.regs.rsp - 68
    requires Compiled([WRITTEN], [DESUGARED], post)
    requires Calling(Program([DESUGARED], post, limit), DESUGARED, [n], s, {}, map[])
    ensures var code := Program([DESUGARED], post, limit).code;
            (n < 256 ==>
               Run(code, m, s) == Some(t) && t.pc == s.pc + 1 && t.regs.rsp == s.regs.rsp &&
               2 * (t.regs.rax % TWO_32) == n * (n - 1) &&
               forall x :: !(limit <= x < s.regs.rsp) ==> Get(t.mem, x) == Get(s.mem, x)) &&
            (n >= 256 ==> forall k: nat :: Run(code, k, s).Some?)
  {
    hide CallProc, Calling, LayProgram, Pipeline.Placed, Run, InStack, Stays, Below, ExpandProc, ProgramCode, LinkMap,
      SupportedProc, KeepsNames;
    SumCalls(post, limit, n, s);
    m, t := 0, s;
    Gauss(n);
    if n < 256 {
      m, t := SourceReturns([WRITTEN], [DESUGARED], post, limit, SUM, [n], n, s, {}, map[]);
    } else {
      forall k: nat ensures Run(Program([DESUGARED], post, limit).code, k, s).Some? {
        SourceDiverges([WRITTEN], [DESUGARED], post, limit, SUM, [n], s, {}, map[], k);
      }
    }
  }
}
