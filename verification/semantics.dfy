/** Meaning of expressions and statements as an evaluator on byte memory.

    `acc` holds the addresses of live objects, and the keys of the memory are those that have been
    written. `sp` is where the free stack begins: a callee's frame lies right below the temporaries
    its caller still holds, which fixes the addresses that `&` can yield. Everything outside the
    language's rules, and running out of stack, is Undefined. Each call and each loop iteration
    takes one unit of fuel. */
module Semantics {
  import opened Types
  import opened Memory
  import opened Words
  import opened Syntax
  import opened Typing

  datatype Outcome<+T> = Done(value: T, mem: Mem) | OutOfFuel | Undefined {
    predicate IsFailure() {
      !Done?
    }

    function PropagateFailure<U>(): Outcome<U>
      requires IsFailure()
    {
      if OutOfFuel? then OutOfFuel else Undefined
    }

    function Extract(): (T, Mem)
      requires Done?
    {
      (value, mem)
    }
  }

  /** How a statement ends; the value of a `return` has `size` bytes. */
  datatype Flow = Next | Returned(v: nat, size: nat)

  datatype Ctx = Ctx(procs: seq<Proc>, link: map<string, word>, globals: Env, limit: nat)

  /** The running activation: visible names, frame base and live addresses. */
  datatype Act = Act(env: Env, base: int, acc: set<int>)

  predicate Readable(mem: Mem, at: int, n: nat) {
    forall x | at <= x < at + n :: x in mem
  }

  predicate Writable(acc: set<int>, at: int, n: nat) {
    forall x | at <= x < at + n :: x in acc
  }

  function ReadFrom(mem: Mem, at: int, n: nat): (r: Outcome<nat>)
    requires n == 0 || n == 1 || n == 4 || n == 8
    ensures r.Done? ==> r.mem == mem && r.value < Modulus(n)
  {
    ModulusIsPow256(n);
    if Readable(mem, at, n) then Done(Load(mem, at, n), mem) else Undefined
  }

  function WriteTo(mem: Mem, acc: set<int>, at: int, n: nat, v: nat): (r: Outcome<nat>)
    requires mem.Keys <= acc
    ensures r.Done? ==> mem.Keys <= r.mem.Keys <= acc && r.value == v
    ensures !r.OutOfFuel?
  {
    StoreKeys(mem, at, n, v);
    if Writable(acc, at, n) then Done(v, Store(mem, at, n, v)) else Undefined
  }

  function ConditionOf(op: BinOp): Option<Condition> {
    match op
    case Eq => Some(E)
    case Neq => Some(NE)
    case Lt => Some(L)
    case LtEq => Some(LE)
    case Gt => Some(G)
    case GtEq => Some(GE)
    case _ => None
  }

  /** An operand of type t beside one of type other: next to a pointer it counts elements. */
  function Scaled(t: Type, other: Type, v: nat): (r: nat)
    ensures v < Modulus(Size(t)) ==> r < Modulus(Size(t))
  {
    if other.Pointer? && !t.Pointer? then (v * Size(other.pointee)) % Modulus(Size(t)) else v
  }

  /** The value of a binary operation on n-byte words. A comparison or logical operation leaves its
      verdict in the lowest byte of the left operand, or of the bitwise combination. */
  function WordOp(op: BinOp, x: nat, y: nat, n: opsize): (r: nat)
    requires x < Modulus(n) && y < Modulus(n)
    ensures r < Modulus(n)
  {
    BitwiseBound(x, y, n);
    match op
    case Add => (x + y) % Modulus(n)
    case Sub => (x - y) % Modulus(n)
    case Mul => (x * y) % Modulus(n)
    case Div => if Signed(y, n) == 0 then 0 else Truncated(Signed(x, n), Signed(y, n)) % Modulus(n)
    case BitwiseOr => BitOr(x, y)
    case BitwiseAnd => BitAnd(x, y)
    case LogOr => Verdict(BitOr(x, y), BitOr(x, y) != 0, n)
    case LogAnd => Verdict(BitAnd(x, y), BitAnd(x, y) != 0, n)
    case _ => Verdict(x, Order(ConditionOf(op).value, Signed(x, n), Signed(y, n)), n)
  }

  function Verdict(x: nat, b: bool, n: opsize): (r: nat)
    requires x < Modulus(n)
    ensures r < Modulus(n)
  {
    LowByteOfPart(x, Bit(b), n);
    WithLowByte(x, Bit(b))
  }

  function BinaryValue(op: BinOp, lt: Type, rt: Type, l: nat, r: nat): (v: nat)
    requires l < Modulus(Size(lt)) && r < Modulus(Size(rt))
    requires BinaryType(lt, rt).Some?
    ensures v < Modulus(Size(BinaryType(lt, rt).value))
  {
    WordOp(op, Scaled(lt, rt, l), Scaled(rt, lt, r), Size(BinaryType(lt, rt).value))
  }

  function Truth(v: nat): bool {
    v != 0
  }

  /** Room for one more temporary. */
  predicate RoomFor(c: Ctx, sp: int) {
    c.limit <= sp - 8
  }

  function ProcAt(procs: seq<Proc>, link: map<string, word>, at: nat): (r: Option<Proc>)
    ensures r.Some? ==> r.value in procs && r.value.name in link && link[r.value.name] == at
  {
    if procs == [] then None
    else if procs[0].name in link && link[procs[0].name] == at then Some(procs[0])
    else ProcAt(procs[1..], link, at)
  }

  /** Calling a procedure through a type that differs only in names is allowed. */
  predicate Callable(via: Signature, p: Proc) {
    |via.params| == |p.sig.params| == |p.slots| &&
    (forall i | 0 <= i < |via.params| :: SameKind(via.params[i].ty, p.sig.params[i].ty)) &&
    SameKind(via.ret, p.sig.ret)
  }

  /** Arguments go to the parameter slots of the new frame. */
  function Bind(params: seq<Param>, slots: seq<nat>, vs: seq<nat>, base: int, acc: set<int>, mem: Mem): (r: Outcome<()>)
    requires |params| == |slots| == |vs|
    requires mem.Keys <= acc
    ensures r.Done? ==> mem.Keys <= r.mem.Keys <= acc
    ensures !r.OutOfFuel?
  {
    if params == [] then Done((), mem)
    else
      var (_, m) :- WriteTo(mem, acc, base - slots[0], Size(params[0].ty), vs[0]);
      Bind(params[1..], slots[1..], vs[1..], base, acc, m)
  }

  function Restrict(m: Mem, acc: set<int>): (r: Mem)
    ensures r.Keys == m.Keys * acc
    ensures forall x :: x in r ==> r[x] == m[x]
  {
    map x | x in m && x in acc :: m[x]
  }

  function Eval(c: Ctx, fuel: nat, e: Expr, a: Act, sp: int, mem: Mem): (r: Outcome<nat>)
    requires mem.Keys <= a.acc
    ensures r.Done? ==> mem.Keys <= r.mem.Keys <= a.acc
    ensures r.Done? ==> r.value < Modulus(Size(Ty(e, a.env)))
    decreases fuel, e, 2
  {
    if TypeOf(e, a.env).None? then Undefined
    else
      match e
      case Num(k, n) => Done(n % Modulus(Size(LiteralType(k))), mem)
      case Str(_) => Undefined
      case Ident(x) =>
        if a.env[x].Routine? then ProcAddress(c, x, mem)
        else ReadFrom(mem, a.base - a.env[x].offset, Size(a.env[x].ty))
      case Grouping(inner) => Eval(c, fuel, inner, a, sp, mem)
      case Binary(_, _, _) => EvalBinary(c, fuel, e, a, sp, mem)
      case Unary(op, _) =>
        if op.AddrOf? then EvalAddr(c, fuel, e.node, a, sp, mem) else EvalUnary(c, fuel, e, a, sp, mem)
      case Call(_, _) => EvalCall(c, fuel, e, a, sp, mem)
      case Assign(_, _) => EvalAssign(c, fuel, e, a, sp, mem)
      case Array(_, _, _) => EvalArray(c, fuel, e, a, sp, mem)
      case Index(_, _) => EvalIndex(c, fuel, e, a, sp, mem)
  }

  /** The right operand comes first. */
  function EvalBinary(c: Ctx, fuel: nat, e: Expr, a: Act, sp: int, mem: Mem): (r: Outcome<nat>)
    requires e.Binary? && TypeOf(e, a.env).Some?
    requires mem.Keys <= a.acc
    ensures r.Done? ==> mem.Keys <= r.mem.Keys <= a.acc
    ensures r.Done? ==> r.value < Modulus(Size(Ty(e, a.env)))
    decreases fuel, e, 0
  {
    var (r, m1) :- Eval(c, fuel, e.rhs, a, sp, mem);
    if !RoomFor(c, sp) then Undefined
    else
      var (l, m2) :- Eval(c, fuel, e.lhs, a, sp - 8, m1);
      Done(BinaryValue(e.op, Ty(e.lhs, a.env), Ty(e.rhs, a.env), l, r), m2)
  }

  /** The address of the target comes before the value. */
  function EvalAssign(c: Ctx, fuel: nat, e: Expr, a: Act, sp: int, mem: Mem): (r: Outcome<nat>)
    requires e.Assign? && TypeOf(e, a.env).Some?
    requires mem.Keys <= a.acc
    ensures r.Done? ==> mem.Keys <= r.mem.Keys <= a.acc
    ensures r.Done? ==> r.value < Modulus(Size(Ty(e, a.env)))
    decreases fuel, e, 0
  {
    var (at, m1) :- EvalAddr(c, fuel, e.target, a, sp, mem);
    if !RoomFor(c, sp) then Undefined
    else
      var (x, m2) :- Eval(c, fuel, e.rvalue, a, sp - 8, m1);
      WriteTo(m2, a.acc, at, Size(Ty(e.rvalue, a.env)), x)
  }

  /** An array literal lives in its frame; its value is the address of the first element. */
  function EvalArray(c: Ctx, fuel: nat, e: Expr, a: Act, sp: int, mem: Mem): (r: Outcome<nat>)
    requires e.Array? && TypeOf(e, a.env).Some?
    requires mem.Keys <= a.acc
    ensures r.Done? ==> mem.Keys <= r.mem.Keys <= a.acc
    ensures r.Done? ==> r.value < Modulus(Size(Ty(e, a.env)))
    decreases fuel, e, 0
  {
    var first := a.base - (e.offset + |e.values| * Size(e.elem));
    var (_, m) :- EvalElems(c, fuel, e.values, e.elem, first, a, sp, mem);
    Done(first % TWO_64, m)
  }

  function EvalIndex(c: Ctx, fuel: nat, e: Expr, a: Act, sp: int, mem: Mem): (r: Outcome<nat>)
    requires e.Index? && TypeOf(e, a.env).Some?
    requires mem.Keys <= a.acc
    ensures r.Done? ==> mem.Keys <= r.mem.Keys <= a.acc
    ensures r.Done? ==> r.value < Modulus(Size(Ty(e, a.env)))
    decreases fuel, e, 1
  {
    var (at, m) :- EvalElement(c, fuel, e, a, sp, mem);
    ReadFrom(m, at, Size(Ty(e, a.env)))
  }

  /** The address of an element; the index comes first. */
  function EvalElement(c: Ctx, fuel: nat, e: Expr, a: Act, sp: int, mem: Mem): (r: Outcome<nat>)
    requires e.Index? && AddrTypeOf(e, a.env).Some?
    requires mem.Keys <= a.acc
    ensures r.Done? ==> mem.Keys <= r.mem.Keys <= a.acc
    ensures r.Done? ==> r.value < Modulus(Size(AddrTypeOf(e, a.env).value))
    decreases fuel, e, 0
  {
    var (n, m1) :- Eval(c, fuel, e.index, a, sp, mem);
    if !RoomFor(c, sp) then Undefined
    else
      var (p, m2) :- Eval(c, fuel, e.expr, a, sp - 8, m1);
      Done(ElementAddress(Ty(e.expr, a.env), Ty(e.index, a.env), p, n), m2)
  }

  function EvalUnary(c: Ctx, fuel: nat, e: Expr, a: Act, sp: int, mem: Mem): (r: Outcome<nat>)
    requires e.Unary? && !e.uop.AddrOf? && TypeOf(e, a.env).Some?
    requires mem.Keys <= a.acc
    ensures r.Done? ==> mem.Keys <= r.mem.Keys <= a.acc
    ensures r.Done? ==> r.value < Modulus(Size(Ty(e, a.env)))
    decreases fuel, e, 0
  {
    var (v, m) :- Eval(c, fuel, e.node, a, sp, mem);
    if e.uop.Deref? then ReadFrom(m, v, Size(Ty(e, a.env)))
    else if e.uop.Not? then Done(Bit(v == 0), m)
    else Done((0 - v as int) % Modulus(Size(Ty(e, a.env))), m)
  }

  function EvalCall(c: Ctx, fuel: nat, e: Expr, a: Act, sp: int, mem: Mem): (r: Outcome<nat>)
    requires e.Call? && TypeOf(e, a.env).Some?
    requires mem.Keys <= a.acc
    ensures r.Done? ==> mem.Keys <= r.mem.Keys <= a.acc
    ensures r.Done? ==> r.value < Modulus(Size(Ty(e, a.env)))
    decreases fuel, e, 0
  {
    var (f, m1) :- Eval(c, fuel, e.callee, a, sp, mem);
    if !RoomFor(c, sp) then Undefined
    else
      var (vs, m2) :- EvalArgs(c, fuel, e.args, a, sp - 8, m1);
      var p := ProcAt(c.procs, c.link, f);
      var via := Ty(e.callee, a.env).sig;
      if p.None? || !Callable(via, p.value) || |e.args| != |via.params| then Undefined
      else if fuel == 0 then OutOfFuel
      else CallProc(c, fuel - 1, p.value, vs, sp, a.acc, m2)
  }

  /** Where `x[i]` and `i[x]` lie: the index counts elements. */
  function ElementAddress(lt: Type, rt: Type, l: nat, r: nat): (at: nat)
    requires BinaryType(lt, rt).Some?
    ensures at < Modulus(Size(BinaryType(lt, rt).value))
  {
    if lt.Pointer? && !rt.Pointer? then (l + (r * Size(lt.pointee)) % Modulus(Size(rt))) % TWO_64
    else if rt.Pointer? && !lt.Pointer? then ((l * Size(rt.pointee)) % Modulus(Size(lt)) + r) % TWO_64
    else (l + r) % Modulus(Size(rt))
  }

  function ProcAddress(c: Ctx, x: string, mem: Mem): (r: Outcome<nat>)
    ensures r.Done? ==> r.mem == mem && r.value < TWO_64
  {
    if x in c.link then Done(c.link[x], mem) else Undefined
  }

  function EvalAddr(c: Ctx, fuel: nat, e: Expr, a: Act, sp: int, mem: Mem): (r: Outcome<nat>)
    requires mem.Keys <= a.acc
    ensures r.Done? ==> mem.Keys <= r.mem.Keys <= a.acc
    ensures r.Done? ==> AddrTypeOf(e, a.env).Some? && r.value < Modulus(Size(AddrTypeOf(e, a.env).value))
    decreases fuel, e, 1
  {
    if AddrTypeOf(e, a.env).None? then Undefined
    else
      match e
      case Ident(x) =>
        if a.env[x].Routine? then ProcAddress(c, x, mem)
        else Done((a.base - a.env[x].offset) % TWO_64, mem)
      case Unary(Deref, node) => Eval(c, fuel, node, a, sp, mem)
      case Index(_, _) => EvalElement(c, fuel, e, a, sp, mem)
      case _ => Undefined
  }

  function EvalArgs(c: Ctx, fuel: nat, args: seq<Expr>, a: Act, sp: int, mem: Mem): (r: Outcome<seq<nat>>)
    requires mem.Keys <= a.acc
    ensures r.Done? ==> mem.Keys <= r.mem.Keys <= a.acc
    ensures r.Done? ==> |r.value| == |args|
    ensures r.Done? ==> forall i | 0 <= i < |args| :: r.value[i] < Modulus(Size(Ty(args[i], a.env)))
    decreases fuel, args, 0
  {
    if args == [] then Done([], mem)
    else
      var (v, m1) :- Eval(c, fuel, args[0], a, sp, mem);
      var (vs, m2) :- EvalArgs(c, fuel, args[1..], a, sp, m1);
      Done([v] + vs, m2)
  }

  /** Evaluates the elements of an array literal and stores them one after the other from `at` on. */
  function EvalElems(c: Ctx, fuel: nat, vs: seq<Expr>, elem: Type, at: int, a: Act, sp: int, mem: Mem): (r: Outcome<()>)
    requires mem.Keys <= a.acc
    ensures r.Done? ==> mem.Keys <= r.mem.Keys <= a.acc
    decreases fuel, vs, 0
  {
    if vs == [] then Done((), mem)
    else
      var (_, m) :- EvalInto(c, fuel, vs[0], Size(elem), at, a, sp, mem);
      EvalElems(c, fuel, vs[1..], elem, at + Size(elem), a, sp, m)
  }

  /** Evaluates an expression and stores the low n bytes of its value. */
  function EvalInto(c: Ctx, fuel: nat, e: Expr, n: nat, at: int, a: Act, sp: int, mem: Mem): (r: Outcome<nat>)
    requires mem.Keys <= a.acc
    ensures r.Done? ==> mem.Keys <= r.mem.Keys <= a.acc
    decreases fuel, e, 3
  {
    var (v, m) :- Eval(c, fuel, e, a, sp, mem);
    WriteTo(m, a.acc, at, n, v)
  }

  /** A call: return address and old frame base take 16 bytes below sp, the frame of the callee lies
      below them and dies with the call. */
  function CallProc(c: Ctx, fuel: nat, p: Proc, vs: seq<nat>, sp: int, acc: set<int>, mem: Mem): (r: Outcome<nat>)
    requires mem.Keys <= acc
    requires |vs| == |p.slots| == |p.sig.params|
    ensures r.Done? ==> mem.Keys <= r.mem.Keys <= acc
    ensures r.Done? ==> r.value < Modulus(Size(p.sig.ret))
    decreases fuel, p.body, 1
  {
    var base := sp - 16;
    var low := base - p.stackSize;
    if low < c.limit then Undefined
    else
      var live := acc + Range(low, p.stackSize);
      var (_, m1) :- Bind(p.sig.params, p.slots, vs, base, live, mem);
      FinishCall(p.sig.ret, acc, ExecBlock(c, fuel, p.body, Act(ProcEnv(p, c.globals), base, live), low, m1))
  }

  /** The frame dies and the result is cut to the return type; a procedure that must return a value
      may not fall off its end or return a shorter one. */
  function FinishCall(ret: Type, acc: set<int>, r: Outcome<Flow>): (q: Outcome<nat>)
    ensures q.Done? ==> r.Done? && q.mem.Keys == r.mem.Keys * acc && q.value < Modulus(Size(ret))
    ensures q.OutOfFuel? <==> r.OutOfFuel?
  {
    var (flow, m) :- r;
    match flow
    case Next => if ret.Void? then Done(0, Restrict(m, acc)) else Undefined
    case Returned(v, n) => if Size(ret) <= n then Done(v % Modulus(Size(ret)), Restrict(m, acc)) else Undefined
  }

  function ExecBlock(c: Ctx, fuel: nat, b: Block, a: Act, sp: int, mem: Mem): (r: Outcome<Flow>)
    requires mem.Keys <= a.acc
    ensures r.Done? ==> mem.Keys <= r.mem.Keys <= a.acc
    decreases fuel, b, 0
  {
    ExecStmts(c, fuel, b.stmts, a.(env := a.env + Declared(b.stmts)), sp, mem)
  }

  function ExecStmts(c: Ctx, fuel: nat, stmts: seq<Stmt>, a: Act, sp: int, mem: Mem): (r: Outcome<Flow>)
    requires mem.Keys <= a.acc
    ensures r.Done? ==> mem.Keys <= r.mem.Keys <= a.acc
    decreases fuel, stmts, 0
  {
    if stmts == [] then Done(Next, mem)
    else
      var (flow, m) :- ExecStmt(c, fuel, stmts[0], a, sp, mem);
      if flow.Returned? then Done(flow, m) else ExecStmts(c, fuel, stmts[1..], a, sp, m)
  }

  function Declare(c: Ctx, fuel: nat, ty: Type, e: Expr, at: int, a: Act, sp: int, mem: Mem): (r: Outcome<nat>)
    requires mem.Keys <= a.acc
    ensures r.Done? ==> mem.Keys <= r.mem.Keys <= a.acc
    decreases fuel, e, 4
  {
    if !SameKind(ty, Ty(e, a.env)) then Undefined else EvalInto(c, fuel, e, Size(ty), at, a, sp, mem)
  }

  function ExecStmt(c: Ctx, fuel: nat, s: Stmt, a: Act, sp: int, mem: Mem): (r: Outcome<Flow>)
    requires mem.Keys <= a.acc
    ensures r.Done? ==> mem.Keys <= r.mem.Keys <= a.acc
    decreases fuel, s, 1
  {
    match s
    case ExprStmt(e) =>
      var (_, m) :- Eval(c, fuel, e, a, sp, mem);
      Done(Next, m)
    case BlockStmt(b) => ExecBlock(c, fuel, b, a, sp, mem)
    case VarDecl(_, ty, init, off) =>
      if init.None? then Done(Next, mem)
      else
        var (_, m) :- Declare(c, fuel, ty, init.value, a.base - off, a, sp, mem);
        Done(Next, m)
    case If(_, _, _) => ExecIf(c, fuel, s, a, sp, mem)
    case While(_, _) => ExecWhile(c, fuel, s, a, sp, mem)
    case For(x, ty, start, _, _, _, off, _) =>
      var inner := a.(env := a.env[x := Variable(ty, off)]);
      var (_, m) :- Declare(c, fuel, ty, start, a.base - off, inner, sp, mem);
      ExecFor(c, fuel, s, inner, sp, m)
    case Return(e) =>
      if e.None? then Done(Returned(0, 0), mem)
      else
        var (v, m) :- Eval(c, fuel, e.value, a, sp, mem);
        Done(Returned(v, Size(Ty(e.value, a.env))), m)
  }

  function ExecIf(c: Ctx, fuel: nat, s: Stmt, a: Act, sp: int, mem: Mem): (r: Outcome<Flow>)
    requires s.If?
    requires mem.Keys <= a.acc
    ensures r.Done? ==> mem.Keys <= r.mem.Keys <= a.acc
    decreases fuel, s, 0
  {
    var (v, m) :- Eval(c, fuel, s.cond, a, sp, mem);
    if Truth(v) then ExecBlock(c, fuel, s.then_, a, sp, m)
    else if s.else_.Some? then ExecBlock(c, fuel, s.else_.value, a, sp, m)
    else Done(Next, m)
  }

  function ExecWhile(c: Ctx, fuel: nat, s: Stmt, a: Act, sp: int, mem: Mem): (r: Outcome<Flow>)
    requires s.While?
    requires mem.Keys <= a.acc
    ensures r.Done? ==> mem.Keys <= r.mem.Keys <= a.acc
    decreases fuel, s, 0
  {
    var (v, m) :- Eval(c, fuel, s.cond, a, sp, mem);
    if !Truth(v) then Done(Next, m)
    else if fuel == 0 then OutOfFuel
    else
      var (flow, m1) :- ExecBlock(c, fuel - 1, s.body, a, sp, m);
      if flow.Returned? then Done(flow, m1) else ExecWhile(c, fuel - 1, s, a, sp, m1)
  }

  /** The rounds of a for loop: condition and update are evaluated in the scope of its variable. */
  function ExecFor(c: Ctx, fuel: nat, s: Stmt, a: Act, sp: int, mem: Mem): (r: Outcome<Flow>)
    requires s.For?
    requires mem.Keys <= a.acc
    ensures r.Done? ==> mem.Keys <= r.mem.Keys <= a.acc
    decreases fuel, s, 0
  {
    var (v, m) :- Eval(c, fuel, s.cond, a, sp, mem);
    if !Truth(v) then Done(Next, m)
    else if fuel == 0 then OutOfFuel
    else
      var (flow, m1) :- ExecBlock(c, fuel - 1, s.body, a, sp, m);
      if flow.Returned? then Done(flow, m1)
      else
        var (_, m2) :- Eval(c, fuel - 1, s.update, a, sp, m1);
        ExecFor(c, fuel - 1, s, a, sp, m2)
  }
}
