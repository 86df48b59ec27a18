/** Static types as the code generator computes them while it emits code, and the fragment of the
    language on which the emitted code is proved right. */
module Typing {
  import opened Types
  import opened Syntax
  import opened Words

  predicate HasSize(t: Type) {
    !t.Void?
  }

  function LiteralType(k: NumberKind): Type {
    match k
    case NumChar => Char
    case NumLong => Long
    case NumAny => Int
    case NumInt => Int
  }

  /** The result type of a binary operation. A pointer may be combined with a non-pointer, which is
      then an index; any other two operands must have the same kind. */
  function BinaryType(l: Type, r: Type): Option<Type> {
    if !HasSize(l) || !HasSize(r) then None
    else if l.Pointer? && !r.Pointer? then
      if HasSize(l.pointee) then Some(l) else None
    else if !l.Pointer? && r.Pointer? then
      if HasSize(r.pointee) then Some(r) else None
    else if SameKind(l, r) then
      Some(if r.Pointer? then r else l)
    else None
  }

  /** What dereferencing gives. */
  function Pointee(t: Option<Type>): Option<Type> {
    if t.Some? && t.value.Pointer? then Some(t.value.pointee) else None
  }

  function SymbolType(env: Env, x: string): Option<Type> {
    if x !in env then None
    else if HasSize(env[x].Type()) then Some(env[x].Type())
    else None
  }

  /** The type of an expression, or nothing where the code generator stops with an error. */
  function TypeOf(e: Expr, env: Env): Option<Type> {
    match e
    case Num(k, _) => Some(LiteralType(k))
    case Str(_) => None
    case Ident(x) => SymbolType(env, x)
    case Grouping(inner) => TypeOf(inner, env)
    case Binary(_, l, r) =>
      var lt, rt := TypeOf(l, env), TypeOf(r, env);
      if lt.Some? && rt.Some? then BinaryType(lt.value, rt.value) else None
    case Unary(op, node) =>
      (match op
       case Deref => Pointee(TypeOf(node, env))
       case AddrOf => AddrTypeOf(node, env)
       case _ =>
         var t := TypeOf(node, env);
         if t.Some? && HasSize(t.value) then t else None)
    case Call(callee, args) =>
      var t := TypeOf(callee, env);
      if t.Some? && t.value.Procedure? && ArgsTyped(t.value.sig.params, args, env) then Some(t.value.sig.ret)
      else None
    case Assign(target, v) =>
      var t := TypeOf(v, env);
      if AddrTypeOf(target, env).Some? && t.Some? && HasSize(t.value) then t else None
    case Array(vs, elem, _) =>
      if HasSize(elem) && forall v | v in vs :: TypeOf(v, env).Some? then Some(Pointer(elem)) else None
    case Index(x, i) =>
      var lt, rt := TypeOf(x, env), TypeOf(i, env);
      if lt.Some? && rt.Some? then Pointee(BinaryType(lt.value, rt.value)) else None
  }

  /** The type of the address of an lvalue. */
  function AddrTypeOf(e: Expr, env: Env): Option<Type> {
    match e
    case Ident(x) =>
      if x !in env then None
      else if env[x].Routine? then Some(env[x].Type())
      else Some(Pointer(env[x].ty))
    case Unary(Deref, node) => TypeOf(node, env)
    case Index(x, i) =>
      var lt, rt := TypeOf(x, env), TypeOf(i, env);
      if lt.Some? && rt.Some? then BinaryType(lt.value, rt.value) else None
    case _ => None
  }

  lemma ElementTyped(e: Expr, env: Env)
    requires e.Index? && TypeOf(e, env).Some?
    ensures AddrTypeOf(e, env).Some? && AddrTypeOf(e, env).value.Pointer? &&
            TypeOf(e, env) == Some(AddrTypeOf(e, env).value.pointee)
  {
  }

  predicate ArgsTyped(params: seq<Param>, args: seq<Expr>, env: Env)
    decreases args
  {
    |args| <= |params| &&
    forall i | 0 <= i < |args| :: HasSize(params[i].ty) && TypeOf(args[i], env).Some?
  }

  /** The static type where there is one. */
  function Ty(e: Expr, env: Env): Type {
    var t := TypeOf(e, env);
    if t.Some? then t.value else Void
  }

  /** The kind check of an assignment compares the kind of the target's address with the kind of the
      value. Pointed compares what the address points to, as the language needs it. */
  datatype Guard = AsWritten | Pointed

  predicate GuardAccepts(g: Guard, target: Type, v: Type) {
    match g
    case AsWritten => SameKind(target, v)
    case Pointed => target.Pointer? && SameKind(target.pointee, v)
  }

  /** An expression whose evaluation leaves the argument registers alone: no operator, assignment or
      call, whose code uses them for temporaries. */
  predicate KeepsArgs(e: Expr) {
    match e
    case Num(_, _) => true
    case Str(_) => true
    case Ident(_) => true
    case Grouping(inner) => KeepsArgs(inner)
    case Unary(_, node) => KeepsArgs(node)
    case Array(vs, _, _) => forall v | v in vs :: KeepsArgs(v)
    case _ => false
  }

  /** The expressions whose code is right: well typed, without sugar and division, operand forms
      the processor has, and calls whose later arguments leave the earlier ones in their registers. */
  predicate Supported(e: Expr, env: Env) {
    TypeOf(e, env).Some? &&
    match e
    case Num(k, n) => k.NumLong? ==> n < 0x8000_0000
    case Str(_) => false
    case Ident(_) => true
    case Grouping(inner) => Supported(inner, env)
    case Binary(op, l, r) =>
      Supported(l, env) && Supported(r, env) && op != Div && Size(Ty(l, env)) == Size(Ty(r, env))
    case Unary(op, node) =>
      (match op
       case Deref => Supported(node, env) && HasSize(Ty(e, env))
       case AddrOf => SupportedAddr(node, env)
       case Not => Supported(node, env) && Ty(node, env).Char?
       case Minus => Supported(node, env) && !Ty(node, env).Char?)
    case Call(callee, args) =>
      Supported(callee, env) && SupportedArgs(Ty(callee, env).sig.params, args, env)
    case Assign(target, v) =>
      SupportedAddr(target, env) && Supported(v, env) &&
      GuardAccepts(Pointed, AddrTypeOf(target, env).value, Ty(v, env))
    case Array(vs, elem, _) => forall v | v in vs :: Supported(v, env) && SameKind(Ty(v, env), elem)
    case Index(_, _) => false
  }

  predicate SupportedAddr(e: Expr, env: Env) {
    AddrTypeOf(e, env).Some? &&
    match e
    case Ident(_) => true
    case Unary(Deref, node) => Supported(node, env)
    case _ => false
  }

  predicate SupportedArgs(params: seq<Param>, args: seq<Expr>, env: Env)
    decreases args
  {
    |args| == |params| && |args| <= 6 &&
    (forall i | 0 <= i < |args| :: Supported(args[i], env) && SameKind(Ty(args[i], env), params[i].ty)) &&
    (forall i | 1 <= i < |args| :: KeepsArgs(args[i]))
  }

  /** The variables a statement list declares in its own block, whatever their place in it. Of two
      declarations of one name the first counts. */
  function Declared(stmts: seq<Stmt>): Env {
    if stmts == [] then map[]
    else
      var rest := Declared(stmts[1..]);
      match stmts[0]
      case VarDecl(x, ty, _, off) => rest[x := Variable(ty, off)]
      case _ => rest
  }

  predicate SupportedBlock(b: Block, env: Env) {
    var inner := env + Declared(b.stmts);
    forall s | s in b.stmts :: SupportedStmt(s, inner)
  }

  predicate SupportedStmt(s: Stmt, env: Env) {
    match s
    case ExprStmt(e) => Supported(e, env)
    case BlockStmt(b) => SupportedBlock(b, env)
    case VarDecl(_, ty, init, _) =>
      HasSize(ty) && (init.Some? ==> Supported(init.value, env) && SameKind(ty, Ty(init.value, env)))
    case If(cond, thn, els) =>
      Supported(cond, env) && HasSize(Ty(cond, env)) && SupportedBlock(thn, env) &&
      (els.Some? ==> SupportedBlock(els.value, env))
    case While(cond, body) =>
      Supported(cond, env) && HasSize(Ty(cond, env)) && SupportedBlock(body, env)
    case For(_, _, _, _, _, _, _, _) => false
    case Return(e) => e.Some? ==> Supported(e.value, env)
  }

  /** The parameters as symbols of the body's block; the first of two equal names counts. */
  function Parameters(params: seq<Param>, slots: seq<nat>): Env
    requires |params| == |slots|
  {
    if params == [] then map[]
    else Parameters(params[1..], slots[1..])[params[0].ident := Parameter(params[0].ty, slots[0])]
  }

  /** The procedures as global symbols; the first of two equal names counts. */
  function GlobalEnv(procs: seq<Proc>): Env {
    if procs == [] then map[] else GlobalEnv(procs[1..])[procs[0].name := Routine(procs[0].sig)]
  }

  /** What the names mean around the body of a procedure: its parameters, hiding the procedures. */
  function ProcEnv(p: Proc, globals: Env): Env
    requires |p.slots| == |p.sig.params|
  {
    globals + Parameters(p.sig.params, p.slots)
  }

  predicate SupportedProc(p: Proc, globals: Env) {
    |p.slots| == |p.sig.params| && p.stackSize < 0x8000_0000 &&
    (forall q | q in p.sig.params :: HasSize(q.ty)) &&
    SupportedBlock(p.body, ProcEnv(p, globals))
  }
}
