/** The fragment on which the compiler is right: what the generator accepts, without a short list of
    forms. */
module Fragment {
  import opened Types
  import opened Words
  import opened Syntax
  import opened Typing
  import opened Emission
  import opened Expand
  import opened Codegen

  /** A form whose code is wrong, missing or no instruction, or whose operands do not fit. Only the
      outermost node is looked at. */
  predicate Outside(e: Expr, env: Env) {
    match e
    case Num(k, n) => k == NumLong && n >= 0x8000_0000
    case Str(_) => true
    case Binary(op, l, r) => op == Div || Size(Ty(l, env)) != Size(Ty(r, env))
    case Unary(op, node) =>
      (op == Not && Ty(node, env) != Char) || (op == Minus && Ty(node, env) == Char) ||
      (op == Deref && Ty(e, env) == Void)
    case Call(callee, args) =>
      var params := ParamsOf(Ty(callee, env));
      |args| != |params| || |args| > 6 || (exists i | 0 <= i < |args| :: !SameKind(Ty(args[i], env), params[i].ty)) ||
      (exists i | 1 <= i < |args| :: !KeepsArgs(args[i]))
    case Array(vs, elem, _) => exists v | v in vs :: !SameKind(Ty(v, env), elem)
    case _ => false
  }

  /** Neither the expression nor any part of it whose value is computed is such a form. */
  predicate Inside(e: Expr, env: Env)
    decreases e
  {
    !Outside(e, env) &&
    match e
    case Grouping(inner) => Inside(inner, env)
    case Binary(_, l, r) => Inside(l, env) && Inside(r, env)
    case Unary(op, node) => if op == AddrOf then TargetInside(node, env) else Inside(node, env)
    case Call(callee, args) => Inside(callee, env) && forall x | x in args :: Inside(x, env)
    case Assign(target, v) => TargetInside(target, env) && Inside(v, env)
    case Array(vs, _, _) => forall x | x in vs :: Inside(x, env)
    case _ => true
  }

  predicate TargetInside(e: Expr, env: Env)
    decreases e
  {
    match e
    case Unary(_, node) => Inside(node, env)
    case _ => true
  }

  /** The fragment is exactly what the generator accepts apart from these forms. */
  lemma {:induction false} FragmentExact(e: Expr, env: Env)
    ensures Supported(e, env) <==> Accepted(Pointed, e, env).Some? && Inside(e, env)
    decreases e, 1
  {
    if Supported(e, env) {
      SupportedExpr(e, env);
    }
    match e
    case Grouping(inner) => FragmentExact(inner, env);
    case Binary(_, l, r) =>
      FragmentExact(l, env);
      FragmentExact(r, env);
    case Unary(op, node) =>
      if op == AddrOf {
        TargetExact(node, env);
      } else {
        FragmentExact(node, env);
      }
    case Call(_, _) => CallExact(e, env);
    case Assign(target, v) =>
      TargetExact(target, env);
      FragmentExact(v, env);
    case Array(_, _, _) => ArrayExact(e, env);
    case _ =>
  }

  lemma {:induction false} TargetExact(e: Expr, env: Env)
    ensures SupportedAddr(e, env) <==> AcceptedAddr(Pointed, e, env).Some? && TargetInside(e, env)
    decreases e, 0
  {
    if SupportedAddr(e, env) {
      SupportedTarget(e, env);
    }
    if e.Unary? {
      FragmentExact(e.node, env);
    }
  }

  lemma {:induction false} CallExact(e: Expr, env: Env)
    requires e.Call?
    ensures Supported(e, env) <==> Accepted(Pointed, e, env).Some? && Inside(e, env)
    decreases e, 0
  {
    FragmentExact(e.callee, env);
    forall x | x in e.args ensures Supported(x, env) <==> Accepted(Pointed, x, env).Some? && Inside(x, env) {
      FragmentExact(x, env);
    }
    CallAccepted(Pointed, e, env);
    AcceptedTyped(Pointed, e.callee, env);
    if Supported(e, env) {
      SupportedExpr(e, env);
      assert SupportedArgs(Ty(e.callee, env).sig.params, e.args, env);
    } else if Accepted(Pointed, e, env).Some? && Inside(e, env) {
      var params := Ty(e.callee, env).sig.params;
      forall i | 0 <= i < |e.args| ensures Supported(e.args[i], env) && SameKind(Ty(e.args[i], env), params[i].ty) {
        assert e.args[i] in e.args && Accepted(Pointed, e.args[i], env).Some?;
      }
      assert SupportedArgs(params, e.args, env);
    }
  }

  lemma {:induction false} ArrayExact(e: Expr, env: Env)
    requires e.Array?
    ensures Supported(e, env) <==> Accepted(Pointed, e, env).Some? && Inside(e, env)
    decreases e, 0
  {
    forall x | x in e.values ensures Supported(x, env) <==> Accepted(Pointed, x, env).Some? && Inside(x, env) {
      FragmentExact(x, env);
    }
    ElementsAccepted(e, env);
    hide Accepted;
    assert Inside(e, env) <==>
           forall x | x in e.values :: Inside(x, env) && SameKind(Ty(x, env), e.elem);
    assert Supported(e, env) <==>
           TypeOf(e, env).Some? && forall x | x in e.values :: Supported(x, env) && SameKind(Ty(x, env), e.elem);
  }

  lemma ElementsAccepted(e: Expr, env: Env)
    requires e.Array?
    ensures Accepted(Pointed, e, env).Some? <==>
            HasSize(e.elem) && forall x | x in e.values :: Accepted(Pointed, x, env).Some?
    ensures TypeOf(e, env).Some? <==> HasSize(e.elem) && forall x | x in e.values :: TypeOf(x, env).Some?
  {
    ArrayAccepted(Pointed, e, env);
  }
}
