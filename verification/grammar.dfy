/** The grammar as a function on tokens: what each rule makes of the tokens in front of it, and the
    tokens it leaves. */
module Grammar {
  import opened Types
  import opened Syntax
  import opened Tokens

  datatype Parse<+T> = Got(value: T, rest: seq<Tok>) | Fail {
    predicate IsFailure() {
      Fail?
    }

    function PropagateFailure<U>(): Parse<U> {
      Fail
    }

    function Extract(): (T, seq<Tok>)
      requires Got?
    {
      (value, rest)
    }
  }

  /** A rule takes at least one token. */
  predicate Shorter<T>(r: Parse<T>, ts: seq<Tok>) {
    r.Got? ==> |r.rest| < |ts|
  }

  /** The rules of expressions in the order in which they call each other; between UNARY and ASSIGN
      lie the eight levels of binary operators. */
  const PRIMARY := 0
  const CALL := 1
  const INDEX := 2
  const UNARY := 3
  const ASSIGN := 12
  const EXPR := 13
  const MAX_PARAM_COUNT := 255

  function Expect(ts: seq<Tok>, t: Tok): (r: Parse<()>)
    ensures r.Got? <==> Starts(ts, t)
    ensures r.Got? ==> r.rest == ts[1..]
  {
    if Starts(ts, t) then Got((), ts[1..]) else Fail
  }

  function ExpectIdent(ts: seq<Tok>): (r: Parse<string>)
    ensures Shorter(r, ts)
  {
    if ts != [] && ts[0].TIdent? then Got(ts[0].name, ts[1..]) else Fail
  }

  /** A comma behind an item of a list may be there or not. */
  function SkipComma(ts: seq<Tok>): (r: seq<Tok>)
    ensures |r| <= |ts|
  {
    if Starts(ts, TComma) then ts[1..] else ts
  }

  function ParseType(ts: seq<Tok>): (r: Parse<Type>)
    ensures Shorter(r, ts)
    decreases |ts|, 0
  {
    if ts == [] then Fail
    else
      match ts[0]
      case TAsterisk =>
        var (t, r) :- ParseType(ts[1..]);
        Got(Pointer(t), r)
      case TProc =>
        var (sig, r) :- ParseSignature(ts[1..]);
        Got(Procedure(sig), r)
      case TIdent(x) => Got(Object(x), ts[1..])
      case TInt => Got(Int, ts[1..])
      case TChar => Got(Char, ts[1..])
      case TLong => Got(Long, ts[1..])
      case TVoid => Got(Void, ts[1..])
      case _ => Fail
  }

  /** Parameters and return type, behind `proc` and a name. */
  function ParseSignature(ts: seq<Tok>): (r: Parse<Signature>)
    ensures Shorter(r, ts)
    decreases |ts|, 1
  {
    var (_, r1) :- Expect(ts, TLParen);
    var (params, r2) :- ParseParams(r1, TRParen, 0, Some(MAX_PARAM_COUNT));
    var (t, r3) :- ParseType(r2);
    Got(Signature(params, t), r3)
  }

  function ParseParam(ts: seq<Tok>): (r: Parse<Param>)
    ensures Shorter(r, ts)
    decreases |ts|, 1
  {
    var (x, r1) :- ExpectIdent(ts);
    var (_, r2) :- Expect(r1, TColon);
    var (t, r3) :- ParseType(r2);
    Got(Param(x, t), r3)
  }

  /** Parameters up to the closing token, n of them already there; as many as the limit are too many. */
  function ParseParams(ts: seq<Tok>, closer: Tok, n: nat, limit: Option<nat>): (r: Parse<seq<Param>>)
    ensures Shorter(r, ts)
    decreases |ts|, 2
  {
    if Starts(ts, closer) then Got([], ts[1..])
    else
      var (p, r1) :- ParseParam(ts);
      if limit.Some? && n + 1 >= limit.value then Fail
      else
        var (ps, r2) :- ParseParams(SkipComma(r1), closer, n + 1, limit);
        Got([p] + ps, r2)
  }

  function Rule(k: nat, ts: seq<Tok>): (r: Parse<Expr>)
    requires k <= EXPR
    ensures Shorter(r, ts)
    decreases |ts|, k
  {
    if k == PRIMARY then Primary(ts)
    else if k == CALL then
      var (e, r) :- Rule(PRIMARY, ts);
      if Starts(r, TLParen) then
        var (args, q) :- Items(r[1..], TRParen);
        Got(Call(e, args), q)
      else Got(e, r)
    else if k == INDEX then
      var (e, r) :- Rule(CALL, ts);
      if Starts(r, TLBracket) then
        var (i, q) :- Rule(EXPR, r[1..]);
        var (_, q1) :- Expect(q, TRBracket);
        Got(Index(e, i), q1)
      else Got(e, r)
    else if k == UNARY then
      if StartsUnary(ts) then
        var (e, r) :- Rule(INDEX, ts[1..]);
        Got(Unary(UnaryOperator(ts[0]).value, e), r)
      else Rule(INDEX, ts)
    else if k < ASSIGN then
      var (e, r) :- Rule(k - 1, ts);
      Operands(k, e, r)
    else if k == ASSIGN then
      var (e, r) :- Rule(ASSIGN - 1, ts);
      if Starts(r, TAssign) then
        var (v, q) :- Rule(ASSIGN, r[1..]);
        Got(Assign(e, v), q)
      else Got(e, r)
    else if Starts(ts, TLBracket) then
      var (vs, r) :- Items(ts[1..], TRBracket);
      var (t, q) :- ParseType(r);
      Got(Array(vs, t, 0), q)
    else Rule(ASSIGN, ts)
  }

  function Primary(ts: seq<Tok>): (r: Parse<Expr>)
    ensures Shorter(r, ts)
    decreases |ts|, 0, 0
  {
    if ts == [] then Fail
    else
      match ts[0]
      case TNumber(k, n) => Got(Num(k, n), ts[1..])
      case TIdent(x) => Got(Ident(x), ts[1..])
      case TString(s) => Got(Str(s), ts[1..])
      case TLParen =>
        var (e, r) :- Rule(EXPR, ts[1..]);
        var (_, q) :- Expect(r, TRParen);
        Got(Grouping(e), q)
      case _ => Fail
  }

  /** Takes operators of level k - UNARY and their right operands as long as they come; the operators
      associate to the left. */
  function Operands(k: nat, lhs: Expr, ts: seq<Tok>): (r: Parse<Expr>)
    requires UNARY < k < ASSIGN
    ensures r.Got? ==> |r.rest| <= |ts|
    decreases |ts|, EXPR + 1
  {
    if !StartsLevel(ts, k - UNARY) then Got(lhs, ts)
    else
      var (rhs, r) :- Rule(k - 1, ts[1..]);
      Operands(k, Binary(BinaryOperator(ts[0]).value, lhs, rhs), r)
  }

  /** Expressions up to the closing token. */
  function Items(ts: seq<Tok>, closer: Tok): (r: Parse<seq<Expr>>)
    ensures Shorter(r, ts)
    decreases |ts|, EXPR + 1
  {
    if Starts(ts, closer) then Got([], ts[1..])
    else
      var (e, r1) :- Rule(EXPR, ts);
      var (es, r2) :- Items(SkipComma(r1), closer);
      Got([e] + es, r2)
  }

  /** An expression where a semicolon says that there is none. */
  function ParseOption(ts: seq<Tok>): (r: Parse<Option<Expr>>)
    ensures r.Got? ==> |r.rest| <= |ts|
  {
    if Starts(ts, TSemicolon) then Got(None, ts)
    else
      var (e, r) :- Rule(EXPR, ts);
      Got(Some(e), r)
  }

  function ParseVarDecl(ts: seq<Tok>): (r: Parse<Stmt>)
    ensures Shorter(r, ts)
  {
    var (_, r0) :- Expect(ts, TLet);
    var (p, r1) :- ParseParam(r0);
    if Starts(r1, TSemicolon) then Got(VarDecl(p.ident, p.ty, None, 0), r1[1..])
    else
      var (_, r2) :- Expect(r1, TAssign);
      var (e, r3) :- Rule(EXPR, r2);
      var (_, r4) :- Expect(r3, TSemicolon);
      Got(VarDecl(p.ident, p.ty, Some(e), 0), r4)
  }

  /** A statement, or none for an empty one. */
  function ParseStmt(ts: seq<Tok>): (r: Parse<Option<Stmt>>)
    ensures Shorter(r, ts)
    decreases |ts|, 2
  {
    if Starts(ts, TLBrace) then
      var (b, r) :- ParseBlock(ts);
      Got(Some(BlockStmt(b)), r)
    else if Starts(ts, TLet) then
      var (s, r) :- ParseVarDecl(ts);
      Got(Some(s), r)
    else if Starts(ts, TIf) then
      var (s, r) :- ParseIf(ts);
      Got(Some(s), r)
    else if Starts(ts, TWhile) then
      var (s, r) :- ParseWhile(ts);
      Got(Some(s), r)
    else if Starts(ts, TFor) then
      var (s, r) :- ParseFor(ts);
      Got(Some(s), r)
    else if Starts(ts, TReturn) then
      var (e, r) :- ParseOption(ts[1..]);
      var (_, q) :- Expect(r, TSemicolon);
      Got(Some(Return(e)), q)
    else
      var (e, r) :- ParseOption(ts);
      var (_, q) :- Expect(r, TSemicolon);
      Got(if e.Some? then Some(ExprStmt(e.value)) else None, q)
  }

  function ParseIf(ts: seq<Tok>): (r: Parse<Stmt>)
    ensures Shorter(r, ts)
    decreases |ts|, 1
  {
    var (_, r0) :- Expect(ts, TIf);
    var (cond, r1) :- Rule(EXPR, r0);
    var (thn, r2) :- ParseBlock(r1);
    if Starts(r2, TElse) then
      var (els, r3) :- ParseBlock(r2[1..]);
      Got(If(cond, thn, Some(els)), r3)
    else Got(If(cond, thn, None), r2)
  }

  function ParseWhile(ts: seq<Tok>): (r: Parse<Stmt>)
    ensures Shorter(r, ts)
    decreases |ts|, 1
  {
    var (_, r0) :- Expect(ts, TWhile);
    var (cond, r1) :- Rule(EXPR, r0);
    var (body, r2) :- ParseBlock(r1);
    Got(While(cond, body), r2)
  }

  function ParseFor(ts: seq<Tok>): (r: Parse<Stmt>)
    ensures Shorter(r, ts)
    decreases |ts|, 1
  {
    var (_, r0) :- Expect(ts, TFor);
    var (p, r1) :- ParseParam(r0);
    var (_, r2) :- Expect(r1, TAssign);
    var (start, r3) :- Rule(EXPR, r2);
    var (_, r4) :- Expect(r3, TComma);
    var (cond, r5) :- Rule(EXPR, r4);
    var (_, r6) :- Expect(r5, TComma);
    var (update, r7) :- Rule(EXPR, r6);
    var (body, r8) :- ParseBlock(r7);
    Got(For(p.ident, p.ty, start, cond, update, body, 0, 0), r8)
  }

  function ParseBlock(ts: seq<Tok>): (r: Parse<Block>)
    ensures Shorter(r, ts)
    decreases |ts|, 0
  {
    var (_, r) :- Expect(ts, TLBrace);
    var (stmts, q) :- ParseStmts(r);
    Got(Block(stmts, 0), q)
  }

  /** Statements up to the closing brace; empty ones leave nothing. */
  function ParseStmts(ts: seq<Tok>): (r: Parse<seq<Stmt>>)
    ensures Shorter(r, ts)
    decreases |ts|, 3
  {
    if Starts(ts, TRBrace) then Got([], ts[1..])
    else
      var (s, r1) :- ParseStmt(ts);
      var (ss, r2) :- ParseStmts(r1);
      Got(if s.Some? then [s.value] + ss else ss, r2)
  }

  datatype Decl =
    | ProcDecl(name: string, sig: Signature, body: Option<Block>)
    | TableDecl(name: string, fields: seq<Param>)

  function ParseDecl(ts: seq<Tok>): (r: Parse<Decl>)
    ensures Shorter(r, ts)
  {
    if Starts(ts, TProc) then
      var (x, r1) :- ExpectIdent(ts[1..]);
      var (sig, r2) :- ParseSignature(r1);
      if Starts(r2, TSemicolon) then Got(ProcDecl(x, sig, None), r2[1..])
      else
        var (b, r3) :- ParseBlock(r2);
        Got(ProcDecl(x, sig, Some(b)), r3)
    else if Starts(ts, TTable) then
      var (x, r1) :- ExpectIdent(ts[1..]);
      var (_, r2) :- Expect(r1, TLBrace);
      var (fields, r3) :- ParseParams(r2, TRBrace, 0, None);
      Got(TableDecl(x, fields), r3)
    else Fail
  }

  /** The whole program, or nothing after the first error. */
  function ParseProgram(ts: seq<Tok>): (r: Option<seq<Decl>>)
    decreases |ts|
  {
    if ts == [] then Some([])
    else
      match ParseDecl(ts)
      case Fail => None
      case Got(d, r) =>
        var ds := ParseProgram(r);
        if ds.None? then None else Some([d] + ds.value)
  }
}
