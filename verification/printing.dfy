/** Trees as the parser builds them, and the tokens they are written with. */
module Printing {
  import opened Types
  import opened Syntax
  import opened Tokens
  import opened Grammar

  function PrintType(t: Type): (r: seq<Tok>)
    ensures r != []
    decreases t
  {
    match t
    case Void => [TVoid]
    case Char => [TChar]
    case Int => [TInt]
    case Long => [TLong]
    case Object(x) => [TIdent(x)]
    case Pointer(p) => [TAsterisk] + PrintType(p)
    case Procedure(sig) => [TProc] + PrintSignature(sig)
  }

  function PrintSignature(sig: Signature): seq<Tok>
    decreases sig
  {
    [TLParen] + PrintParams(sig.params) + [TRParen] + PrintType(sig.ret)
  }

  function PrintParam(p: Param): seq<Tok>
    decreases p
  {
    [TIdent(p.ident), TColon] + PrintType(p.ty)
  }

  function PrintParams(ps: seq<Param>): seq<Tok>
    decreases ps
  {
    if ps == [] then []
    else if |ps| == 1 then PrintParam(ps[0])
    else PrintParam(ps[0]) + [TComma] + PrintParams(ps[1..])
  }

  function Print(e: Expr): (r: seq<Tok>)
    ensures r != []
    decreases e
  {
    match e
    case Num(k, n) => [TNumber(k, n)]
    case Ident(x) => [TIdent(x)]
    case Str(s) => [TString(s)]
    case Grouping(inner) => [TLParen] + Print(inner) + [TRParen]
    case Binary(op, l, r) => Print(l) + [BinaryToken(op)] + Print(r)
    case Unary(op, node) => [UnaryToken(op)] + Print(node)
    case Call(f, args) => Print(f) + [TLParen] + PrintItems(args) + [TRParen]
    case Assign(t, v) => Print(t) + [TAssign] + Print(v)
    case Array(vs, t, _) => [TLBracket] + PrintItems(vs) + [TRBracket] + PrintType(t)
    case Index(x, i) => Print(x) + [TLBracket] + Print(i) + [TRBracket]
  }

  function PrintItems(es: seq<Expr>): seq<Tok>
    decreases es
  {
    if es == [] then []
    else if |es| == 1 then Print(es[0])
    else Print(es[0]) + [TComma] + PrintItems(es[1..])
  }

  function PrintOption(e: Option<Expr>): seq<Tok> {
    if e.None? then [] else Print(e.value)
  }

  function PrintStmt(s: Stmt): (r: seq<Tok>)
    ensures r != []
    decreases s
  {
    match s
    case ExprStmt(e) => Print(e) + [TSemicolon]
    case BlockStmt(b) => PrintBlock(b)
    case VarDecl(x, t, init, _) =>
      [TLet] + PrintParam(Param(x, t)) + (if init.Some? then [TAssign] + Print(init.value) else []) + [TSemicolon]
    case If(cond, thn, els) =>
      [TIf] + Print(cond) + PrintBlock(thn) + if els.Some? then [TElse] + PrintBlock(els.value) else []
    case While(cond, body) => [TWhile] + Print(cond) + PrintBlock(body)
    case For(x, t, start, cond, update, body, _, _) =>
      [TFor] + PrintParam(Param(x, t)) + [TAssign] + Print(start) + [TComma] + Print(cond) + [TComma] + Print(update) +
        PrintBlock(body)
    case Return(e) => [TReturn] + PrintOption(e) + [TSemicolon]
  }

  function PrintStmts(ss: seq<Stmt>): seq<Tok>
    decreases ss
  {
    if ss == [] then [] else PrintStmt(ss[0]) + PrintStmts(ss[1..])
  }

  function PrintBlock(b: Block): (r: seq<Tok>)
    ensures r != []
    decreases b
  {
    [TLBrace] + PrintStmts(b.stmts) + [TRBrace]
  }

  function PrintDecl(d: Decl): seq<Tok> {
    match d
    case ProcDecl(x, sig, body) =>
      [TProc, TIdent(x)] + PrintSignature(sig) + if body.Some? then PrintBlock(body.value) else [TSemicolon]
    case TableDecl(x, fields) => [TTable, TIdent(x), TLBrace] + PrintParams(fields) + [TRBrace]
  }

  function PrintProgram(ds: seq<Decl>): seq<Tok> {
    if ds == [] then [] else PrintDecl(ds[0]) + PrintProgram(ds[1..])
  }

  /** The first rule that can yield an expression of this form. */
  function Rank(e: Expr): (k: nat)
    ensures k <= EXPR
  {
    match e
    case Call(_, _) => CALL
    case Index(_, _) => INDEX
    case Unary(_, _) => UNARY
    case Binary(op, _, _) => UNARY + Level(op)
    case Assign(_, _) => ASSIGN
    case Array(_, _, _) => EXPR
    case _ => PRIMARY
  }

  predicate ConformsType(t: Type)
    decreases t
  {
    match t
    case Pointer(p) => ConformsType(p)
    case Procedure(sig) => ConformsSignature(sig)
    case _ => true
  }

  predicate ConformsSignature(sig: Signature)
    decreases sig
  {
    |sig.params| < MAX_PARAM_COUNT && ConformsType(sig.ret) && forall p | p in sig.params :: ConformsType(p.ty)
  }

  /** The operands are of forms that need no grouping where they stand: binary operators associate to
      the left, assignments to the right, and a unary operator takes no second one. */
  predicate Conforms(e: Expr)
    decreases e
  {
    match e
    case Grouping(inner) => Conforms(inner)
    case Binary(op, l, r) => Conforms(l) && Conforms(r) && Rank(l) <= UNARY + Level(op) && Rank(r) < UNARY + Level(op)
    case Unary(_, node) => Conforms(node) && Rank(node) <= INDEX
    case Call(f, args) => Conforms(f) && Rank(f) == PRIMARY && forall x | x in args :: Conforms(x)
    case Assign(t, v) => Conforms(t) && Rank(t) < ASSIGN && Conforms(v) && Rank(v) <= ASSIGN
    case Array(vs, t, off) => (forall x | x in vs :: Conforms(x)) && ConformsType(t) && off == 0
    case Index(x, i) => Conforms(x) && Rank(x) <= CALL && Conforms(i)
    case _ => true
  }

  predicate ConformsOption(e: Option<Expr>) {
    e.Some? ==> Conforms(e.value)
  }

  predicate ConformsStmt(s: Stmt)
    decreases s
  {
    match s
    case ExprStmt(e) => Conforms(e)
    case BlockStmt(b) => ConformsBlock(b)
    case VarDecl(_, t, init, off) => ConformsType(t) && ConformsOption(init) && off == 0
    case If(cond, thn, els) => Conforms(cond) && ConformsBlock(thn) && (els.Some? ==> ConformsBlock(els.value))
    case While(cond, body) => Conforms(cond) && ConformsBlock(body)
    case For(_, t, start, cond, update, body, off, table) =>
      ConformsType(t) && Conforms(start) && Conforms(cond) && Conforms(update) && ConformsBlock(body) && off == 0 &&
      table == 0
    case Return(e) => ConformsOption(e)
  }

  predicate ConformsBlock(b: Block)
    decreases b
  {
    b.table == 0 && forall s | s in b.stmts :: ConformsStmt(s)
  }

  predicate ConformsDecl(d: Decl) {
    match d
    case ProcDecl(_, sig, body) => ConformsSignature(sig) && (body.Some? ==> ConformsBlock(body.value))
    case TableDecl(_, fields) => forall p | p in fields :: ConformsType(p.ty)
  }

  predicate ConformsProgram(ds: seq<Decl>) {
    forall d | d in ds :: ConformsDecl(d)
  }
}
