/** Parsing what was printed gives the tree back and leaves the tokens that follow. */
module RoundTrip {
  import opened Types
  import opened Syntax
  import opened Tokens
  import opened Grammar
  import opened Printing

  /** The first of the following tokens does not go on with an expression of rule k. */
  predicate Stops(k: nat, more: seq<Tok>) {
    more != [] ==>
      (k >= CALL ==> more[0] != TLParen) && (k >= INDEX ==> more[0] != TLBracket) &&
        (k >= ASSIGN ==> more[0] != TAssign) &&
      var op := BinaryOperator(more[0]);
      op.Some? ==> k < UNARY + Level(op.value)
  }

  lemma {:induction false} TypeRoundTrip(t: Type, more: seq<Tok>)
    requires ConformsType(t)
    ensures ParseType(PrintType(t) + more) == Got(t, more)
    decreases t, 1
  {
    hide PrintSignature, ParseSignature, ConformsSignature;
    match t
    case Pointer(p) =>
      TypeRoundTrip(p, more);
      assert PrintType(t) + more == [TAsterisk] + (PrintType(p) + more);
      PrefixedType(TAsterisk, PrintType(p) + more);
    case Procedure(sig) =>
      SignatureRoundTrip(sig, more);
      assert PrintType(t) + more == [TProc] + (PrintSignature(sig) + more);
      PrefixedType(TProc, PrintSignature(sig) + more);
    case _ =>
      PrefixedType(PrintType(t)[0], more);
  }

  lemma PrefixedType(t: Tok, ts: seq<Tok>)
    ensures t == TAsterisk && ParseType(ts).Got? ==>
            ParseType([t] + ts) == Got(Pointer(ParseType(ts).value), ParseType(ts).rest)
    ensures t == TProc && ParseSignature(ts).Got? ==>
              ParseType([t] + ts) == Got(Procedure(ParseSignature(ts).value), ParseSignature(ts).rest)
    ensures t.TIdent? ==> ParseType([t] + ts) == Got(Object(t.name), ts)
    ensures t == TInt ==> ParseType([t] + ts) == Got(Int, ts)
    ensures t == TChar ==> ParseType([t] + ts) == Got(Char, ts)
    ensures t == TLong ==> ParseType([t] + ts) == Got(Long, ts)
    ensures t == TVoid ==> ParseType([t] + ts) == Got(Void, ts)
  {
    hide ParseSignature;
    assert ([t] + ts)[1..] == ts;
  }

  lemma {:induction false} SignatureRoundTrip(sig: Signature, more: seq<Tok>)
    requires ConformsSignature(sig)
    ensures ParseSignature(PrintSignature(sig) + more) == Got(sig, more)
    decreases sig
  {
    hide ParseParams, ParseType, PrintParams, PrintType;
    var ts := PrintSignature(sig) + more;
    var r := [TRParen] + (PrintType(sig.ret) + more);
    assert ts == [TLParen] + (PrintParams(sig.params) + r);
    assert ts[1..] == PrintParams(sig.params) + [TRParen] + (PrintType(sig.ret) + more);
    ParamsRoundTrip(sig.params, TRParen, 0, Some(MAX_PARAM_COUNT), PrintType(sig.ret) + more);
    TypeRoundTrip(sig.ret, more);
  }

  lemma {:induction false} ParamRoundTrip(p: Param, more: seq<Tok>)
    requires ConformsType(p.ty)
    ensures ParseParam(PrintParam(p) + more) == Got(p, more)
    decreases p
  {
    hide ParseType, PrintType;
    TypeRoundTrip(p.ty, more);
    var ts := PrintParam(p) + more;
    assert ts == [TIdent(p.ident)] + ([TColon] + (PrintType(p.ty) + more));
    assert ts[1..] == [TColon] + (PrintType(p.ty) + more);
    assert ts[1..][1..] == PrintType(p.ty) + more;
  }

  lemma {:induction false} ParamsRoundTrip(ps: seq<Param>, closer: Tok, n: nat, limit: Option<nat>, more: seq<Tok>)
    requires closer == TRParen || closer == TRBrace
    requires limit.Some? ==> n + |ps| < limit.value
    requires forall p | p in ps :: ConformsType(p.ty)
    ensures ParseParams(PrintParams(ps) + [closer] + more, closer, n, limit) == Got(ps, more)
    decreases ps, 1
  {
    hide ParseParams, PrintParams, ConformsType;
    ParamsParse(ps, closer, n, limit, more);
    assert PrintParams(ps) + [closer] + more == PrintParams(ps) + ([closer] + more);
  }

  lemma {:induction false} ParamsParse(ps: seq<Param>, closer: Tok, n: nat, limit: Option<nat>, more: seq<Tok>)
    requires closer == TRParen || closer == TRBrace
    requires limit.Some? ==> n + |ps| < limit.value
    requires forall p | p in ps :: ConformsType(p.ty)
    ensures ParseParams(PrintParams(ps) + ([closer] + more), closer, n, limit) == Got(ps, more)
    decreases ps, 0
  {
    hide ParseParam, PrintParam, ConformsType, ParseParams, PrintParams;
    var tail := [closer] + more;
    if ps == [] {
      NoParams(closer, n, limit, more);
    } else {
      var rest := PrintParams(ps[1..]) + tail;
      var q := if |ps| == 1 then rest else [TComma] + rest;
      ParamsSplit(ps, tail);
      ParamFirst(ps[0]);
      ParamRoundTrip(ps[0], q);
      ParamsParse(ps[1..], closer, n + 1, limit, more);
      assert [ps[0]] + ps[1..] == ps;
      if |ps| == 1 {
        assert [] + tail == tail;
      } else {
        BehindFirst(TComma, rest);
      }
      NextParam(PrintParams(ps) + tail, closer, n, limit, ps[0], q, ps[1..], more);
    }
  }

  /** As many parameters as the limit are too many, whatever follows them. */
  lemma {:induction false} TooManyParams(ps: seq<Param>, n: nat, limit: nat, more: seq<Tok>)
    requires n < limit <= n + |ps| && forall p | p in ps :: ConformsType(p.ty)
    ensures ParseParams(PrintParams(ps) + ([TRParen] + more), TRParen, n, Some(limit)) == Fail
    decreases |ps|
  {
    hide ParseParam, PrintParam, ConformsType, PrintParams;
    var tail := [TRParen] + more;
    var ts, rest := PrintParams(ps) + tail, PrintParams(ps[1..]) + tail;
    var q := if |ps| == 1 then rest else [TComma] + rest;
    ParamsSplit(ps, tail);
    ParamFirst(ps[0]);
    ParamRoundTrip(ps[0], q);
    if n + 1 < limit {
      BehindFirst(TComma, rest);
      TooManyParams(ps[1..], n + 1, limit, more);
    }
  }

  lemma ParamsDecide(ts: seq<Tok>)
    requires ParseParams(ts, TRParen, 0, Some(MAX_PARAM_COUNT)).Fail?
    ensures ParseSignature([TLParen] + ts) == Fail
  {
    hide ParseParams, ParseType;
    BehindFirst(TLParen, ts);
  }

  /** A signature of well-formed types is accepted if and only if it has at most 254 parameters. */
  lemma ParamLimit(sig: Signature, more: seq<Tok>)
    requires ConformsType(sig.ret) && forall p | p in sig.params :: ConformsType(p.ty)
    ensures |sig.params| <= 254 ==> ParseSignature(PrintSignature(sig) + more) == Got(sig, more)
    ensures |sig.params| > 254 ==> ParseSignature(PrintSignature(sig) + more) == Fail
  {
    hide ParseParams, ParseType, PrintParams, PrintType, ConformsType, ParseSignature;
    if |sig.params| <= 254 {
      SignatureRoundTrip(sig, more);
    } else {
      var r := PrintType(sig.ret) + more;
      TooManyParams(sig.params, 0, MAX_PARAM_COUNT, r);
      ParamsDecide(PrintParams(sig.params) + ([TRParen] + r));
      assert PrintSignature(sig) + more == [TLParen] + (PrintParams(sig.params) + ([TRParen] + r));
    }
  }

  lemma NoParams(closer: Tok, n: nat, limit: Option<nat>, more: seq<Tok>)
    ensures ParseParams(PrintParams([]) + ([closer] + more), closer, n, limit) == Got([], more)
  {
    assert PrintParams([]) + ([closer] + more) == [closer] + more;
    BehindFirst(closer, more);
  }

  lemma ParamsSplit(ps: seq<Param>, more: seq<Tok>)
    requires ps != []
    ensures var rest := PrintParams(ps[1..]) + more;
            PrintParams(ps) + more == PrintParam(ps[0]) + if |ps| == 1 then rest else [TComma] + rest
    ensures |ps| == 1 ==> PrintParams(ps[1..]) == []
  {
    hide PrintParam;
    var first := PrintParam(ps[0]);
    if |ps| == 1 {
      assert ps[1..] == [];
      assert PrintParams(ps) == first && PrintParams(ps[1..]) == [];
      hide PrintParams;
      assert [] + more == more;
    } else {
      assert PrintParams(ps) == first + [TComma] + PrintParams(ps[1..]);
      hide PrintParams;
      Grouped(first, [TComma], PrintParams(ps[1..]), more);
    }
  }

  lemma Grouped(a: seq<Tok>, b: seq<Tok>, c: seq<Tok>, d: seq<Tok>)
    ensures a + b + c + d == a + (b + (c + d))
  {
  }

  /** One more parameter in front of the others. */
  lemma NextParam(ts: seq<Tok>, closer: Tok, n: nat, limit: Option<nat>, p: Param, q: seq<Tok>, ps: seq<Param>,
                  more: seq<Tok>)
    requires !Starts(ts, closer) && ParseParam(ts) == Got(p, q) && (limit.Some? ==> n + 1 < limit.value)
    requires ParseParams(SkipComma(q), closer, n + 1, limit) == Got(ps, more)
    ensures ParseParams(ts, closer, n, limit) == Got([p] + ps, more)
  {
    hide ParseParam, SkipComma;
  }

  lemma ParamFirst(p: Param)
    ensures PrintParam(p) != [] && PrintParam(p)[0].TIdent?
  {
  }

  lemma {:induction false} FirstToken(e: Expr)
    requires Conforms(e)
    ensures Rank(e) <= INDEX ==> UnaryOperator(Print(e)[0]).None?
    ensures Rank(e) <= ASSIGN ==> Print(e)[0] != TLBracket
    ensures Print(e)[0] !in {TRParen, TRBracket, TSemicolon, TLBrace, TLet, TIf, TWhile, TFor, TReturn, TRBrace}
    decreases e
  {
    match e
    case Binary(_, l, _) => FirstToken(l);
    case Call(f, _) => FirstToken(f);
    case Assign(t, _) => FirstToken(t);
    case Index(x, _) => FirstToken(x);
    case _ =>
  }

  lemma StopsBelow(k: nat, more: seq<Tok>)
    requires Stops(k, more) && k > 0
    ensures Stops(k - 1, more)
  {
  }

  lemma FirstStays(e: Expr, more: seq<Tok>)
    ensures Print(e) + more != [] && (Print(e) + more)[0] == Print(e)[0]
  {
    hide Print;
  }

  lemma {:induction false} Parses(k: nat, e: Expr, more: seq<Tok>)
    requires k <= EXPR && Conforms(e) && Rank(e) <= k && Stops(k, more)
    ensures Rule(k, Print(e) + more) == Got(e, more)
    decreases e, k, 1
  {
    if k == PRIMARY {
      PrimaryParses(e, more);
    } else if Rank(e) == k && !e.Binary? {
      FormParses(e, more);
    } else if UNARY < k < ASSIGN {
      Continues(k, e, more);
    } else {
      hide Rule, Print, Conforms, Rank;
      StopsBelow(k, more);
      Parses(k - 1, e, more);
      FirstToken(e);
      FirstStays(e, more);
      NothingMore(k, Print(e) + more, e, more);
    }
  }

  /** A rule passes on what the rule below it found when nothing follows that belongs to it. */
  lemma NothingMore(k: nat, ts: seq<Tok>, e: Expr, more: seq<Tok>)
    requires 0 < k <= EXPR && !(UNARY < k < ASSIGN) && Rule(k - 1, ts) == Got(e, more) && Stops(k, more) && ts != []
    requires k == UNARY ==> UnaryOperator(ts[0]).None?
    requires k == EXPR ==> ts[0] != TLBracket
    ensures Rule(k, ts) == Got(e, more)
  {
    hide Primary, Items, Operands;
  }

  /** The operands of level k so far, and what follows. */
  lemma {:induction false} Continues(k: nat, e: Expr, more: seq<Tok>)
    requires UNARY < k < ASSIGN && Conforms(e) && Rank(e) <= k && Stops(k - 1, more)
    ensures Rule(k, Print(e) + more) == Operands(k, e, more)
    ensures Stops(k, more) ==> Rule(k, Print(e) + more) == Got(e, more)
    decreases e, k, 0
  {
    hide Rule, Print, Conforms, Rank, Level, BinaryToken, Operands, Stops;
    NoOperand(k, e, more);
    if Rank(e) == k {
      BinaryForm(k, e);
      var rest := [BinaryToken(e.op)] + (Print(e.rhs) + more);
      assert Print(e) + more == Print(e.lhs) + rest;
      OperatorStops(k, e.op, Print(e.rhs) + more);
      Continues(k, e.lhs, rest);
      Parses(k - 1, e.rhs, more);
      OneOperand(k, e.op, e.lhs, e.rhs, more);
    } else {
      Parses(k - 1, e, more);
      FirstOperand(k, Print(e) + more, e, more);
    }
  }

  lemma BinaryForm(k: nat, e: Expr)
    requires UNARY < k < ASSIGN && Conforms(e) && Rank(e) == k
    ensures e.Binary? && Level(e.op) == k - UNARY && Print(e) == Print(e.lhs) + [BinaryToken(e.op)] + Print(e.rhs)
    ensures Conforms(e.lhs) && Rank(e.lhs) <= k && Conforms(e.rhs) && Rank(e.rhs) <= k - 1
  {
  }

  lemma OperatorStops(k: nat, op: BinOp, ts: seq<Tok>)
    requires UNARY < k < ASSIGN && Level(op) == k - UNARY
    ensures Stops(k - 1, [BinaryToken(op)] + ts)
  {
  }

  lemma OneOperand(k: nat, op: BinOp, l: Expr, r: Expr, more: seq<Tok>)
    requires UNARY < k < ASSIGN && Level(op) == k - UNARY && Rule(k - 1, Print(r) + more) == Got(r, more)
    ensures Operands(k, l, [BinaryToken(op)] + (Print(r) + more)) == Operands(k, Binary(op, l, r), more)
  {
    hide Rule, Print, Level, BinaryToken;
    var ts := [BinaryToken(op)] + (Print(r) + more);
    assert ts[1..] == Print(r) + more;
  }

  lemma NoOperand(k: nat, e: Expr, more: seq<Tok>)
    requires UNARY < k < ASSIGN
    ensures Stops(k, more) ==> Operands(k, e, more) == Got(e, more)
  {
    hide Rule;
  }

  lemma FirstOperand(k: nat, ts: seq<Tok>, e: Expr, more: seq<Tok>)
    requires UNARY < k < ASSIGN && Rule(k - 1, ts) == Got(e, more)
    ensures Rule(k, ts) == Operands(k, e, more)
  {
    hide Primary, Items, Operands;
  }

  lemma CloserStops(t: Tok, more: seq<Tok>)
    requires t == TRParen || t == TRBracket || t == TSemicolon
    ensures Stops(EXPR, [t] + more)
  {
  }

  lemma GroupingRule(ts: seq<Tok>, e: Expr, r: seq<Tok>)
    requires Rule(EXPR, ts) == Got(e, [TRParen] + r)
    ensures Rule(PRIMARY, [TLParen] + ts) == Got(Grouping(e), r)
  {
    hide Items, Operands;
    assert ([TLParen] + ts)[1..] == ts && ([TRParen] + r)[1..] == r;
    var all := [TLParen] + ts;
    assert Rule(PRIMARY, all) == Primary(all);
    hide Rule;
  }

  lemma AtomParses(e: Expr, more: seq<Tok>)
    requires Conforms(e) && Rank(e) == PRIMARY && !e.Grouping?
    ensures Rule(PRIMARY, Print(e) + more) == Got(e, more)
  {
    hide Items, Operands, Conforms;
    var ts := Print(e) + more;
    assert ts[1..] == more;
    assert Rule(PRIMARY, ts) == Primary(ts);
    hide Rule;
  }

  lemma {:induction false} PrimaryParses(e: Expr, more: seq<Tok>)
    requires Conforms(e) && Rank(e) == PRIMARY
    ensures Rule(PRIMARY, Print(e) + more) == Got(e, more)
    decreases e, 0, 0
  {
    hide Rule, Stops;
    if e.Grouping? {
      var rest := [TRParen] + more;
      assert Print(e) + more == [TLParen] + (Print(e.inner) + rest);
      CloserStops(TRParen, more);
      Parses(EXPR, e.inner, rest);
      GroupingRule(Print(e.inner) + rest, e.inner, more);
    } else {
      AtomParses(e, more);
    }
  }

  lemma {:induction false} ItemsParse(es: seq<Expr>, closer: Tok, more: seq<Tok>)
    requires closer == TRParen || closer == TRBracket
    requires forall x | x in es :: Conforms(x)
    ensures Items(PrintItems(es) + [closer] + more, closer) == Got(es, more)
    decreases es, 0, 0
  {
    hide Rule, Print, Conforms;
    var ts := PrintItems(es) + [closer] + more;
    if es == [] {
      assert ts == [closer] + more;
    } else {
      var rest := PrintItems(es[1..]) + [closer] + more;
      var q := if |es| == 1 then rest else [TComma] + rest;
      assert |es| == 1 ==> es[1..] == [] && rest == [closer] + more;
      assert ts == Print(es[0]) + q;
      FirstToken(es[0]);
      Parses(EXPR, es[0], q);
      ItemsParse(es[1..], closer, more);
      assert [es[0]] + es[1..] == es;
      assert SkipComma(q) == rest by {
        if |es| > 1 {
          assert q[1..] == rest;
        }
      }
    }
  }

  lemma CallRule(ts: seq<Tok>, f: Expr, r: seq<Tok>, args: seq<Expr>, q: seq<Tok>)
    requires Rule(PRIMARY, ts) == Got(f, r) && Starts(r, TLParen) && Items(r[1..], TRParen) == Got(args, q)
    ensures Rule(CALL, ts) == Got(Call(f, args), q)
  {
    hide Operands, Items, Primary;
  }

  lemma IndexRule(ts: seq<Tok>, x: Expr, r: seq<Tok>, i: Expr, q: seq<Tok>)
    requires Rule(CALL, ts) == Got(x, r) && Starts(r, TLBracket) && Rule(EXPR, r[1..]) == Got(i, [TRBracket] + q)
    ensures Rule(INDEX, ts) == Got(Index(x, i), q)
  {
    hide Operands, Items, Primary;
    assert ([TRBracket] + q)[1..] == q;
  }

  lemma AssignRule(ts: seq<Tok>, t: Expr, r: seq<Tok>, v: Expr, q: seq<Tok>)
    requires Rule(ASSIGN - 1, ts) == Got(t, r) && Starts(r, TAssign) && Rule(ASSIGN, r[1..]) == Got(v, q)
    ensures Rule(ASSIGN, ts) == Got(Assign(t, v), q)
  {
    hide Operands, Items, Primary;
  }

  lemma PrefixRule(op: UnaryOp, ts: seq<Tok>, node: Expr, q: seq<Tok>)
    requires Rule(INDEX, ts) == Got(node, q)
    ensures Rule(UNARY, [UnaryToken(op)] + ts) == Got(Unary(op, node), q)
  {
    hide Operands, Items, Primary;
    assert ([UnaryToken(op)] + ts)[1..] == ts;
  }

  lemma ArrayRule(ts: seq<Tok>, vs: seq<Expr>, r: seq<Tok>, t: Type, q: seq<Tok>)
    requires Items(ts, TRBracket) == Got(vs, r) && ParseType(r) == Got(t, q)
    ensures Rule(EXPR, [TLBracket] + ts) == Got(Array(vs, t, 0), q)
  {
    hide Operands, Items, Primary;
    assert ([TLBracket] + ts)[1..] == ts;
  }

  lemma {:induction false} CallParses(e: Expr, more: seq<Tok>)
    requires e.Call? && Conforms(e) && Stops(CALL, more)
    ensures Rule(CALL, Print(e) + more) == Got(e, more)
    decreases e, 0, 0
  {
    hide Rule, Items;
    var args := PrintItems(e.args) + [TRParen] + more;
    var rest := [TLParen] + args;
    assert Print(e) + more == Print(e.callee) + rest;
    Parses(PRIMARY, e.callee, rest);
    ItemsParse(e.args, TRParen, more);
    assert rest[1..] == args;
    CallRule(Print(e) + more, e.callee, rest, e.args, more);
  }

  lemma BracketStops(ts: seq<Tok>)
    ensures Stops(CALL, [TLBracket] + ts)
  {
  }

  lemma {:induction false} IndexParses(e: Expr, more: seq<Tok>)
    requires e.Index? && Conforms(e) && Stops(INDEX, more)
    ensures Rule(INDEX, Print(e) + more) == Got(e, more)
    decreases e, 0, 0
  {
    hide Rule, Items, Stops, BinaryOperator;
    var rest := [TRBracket] + more;
    var inside := [TLBracket] + (Print(e.index) + rest);
    assert Print(e) + more == Print(e.expr) + inside;
    hide Print;
    BracketStops(Print(e.index) + rest);
    Parses(CALL, e.expr, inside);
    CloserStops(TRBracket, more);
    Parses(EXPR, e.index, rest);
    BehindFirst(TLBracket, Print(e.index) + rest);
    IndexRule(Print(e) + more, e.expr, inside, e.index, more);
  }

  lemma {:induction false} AssignParses(e: Expr, more: seq<Tok>)
    requires e.Assign? && Conforms(e) && Stops(ASSIGN, more)
    ensures Rule(ASSIGN, Print(e) + more) == Got(e, more)
    decreases e, 0, 0
  {
    hide Rule, Items;
    var rest := [TAssign] + (Print(e.rvalue) + more);
    assert Print(e) + more == Print(e.target) + rest;
    Parses(ASSIGN - 1, e.target, rest);
    Parses(ASSIGN, e.rvalue, more);
    assert rest[1..] == Print(e.rvalue) + more;
    AssignRule(Print(e) + more, e.target, rest, e.rvalue, more);
  }

  lemma {:induction false} ArrayParses(e: Expr, more: seq<Tok>)
    requires e.Array? && Conforms(e)
    ensures Rule(EXPR, Print(e) + more) == Got(e, more)
    decreases e, 0, 0
  {
    hide Rule, Items, ParseType;
    var rest := PrintType(e.elem) + more;
    var values := PrintItems(e.values) + [TRBracket] + rest;
    assert Print(e) + more == [TLBracket] + values;
    ItemsParse(e.values, TRBracket, rest);
    TypeRoundTrip(e.elem, more);
    ArrayRule(values, e.values, rest, e.elem, more);
  }

  /** The rule of an expression's own form. */
  lemma {:induction false} FormParses(e: Expr, more: seq<Tok>)
    requires Conforms(e) && Rank(e) > PRIMARY && !e.Binary? && Stops(Rank(e), more)
    ensures Rule(Rank(e), Print(e) + more) == Got(e, more)
    decreases e, 0, 1
  {
    match e
    case Call(_, _) => CallParses(e, more);
    case Index(_, _) => IndexParses(e, more);
    case Unary(op, node) =>
      hide Rule;
      assert Print(e) + more == [UnaryToken(op)] + (Print(node) + more);
      Parses(INDEX, node, more);
      PrefixRule(op, Print(node) + more, node, more);
    case Assign(_, _) => AssignParses(e, more);
    case Array(_, _, _) => ArrayParses(e, more);
  }

  /** What a printed declaration needs before the semicolon. */
  lemma OptionParses(e: Option<Expr>, more: seq<Tok>)
    requires ConformsOption(e)
    ensures ParseOption(PrintOption(e) + [TSemicolon] + more) == Got(e, [TSemicolon] + more)
  {
    hide Rule, Print, Conforms;
    var rest := [TSemicolon] + more;
    if e.Some? {
      FirstToken(e.value);
      assert PrintOption(e) + [TSemicolon] + more == Print(e.value) + rest;
      FirstStays(e.value, rest);
      Parses(EXPR, e.value, rest);
    } else {
      assert PrintOption(e) + [TSemicolon] + more == rest;
    }
  }

  lemma VarDeclParses(s: Stmt, more: seq<Tok>)
    requires s.VarDecl? && ConformsStmt(s)
    ensures ParseVarDecl(PrintStmt(s) + more) == Got(s, more)
  {
    hide Rule, Print, ParseParam, PrintParam, Conforms;
    var p, rest := Param(s.ident, s.ty), [TSemicolon] + more;
    var value := if s.init.Some? then [TAssign] + (Print(s.init.value) + rest) else rest;
    assert PrintStmt(s) + more == [TLet] + (PrintParam(p) + value);
    ParamRoundTrip(p, value);
    hide PrintStmt, ParseVarDecl;
    if s.init.Some? {
      Parses(EXPR, s.init.value, rest);
      ValueRule(PrintParam(p) + value, p, Print(s.init.value) + rest, s.init.value, more);
    } else {
      NoValueRule(PrintParam(p) + value, p, more);
    }
  }

  lemma NoValueRule(ts: seq<Tok>, p: Param, more: seq<Tok>)
    requires ParseParam(ts) == Got(p, [TSemicolon] + more)
    ensures ParseVarDecl([TLet] + ts) == Got(VarDecl(p.ident, p.ty, None, 0), more)
  {
    hide Rule, ParseParam;
    assert ([TLet] + ts)[1..] == ts && ([TSemicolon] + more)[1..] == more;
  }

  lemma ValueRule(ts: seq<Tok>, p: Param, r: seq<Tok>, e: Expr, more: seq<Tok>)
    requires ParseParam(ts) == Got(p, [TAssign] + r) && Rule(EXPR, r) == Got(e, [TSemicolon] + more)
    ensures ParseVarDecl([TLet] + ts) == Got(VarDecl(p.ident, p.ty, Some(e), 0), more)
  {
    hide Rule, ParseParam;
    assert ([TLet] + ts)[1..] == ts && ([TAssign] + r)[1..] == r && ([TSemicolon] + more)[1..] == more;
  }

  lemma ExprStmtParses(e: Expr, more: seq<Tok>)
    requires Conforms(e)
    ensures ParseStmt(Print(e) + [TSemicolon] + more) == Got(Some(ExprStmt(e)), more)
  {
    hide Rule, Print, Conforms, ParseVarDecl, ParseIf, ParseWhile, ParseFor, ParseBlock, ParseOption;
    hide ParseStmt;
    var rest := [TSemicolon] + more;
    OptionParses(Some(e), more);
    assert PrintOption(Some(e)) == Print(e);
    FirstToken(e);
    FirstStays(e, rest);
    assert Print(e) + [TSemicolon] + more == Print(e) + rest;
    ExprStmtRule(Print(e) + rest, e, more);
  }

  lemma ExprStmtRule(ts: seq<Tok>, e: Expr, more: seq<Tok>)
    requires ts != [] && ts[0] !in {TLBrace, TLet, TIf, TWhile, TFor, TReturn}
    requires ParseOption(ts) == Got(Some(e), [TSemicolon] + more)
    ensures ParseStmt(ts) == Got(Some(ExprStmt(e)), more)
  {
    hide ParseVarDecl, ParseIf, ParseWhile, ParseFor, ParseBlock, ParseOption;
    assert ([TSemicolon] + more)[1..] == more;
  }

  lemma ReturnParses(e: Option<Expr>, more: seq<Tok>)
    requires ConformsOption(e)
    ensures ParseStmt([TReturn] + PrintOption(e) + [TSemicolon] + more) == Got(Some(Return(e)), more)
  {
    hide Rule, ConformsOption, ParseVarDecl, ParseIf, ParseWhile, ParseFor, ParseBlock, ParseOption, PrintOption;
    var ts := [TReturn] + PrintOption(e) + [TSemicolon] + more;
    OptionParses(e, more);
    assert ts[1..] == PrintOption(e) + [TSemicolon] + more;
    assert ([TSemicolon] + more)[1..] == more;
  }

  lemma {:induction false} StmtParses(s: Stmt, more: seq<Tok>)
    requires ConformsStmt(s) && !Starts(more, TElse)
    ensures ParseStmt(PrintStmt(s) + more) == Got(Some(s), more)
    decreases s, 1
  {
    hide Rule, Print, Conforms, ParseVarDecl, ParseIf, ParseWhile, ParseFor, ParseBlock, ParseOption, PrintOption,
      ConformsOption, PrintBlock, ConformsBlock, ParseStmt;
    StmtFirst(s, more);
    if !s.ExprStmt? && !s.Return? {
      hide PrintStmt;
    }
    match s
    case ExprStmt(e) => ExprStmtParses(e, more);
    case BlockStmt(b) =>
      BlockParses(b, more);
      Dispatched(PrintStmt(s) + more, s, more);
    case VarDecl(_, _, _, _) =>
      VarDeclParses(s, more);
      Dispatched(PrintStmt(s) + more, s, more);
    case If(_, _, _) =>
      IfParses(s, more);
      Dispatched(PrintStmt(s) + more, s, more);
    case While(_, _) =>
      WhileParses(s, more);
      Dispatched(PrintStmt(s) + more, s, more);
    case For(_, _, _, _, _, _, _, _) =>
      ForParses(s, more);
      Dispatched(PrintStmt(s) + more, s, more);
    case Return(e) => ReturnParses(e, more);
  }

  /** The statement rule goes by the first token. */
  lemma Dispatched(ts: seq<Tok>, s: Stmt, more: seq<Tok>)
    requires ts != [] && ts[0] in {TLBrace, TLet, TIf, TWhile, TFor}
    requires ts[0] == TLBrace ==> s.BlockStmt? && ParseBlock(ts) == Got(s.block, more)
    requires ts[0] == TLet ==> ParseVarDecl(ts) == Got(s, more)
    requires ts[0] == TIf ==> ParseIf(ts) == Got(s, more)
    requires ts[0] == TWhile ==> ParseWhile(ts) == Got(s, more)
    requires ts[0] == TFor ==> ParseFor(ts) == Got(s, more)
    ensures ParseStmt(ts) == Got(Some(s), more)
  {
    hide ParseBlock, ParseVarDecl, ParseIf, ParseWhile, ParseFor, ParseOption;
  }

  lemma StmtFirst(s: Stmt, more: seq<Tok>)
    ensures PrintStmt(s) + more != []
    ensures s.BlockStmt? ==> PrintStmt(s) == PrintBlock(s.block) && (PrintStmt(s) + more)[0] == TLBrace
    ensures s.VarDecl? ==> (PrintStmt(s) + more)[0] == TLet
    ensures s.If? ==> (PrintStmt(s) + more)[0] == TIf
    ensures s.While? ==> (PrintStmt(s) + more)[0] == TWhile
    ensures s.For? ==> (PrintStmt(s) + more)[0] == TFor
  {
    hide PrintStmts, Print, PrintParam, PrintOption;
  }

  lemma {:induction false} BlockParses(b: Block, more: seq<Tok>)
    requires ConformsBlock(b)
    ensures ParseBlock(PrintBlock(b) + more) == Got(b, more)
    decreases b, 0
  {
    hide ParseStmts, PrintStmts;
    assert PrintBlock(b) + more == [TLBrace] + (PrintStmts(b.stmts) + [TRBrace] + more);
    assert (PrintBlock(b) + more)[1..] == PrintStmts(b.stmts) + [TRBrace] + more;
    StmtsParse(b.stmts, more);
  }

  lemma {:induction false} StmtsParse(ss: seq<Stmt>, more: seq<Tok>)
    requires forall s | s in ss :: ConformsStmt(s)
    ensures ParseStmts(PrintStmts(ss) + [TRBrace] + more) == Got(ss, more)
    decreases ss, 0
  {
    hide ParseStmt, PrintStmt, ConformsStmt;
    var ts := PrintStmts(ss) + [TRBrace] + more;
    if ss == [] {
      assert ts == [TRBrace] + more;
    } else {
      var rest := PrintStmts(ss[1..]) + [TRBrace] + more;
      assert ts == PrintStmt(ss[0]) + rest;
      StmtsStart(ss[1..], more);
      StmtStart(ss[0]);
      StmtParses(ss[0], rest);
      StmtsParse(ss[1..], more);
      assert [ss[0]] + ss[1..] == ss;
    }
  }

  lemma StmtStart(s: Stmt)
    requires ConformsStmt(s)
    ensures PrintStmt(s)[0] !in {TElse, TRBrace}
  {
    match s
    case ExprStmt(e) =>
      FirstToken(e);
      NoElse(e);
      assert PrintStmt(s)[0] == Print(e)[0];
    case _ =>
  }

  lemma {:induction false} NoElse(e: Expr)
    ensures Print(e)[0] != TElse
    decreases e
  {
    match e
    case Binary(_, l, _) => NoElse(l);
    case Call(f, _) => NoElse(f);
    case Assign(t, _) => NoElse(t);
    case Index(x, _) => NoElse(x);
    case _ =>
  }

  lemma StmtsStart(ss: seq<Stmt>, more: seq<Tok>)
    requires forall s | s in ss :: ConformsStmt(s)
    ensures !Starts(PrintStmts(ss) + [TRBrace] + more, TElse)
  {
    hide PrintStmt, ConformsStmt;
    if ss != [] {
      StmtStart(ss[0]);
    }
  }

  lemma {:induction false} IfParses(s: Stmt, more: seq<Tok>)
    requires s.If? && ConformsStmt(s) && !Starts(more, TElse)
    ensures ParseIf(PrintStmt(s) + more) == Got(s, more)
    decreases s, 0
  {
    hide Rule, Print, Conforms, ParseBlock, PrintBlock;
    var els := if s.else_.Some? then [TElse] + (PrintBlock(s.else_.value) + more) else more;
    var thn := PrintBlock(s.then_) + els;
    assert PrintStmt(s) + more == [TIf] + (Print(s.cond) + thn);
    BlockFirst(s.then_, els);
    Parses(EXPR, s.cond, thn);
    BlockParses(s.then_, els);
    hide PrintStmt, ParseIf;
    if s.else_.Some? {
      BlockParses(s.else_.value, more);
      ElseRule(Print(s.cond) + thn, s.cond, thn, s.then_, PrintBlock(s.else_.value) + more, s.else_.value, more);
    } else {
      NoElseRule(Print(s.cond) + thn, s.cond, thn, s.then_, more);
    }
  }

  lemma NoElseRule(ts: seq<Tok>, c: Expr, r1: seq<Tok>, thn: Block, more: seq<Tok>)
    requires Rule(EXPR, ts) == Got(c, r1) && ParseBlock(r1) == Got(thn, more) && !Starts(more, TElse)
    ensures ParseIf([TIf] + ts) == Got(If(c, thn, None), more)
  {
    hide Rule, ParseBlock;
    BehindFirst(TIf, ts);
  }

  lemma ElseRule(ts: seq<Tok>, c: Expr, r1: seq<Tok>, thn: Block, r2: seq<Tok>, els: Block, more: seq<Tok>)
    requires Rule(EXPR, ts) == Got(c, r1) && ParseBlock(r1) == Got(thn, [TElse] + r2) &&
             ParseBlock(r2) == Got(els, more)
    ensures ParseIf([TIf] + ts) == Got(If(c, thn, Some(els)), more)
  {
    hide Rule, ParseBlock;
    BehindFirst(TIf, ts);
    BehindFirst(TElse, r2);
  }

  lemma BlockFirst(b: Block, more: seq<Tok>)
    ensures Starts(PrintBlock(b) + more, TLBrace) && Stops(EXPR, PrintBlock(b) + more)
  {
    hide PrintStmts;
  }

  lemma {:induction false} WhileParses(s: Stmt, more: seq<Tok>)
    requires s.While? && ConformsStmt(s)
    ensures ParseWhile(PrintStmt(s) + more) == Got(s, more)
    decreases s, 0
  {
    hide Rule, Print, Conforms, ParseBlock, PrintBlock;
    var body := PrintBlock(s.body) + more;
    var ts := PrintStmt(s) + more;
    assert ts == [TWhile] + (Print(s.cond) + body);
    assert ts[1..] == Print(s.cond) + body;
    BlockFirst(s.body, more);
    Parses(EXPR, s.cond, body);
    BlockParses(s.body, more);
  }

  lemma BehindFirst(t: Tok, ts: seq<Tok>)
    ensures ([t] + ts)[0] == t && ([t] + ts)[1..] == ts
  {
  }

  lemma ForRule(ts: seq<Tok>, p: Param, r1: seq<Tok>, start: Expr, r2: seq<Tok>, cond: Expr, r3: seq<Tok>, update: Expr,
                r4: seq<Tok>, body: Block, r5: seq<Tok>)
    requires ParseParam(ts) == Got(p, [TAssign] + r1) && Rule(EXPR, r1) == Got(start, [TComma] + r2)
    requires Rule(EXPR, r2) == Got(cond, [TComma] + r3) && Rule(EXPR, r3) == Got(update, r4) &&
             ParseBlock(r4) == Got(body, r5)
    ensures ParseFor([TFor] + ts) == Got(For(p.ident, p.ty, start, cond, update, body, 0, 0), r5)
  {
    hide Rule, ParseBlock, ParseParam;
    BehindFirst(TFor, ts);
    BehindFirst(TAssign, r1);
    BehindFirst(TComma, r2);
    BehindFirst(TComma, r3);
  }

  lemma {:induction false} ForParses(s: Stmt, more: seq<Tok>)
    requires s.For? && ConformsStmt(s)
    ensures ParseFor(PrintStmt(s) + more) == Got(s, more)
    decreases s, 0
  {
    hide Rule, Print, Conforms, ParseBlock, PrintBlock, ParseParam, PrintParam, ParseFor;
    var p := Param(s.ident, s.ty);
    var body := PrintBlock(s.body) + more;
    var r3 := Print(s.update) + body;
    var r2 := Print(s.cond) + ([TComma] + r3);
    var r1 := Print(s.start) + ([TComma] + r2);
    assert PrintStmt(s) + more == [TFor] + (PrintParam(p) + ([TAssign] + r1));
    hide PrintStmt;
    ParamRoundTrip(p, [TAssign] + r1);
    Parses(EXPR, s.start, [TComma] + r2);
    Parses(EXPR, s.cond, [TComma] + r3);
    BlockFirst(s.body, more);
    Parses(EXPR, s.update, body);
    BlockParses(s.body, more);
    ForRule(PrintParam(p) + ([TAssign] + r1), p, r1, s.start, r2, s.cond, r3, s.update, body, s.body, more);
  }

  lemma ProcHead(x: string, signature: seq<Tok>, body: seq<Tok>, more: seq<Tok>)
    ensures var ts := [TProc, TIdent(x)] + signature + body + more;
            |ts| >= 2 && ts[0] == TProc && ts[1..][0] == TIdent(x) && ts[1..][1..] == signature + (body + more)
  {
  }

  lemma ProcDeclParses(d: Decl, more: seq<Tok>)
    requires d.ProcDecl? && ConformsDecl(d)
    ensures ParseDecl(PrintDecl(d) + more) == Got(d, more)
  {
    hide ParseSignature, PrintSignature, ParseBlock, PrintBlock, ParseParams, PrintParams, ConformsSignature,
      ConformsBlock;
    var ts, rest := PrintDecl(d) + more, (if d.body.Some? then PrintBlock(d.body.value) else [TSemicolon]) + more;
    ProcHead(d.name, PrintSignature(d.sig), if d.body.Some? then PrintBlock(d.body.value) else [TSemicolon], more);
    SignatureRoundTrip(d.sig, rest);
    if d.body.Some? {
      BlockFirst(d.body.value, more);
      BlockParses(d.body.value, more);
    } else {
      assert rest[1..] == more;
    }
  }

  lemma TableDeclParses(d: Decl, more: seq<Tok>)
    requires d.TableDecl? && ConformsDecl(d)
    ensures ParseDecl(PrintDecl(d) + more) == Got(d, more)
  {
    hide ParseSignature, ParseBlock, ParseParams, PrintParams;
    var ts, rest := PrintDecl(d) + more, PrintParams(d.fields) + [TRBrace] + more;
    assert ts == [TTable] + ([TIdent(d.name)] + ([TLBrace] + rest));
    assert ts[1..] == [TIdent(d.name)] + ([TLBrace] + rest);
    assert ts[1..][1..] == [TLBrace] + rest && ts[1..][1..][1..] == rest;
    ParamsRoundTrip(d.fields, TRBrace, 0, None, more);
  }

  lemma DeclParses(d: Decl, more: seq<Tok>)
    requires ConformsDecl(d)
    ensures ParseDecl(PrintDecl(d) + more) == Got(d, more)
  {
    match d
    case ProcDecl(_, _, _) => ProcDeclParses(d, more);
    case TableDecl(_, _) => TableDeclParses(d, more);
  }

  /** Printing a program and parsing it again gives it back. */
  lemma {:induction false} ProgramRoundTrip(ds: seq<Decl>)
    requires ConformsProgram(ds)
    ensures ParseProgram(PrintProgram(ds)) == Some(ds)
    decreases ds
  {
    hide ParseDecl, PrintDecl, ConformsDecl;
    if ds != [] {
      DeclParses(ds[0], PrintProgram(ds[1..]));
      ProgramRoundTrip(ds[1..]);
      assert [ds[0]] + ds[1..] == ds;
      DeclPrints(ds[0]);
    }
  }

  lemma DeclPrints(d: Decl)
    ensures PrintDecl(d) != []
  {
  }

  /** No two programs are written with the same tokens. */
  lemma PrintInjective(ds: seq<Decl>, es: seq<Decl>)
    requires ConformsProgram(ds) && ConformsProgram(es) && PrintProgram(ds) == PrintProgram(es)
    ensures ds == es
  {
    ProgramRoundTrip(ds);
    ProgramRoundTrip(es);
  }
}
