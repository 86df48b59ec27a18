/** Whatever the parser accepts it has built a conforming tree for, and the tree is written with the
    tokens it read, up to commas in lists and empty statements. */
module Soundness {
  import opened Types
  import opened Syntax
  import opened Tokens
  import opened Grammar
  import opened Printing
  import opened Tidying
  import opened RoundTrip

  /** The tokens up to `rest` read like the tokens a. */
  predicate Took(start: Place, ts: seq<Tok>, rest: seq<Tok>, a: seq<Tok>) {
    |rest| <= |ts| && ts[|ts| - |rest|..] == rest &&
    Tidy(start, ts[..|ts| - |rest|]) == Tidy(start, a) && After(start, ts[..|ts| - |rest|]) == After(start, a)
  }

  lemma TookThen(start: Place, ts: seq<Tok>, r1: seq<Tok>, a: seq<Tok>, r2: seq<Tok>, b: seq<Tok>)
    requires Took(start, ts, r1, a) && Took(After(start, a), r1, r2, b)
    ensures Took(start, ts, r2, a + b)
  {
    var p, q := ts[..|ts| - |r1|], r1[..|r1| - |r2|];
    assert ts == p + r1 && r1 == q + r2;
    assert ts == (p + q) + r2;
    assert ts[..|ts| - |r2|] == p + q;
    TidyConcat(start, p, q);
    TidyConcat(start, a, b);
  }

  lemma TookOne(start: Place, ts: seq<Tok>)
    requires ts != []
    ensures Took(start, ts, ts[1..], [ts[0]])
  {
    assert ts[..1] == [ts[0]];
  }

  lemma TookNothing(start: Place, ts: seq<Tok>)
    ensures Took(start, ts, ts, [])
  {
    assert ts[..0] == [];
  }

  lemma TookComma(start: Place, ts: seq<Tok>)
    requires start.InList()
    ensures Took(start, ts, SkipComma(ts), []) && Took(start, ts, SkipComma(ts), [TComma])
  {
    if Starts(ts, TComma) {
      assert ts[..1] == [TComma] && [TComma][1..] == [];
    } else {
      TookNothing(start, ts);
    }
  }

  lemma CommaInList(p: Place, last: bool)
    requires p.InList()
    ensures After(p, if last then [] else [TComma]) == p
  {
    AfterOne(p, TComma);
  }

  /** An item of a list and the comma that may follow it. */
  lemma ItemTaken(start: Place, ts: seq<Tok>, r: seq<Tok>, a: seq<Tok>, last: bool)
    requires start.InList() && Balanced(a) && Took(start, ts, r, a)
    ensures var b := a + if last then [] else [TComma];
            Took(start, ts, SkipComma(r), b) && After(start, b).InList()
  {
    hide Took, Balanced, Tidy, After;
    var c := if last then [] else [TComma];
    StillInList(start, a);
    CommaInList(After(start, a), last);
    TidyConcat(start, a, c);
    TookComma(After(start, a), r);
    TookThen(start, ts, r, a, SkipComma(r), c);
  }

  /** Behind an opening token of a list one is in the list. */
  lemma OpensList(p: Place, a: seq<Tok>, t: Tok)
    requires t == TLParen || t == TLBracket
    ensures After(p, a + [t]).InList()
  {
    TidyConcat(p, a, [t]);
    AfterOne(After(p, a), t);
  }

  /** The rule read the tokens a and then one of the given kind. */
  lemma TookThenOne(start: Place, ts: seq<Tok>, r: seq<Tok>, a: seq<Tok>, t: Tok)
    requires Took(start, ts, r, a) && Starts(r, t)
    ensures Took(start, ts, r[1..], a + [t])
  {
    hide Took;
    TookOne(After(start, a), r);
    TookThen(start, ts, r, a, r[1..], [t]);
  }

  lemma {:induction false} TypeSound(start: Place, ts: seq<Tok>)
    requires ParseType(ts).Got?
    ensures ConformsType(ParseType(ts).value) && Took(start, ts, ParseType(ts).rest, PrintType(ParseType(ts).value))
    decreases |ts|, 0
  {
    hide Took, ParseSignature, PrintSignature, After;
    TookOne(start, ts);
    match ts[0]
    case TAsterisk =>
      TypeSound(After(start, [TAsterisk]), ts[1..]);
      TookThen(start, ts, ts[1..], [TAsterisk], ParseType(ts).rest, PrintType(ParseType(ts[1..]).value));
    case TProc =>
      SignatureSound(After(start, [TProc]), ts[1..]);
      TookThen(start, ts, ts[1..], [TProc], ParseType(ts).rest, PrintSignature(ParseSignature(ts[1..]).value));
    case _ =>
  }

  lemma {:induction false} SignatureSound(start: Place, ts: seq<Tok>)
    requires ParseSignature(ts).Got?
    ensures ConformsSignature(ParseSignature(ts).value)
    ensures Took(start, ts, ParseSignature(ts).rest, PrintSignature(ParseSignature(ts).value))
    decreases |ts|, 1
  {
    hide Took, ParseType, PrintType, ParseParams, PrintParams, After;
    var s1 := After(start, [TLParen]);
    TookOne(start, ts);
    var params := ParseParams(ts[1..], TRParen, 0, Some(MAX_PARAM_COUNT));
    OpensList(start, [], TLParen);
    assert [] + [TLParen] == [TLParen];
    ParamsSound(s1, ts[1..], TRParen, 0, Some(MAX_PARAM_COUNT));
    var a := [TLParen] + (PrintParams(params.value) + [TRParen]);
    TookThen(start, ts, ts[1..], [TLParen], params.rest, PrintParams(params.value) + [TRParen]);
    var t := ParseType(params.rest);
    TypeSound(After(start, a), params.rest);
    TookThen(start, ts, params.rest, a, t.rest, PrintType(t.value));
    assert PrintSignature(ParseSignature(ts).value) == a + PrintType(t.value);
  }

  lemma {:induction false} ParamSound(start: Place, ts: seq<Tok>)
    requires ParseParam(ts).Got?
    ensures ConformsType(ParseParam(ts).value.ty) &&
            Took(start, ts, ParseParam(ts).rest, PrintParam(ParseParam(ts).value))
    decreases |ts|, 1
  {
    hide Took, ParseType, PrintType, After;
    TookOne(start, ts);
    TookThenOne(start, ts, ts[1..], [ts[0]], TColon);
    var t := ParseType(ts[1..][1..]);
    TypeSound(After(start, [ts[0]] + [TColon]), ts[1..][1..]);
    TookThen(start, ts, ts[1..][1..], [ts[0]] + [TColon], t.rest, PrintType(t.value));
    assert [ts[0]] + [TColon] == [ts[0], TColon];
  }

  lemma {:induction false} ParamsSound(start: Place, ts: seq<Tok>, closer: Tok, n: nat, limit: Option<nat>)
    requires ParseParams(ts, closer, n, limit).Got? && start.InList()
    ensures var r := ParseParams(ts, closer, n, limit);
            (forall p | p in r.value :: ConformsType(p.ty)) &&
              (limit.Some? && n < limit.value ==> n + |r.value| < limit.value) &&
            Took(start, ts, r.rest, PrintParams(r.value) + [closer])
    decreases |ts|, 2
  {
    hide Took, ParseParam, PrintParam, After, ConformsType;
    var r := ParseParams(ts, closer, n, limit);
    if Starts(ts, closer) {
      TookOne(start, ts);
      assert [] + [closer] == [closer];
    } else {
      var p := ParseParam(ts);
      var a := PrintParam(p.value);
      ParamSound(start, ts);
      var q := SkipComma(p.rest);
      var more := ParseParams(q, closer, n + 1, limit);
      var c := if more.value == [] then [] else [TComma];
      ParamBalanced(p.value);
      ItemTaken(start, ts, p.rest, a, more.value == []);
      ParamsSound(After(start, a + c), q, closer, n + 1, limit);
      TookThen(start, ts, q, a + c, more.rest, PrintParams(more.value) + [closer]);
      assert r.value[1..] == more.value;
      assert a + c + (PrintParams(more.value) + [closer]) == PrintParams(r.value) + [closer];
    }
  }

  /** An expression of rule k has been read. */
  predicate Sound(start: Place, k: nat, ts: seq<Tok>, r: Parse<Expr>) {
    r.Got? ==> Conforms(r.value) && Rank(r.value) <= k && Took(start, ts, r.rest, Print(r.value))
  }

  lemma {:induction false} RuleSound(start: Place, k: nat, ts: seq<Tok>)
    requires k <= EXPR
    ensures Sound(start, k, ts, Rule(k, ts))
    decreases |ts|, k, 1
  {
    if k == PRIMARY {
      PrimarySound(start, ts);
    } else if k == CALL {
      CallSound(start, ts);
    } else if k == INDEX {
      IndexSound(start, ts);
    } else if k == UNARY {
      UnarySound(start, ts);
    } else if k < ASSIGN {
      LevelSound(start, k, ts);
    } else if k == ASSIGN {
      AssignSound(start, ts);
    } else {
      ArraySound(start, ts);
    }
  }

  lemma {:induction false} PrimarySound(start: Place, ts: seq<Tok>)
    ensures Sound(start, PRIMARY, ts, Rule(PRIMARY, ts))
    decreases |ts|, 0, 0
  {
    hide Took, Items, Operands, After;
    assert Rule(PRIMARY, ts) == Primary(ts);
    if Primary(ts).Got? {
      TookOne(start, ts);
      if ts[0] == TLParen {
        var r := Rule(EXPR, ts[1..]);
        RuleSound(After(start, [TLParen]), EXPR, ts[1..]);
        TookThen(start, ts, ts[1..], [TLParen], r.rest, Print(r.value));
        TookThenOne(start, ts, r.rest, [TLParen] + Print(r.value), TRParen);
      }
    }
  }

  lemma {:induction false} CallSound(start: Place, ts: seq<Tok>)
    ensures Sound(start, CALL, ts, Rule(CALL, ts))
    decreases |ts|, CALL, 0
  {
    hide Took, Items, Operands, Primary, After, Print, Conforms, PrintItems;
    RuleSound(start, PRIMARY, ts);
    var f := Rule(PRIMARY, ts);
    if f.Got? && Starts(f.rest, TLParen) {
      var a := Print(f.value) + [TLParen];
      TookThenOne(start, ts, f.rest, Print(f.value), TLParen);
      OpensList(start, Print(f.value), TLParen);
      ItemsSound(After(start, a), f.rest[1..], TRParen);
      var args := Items(f.rest[1..], TRParen);
      if args.Got? {
        TookThen(start, ts, f.rest[1..], a, args.rest, PrintItems(args.value) + [TRParen]);
        FormOfCall(f.value, args.value);
      }
    }
  }

  lemma FormOfCall(f: Expr, args: seq<Expr>)
    ensures Print(Call(f, args)) == Print(f) + [TLParen] + (PrintItems(args) + [TRParen])
    ensures Conforms(f) && Rank(f) == PRIMARY && (forall x | x in args :: Conforms(x)) ==> Conforms(Call(f, args))
  {
  }

  lemma {:induction false} IndexSound(start: Place, ts: seq<Tok>)
    ensures Sound(start, INDEX, ts, Rule(INDEX, ts))
    decreases |ts|, INDEX, 0
  {
    hide Took, Items, Operands, Primary, After, Print, Conforms;
    RuleSound(start, CALL, ts);
    var x := Rule(CALL, ts);
    if x.Got? && Starts(x.rest, TLBracket) {
      var a := Print(x.value) + [TLBracket];
      TookThenOne(start, ts, x.rest, Print(x.value), TLBracket);
      RuleSound(After(start, a), EXPR, x.rest[1..]);
      var i := Rule(EXPR, x.rest[1..]);
      if i.Got? && Starts(i.rest, TRBracket) {
        TookThen(start, ts, x.rest[1..], a, i.rest, Print(i.value));
        TookThenOne(start, ts, i.rest, a + Print(i.value), TRBracket);
        FormOfIndex(x.value, i.value);
      }
    }
  }

  lemma FormOfIndex(x: Expr, i: Expr)
    ensures Print(Index(x, i)) == Print(x) + [TLBracket] + Print(i) + [TRBracket]
    ensures Conforms(x) && Rank(x) <= CALL && Conforms(i) ==> Conforms(Index(x, i))
  {
  }

  lemma {:induction false} UnarySound(start: Place, ts: seq<Tok>)
    ensures Sound(start, UNARY, ts, Rule(UNARY, ts))
    decreases |ts|, UNARY, 0
  {
    hide Took, Items, Operands, Primary, After;
    if StartsUnary(ts) {
      TookOne(start, ts);
      RuleSound(After(start, [ts[0]]), INDEX, ts[1..]);
      var e := Rule(INDEX, ts[1..]);
      if e.Got? {
        TookThen(start, ts, ts[1..], [ts[0]], e.rest, Print(e.value));
      }
    } else {
      RuleSound(start, INDEX, ts);
    }
  }

  lemma {:induction false} LevelSound(start: Place, k: nat, ts: seq<Tok>)
    requires UNARY < k < ASSIGN
    ensures Sound(start, k, ts, Rule(k, ts))
    decreases |ts|, k, 0
  {
    hide Took, Items, Operands, Primary, Print, Conforms;
    RuleSound(start, k - 1, ts);
    var e := Rule(k - 1, ts);
    if e.Got? {
      OperandsSound(start, k, ts, e.value, e.rest);
    }
  }

  lemma {:induction false} OperandsSound(start: Place, k: nat, all: seq<Tok>, lhs: Expr, ts: seq<Tok>)
    requires UNARY < k < ASSIGN && Conforms(lhs) && Rank(lhs) <= k && Took(start, all, ts, Print(lhs))
    ensures Sound(start, k, all, Operands(k, lhs, ts))
    decreases |ts|, EXPR + 1, 0
  {
    hide Took, Items, Rule, Primary, After, Print, Conforms;
    if StartsLevel(ts, k - UNARY) {
      var op := BinaryOperator(ts[0]).value;
      var a := Print(lhs) + [ts[0]];
      TookThenOne(start, all, ts, Print(lhs), ts[0]);
      RuleSound(After(start, a), k - 1, ts[1..]);
      var rhs := Rule(k - 1, ts[1..]);
      if rhs.Got? {
        TookThen(start, all, ts[1..], a, rhs.rest, Print(rhs.value));
        FormOfBinary(op, lhs, rhs.value, ts[0]);
        OperandsSound(start, k, all, Binary(op, lhs, rhs.value), rhs.rest);
      }
    }
  }

  lemma TokenOfOperator(t: Tok)
    requires BinaryOperator(t).Some?
    ensures BinaryToken(BinaryOperator(t).value) == t
  {
  }

  lemma FormOfBinary(op: BinOp, l: Expr, r: Expr, t: Tok)
    requires BinaryOperator(t) == Some(op)
    ensures Print(Binary(op, l, r)) == Print(l) + [t] + Print(r)
    ensures Conforms(l) && Rank(l) <= UNARY + Level(op) && Conforms(r) && Rank(r) < UNARY + Level(op) ==>
            Conforms(Binary(op, l, r))
  {
    hide BinaryToken, BinaryOperator, Rank, Level;
    TokenOfOperator(t);
  }

  lemma {:induction false} AssignSound(start: Place, ts: seq<Tok>)
    ensures Sound(start, ASSIGN, ts, Rule(ASSIGN, ts))
    decreases |ts|, ASSIGN, 0
  {
    hide Took, Items, Operands, Primary, After, Print, Conforms;
    RuleSound(start, ASSIGN - 1, ts);
    var t := Rule(ASSIGN - 1, ts);
    if t.Got? && Starts(t.rest, TAssign) {
      var a := Print(t.value) + [TAssign];
      TookThenOne(start, ts, t.rest, Print(t.value), TAssign);
      RuleSound(After(start, a), ASSIGN, t.rest[1..]);
      var v := Rule(ASSIGN, t.rest[1..]);
      if v.Got? {
        TookThen(start, ts, t.rest[1..], a, v.rest, Print(v.value));
        FormOfAssign(t.value, v.value);
      }
    }
  }

  lemma FormOfAssign(t: Expr, v: Expr)
    ensures Print(Assign(t, v)) == Print(t) + [TAssign] + Print(v)
    ensures Conforms(t) && Rank(t) < ASSIGN && Conforms(v) && Rank(v) <= ASSIGN ==> Conforms(Assign(t, v))
  {
  }

  lemma {:induction false} ArraySound(start: Place, ts: seq<Tok>)
    ensures Sound(start, EXPR, ts, Rule(EXPR, ts))
    decreases |ts|, EXPR, 0
  {
    hide Took, Items, Operands, Primary, After, PrintItems, PrintType, ConformsType;
    if Starts(ts, TLBracket) {
      TookOne(start, ts);
      OpensList(start, [], TLBracket);
      assert [] + [TLBracket] == [TLBracket];
      ItemsSound(After(start, [TLBracket]), ts[1..], TRBracket);
      var vs := Items(ts[1..], TRBracket);
      if vs.Got? && ParseType(vs.rest).Got? {
        var a := [TLBracket] + (PrintItems(vs.value) + [TRBracket]);
        var t := ParseType(vs.rest);
        TookThen(start, ts, ts[1..], [TLBracket], vs.rest, PrintItems(vs.value) + [TRBracket]);
        TypeSound(After(start, a), vs.rest);
        TookThen(start, ts, vs.rest, a, t.rest, PrintType(t.value));
        assert Print(Array(vs.value, t.value, 0)) == a + PrintType(t.value);
      }
    } else {
      RuleSound(start, ASSIGN, ts);
    }
  }

  lemma ItemsPrinted(e: Expr, es: seq<Expr>, closer: Tok)
    ensures Print(e) + (if es == [] then [] else [TComma]) + (PrintItems(es) + [closer]) ==
            PrintItems([e] + es) + [closer]
  {
    hide Print;
    assert ([e] + es)[1..] == es;
  }

  lemma {:induction false} ItemsSound(start: Place, ts: seq<Tok>, closer: Tok)
    requires start.InList()
    ensures var r := Items(ts, closer);
            r.Got? ==>
              (forall x | x in r.value :: Conforms(x)) &&
              Took(start, ts, r.rest, PrintItems(r.value) + [closer])
    decreases |ts|, EXPR + 1, 0
  {
    hide Took, Rule, Print, After, Conforms;
    var r := Items(ts, closer);
    if Starts(ts, closer) {
      TookOne(start, ts);
      assert [] + [closer] == [closer];
    } else if r.Got? {
      hide PrintItems;
      var e := Rule(EXPR, ts);
      RuleSound(start, EXPR, ts);
      var a, q := Print(e.value), SkipComma(e.rest);
      var more := Items(q, closer);
      var c := if more.value == [] then [] else [TComma];
      ExprBalanced(e.value);
      ItemTaken(start, ts, e.rest, a, more.value == []);
      ItemsSound(After(start, a + c), q, closer);
      TookThen(start, ts, q, a + c, more.rest, PrintItems(more.value) + [closer]);
      ItemsPrinted(e.value, more.value, closer);
    }
  }

  /** Behind a brace or a semicolon a statement may begin. */
  lemma AfterEnd(start: Place, a: seq<Tok>, t: Tok)
    requires t == TLBrace || t == TRBrace || t == TSemicolon
    ensures After(start, a + [t]).start
  {
    TidyConcat(start, a, [t]);
    AfterOne(After(start, a), t);
  }

  lemma OptionSound(start: Place, ts: seq<Tok>)
    ensures var r := ParseOption(ts);
            r.Got? ==> ConformsOption(r.value) && Took(start, ts, r.rest, PrintOption(r.value))
  {
    hide Took, Rule, Print, Conforms;
    TookNothing(start, ts);
    RuleSound(start, EXPR, ts);
  }

  lemma DeclPrinted(s: Stmt)
    requires s.VarDecl?
    ensures var a := [TLet] + PrintParam(Param(s.ident, s.ty));
            PrintStmt(s) == if s.init.None? then a + [TSemicolon]
                      else a + ([TAssign] + Print(s.init.value)) + [TSemicolon]
  {
    hide Print, PrintParam;
    var a := [TLet] + PrintParam(Param(s.ident, s.ty));
    assert a + [] == a;
  }

  lemma VarDeclSound(start: Place, ts: seq<Tok>)
    ensures var r := ParseVarDecl(ts);
            r.Got? ==>
              ConformsStmt(r.value) && Took(start, ts, r.rest, PrintStmt(r.value)) &&
              After(start, PrintStmt(r.value)).start
  {
    hide Took, Rule, Print, Conforms, ParseParam, PrintParam, After, PrintStmt, ConformsType;
    var r := ParseVarDecl(ts);
    if r.Got? {
      var p := ParseParam(ts[1..]);
      TookOne(start, ts);
      ParamSound(After(start, [TLet]), ts[1..]);
      TookThen(start, ts, ts[1..], [TLet], p.rest, PrintParam(p.value));
      var a := [TLet] + PrintParam(p.value);
      if Starts(p.rest, TSemicolon) {
        TookThenOne(start, ts, p.rest, a, TSemicolon);
        AfterEnd(start, a, TSemicolon);
        DeclPrinted(r.value);
        assert [] + [TSemicolon] == [TSemicolon];
      } else {
        TookThenOne(start, ts, p.rest, a, TAssign);
        var b := a + [TAssign];
        RuleSound(After(start, b), EXPR, p.rest[1..]);
        var e := Rule(EXPR, p.rest[1..]);
        TookThen(start, ts, p.rest[1..], b, e.rest, Print(e.value));
        TookThenOne(start, ts, e.rest, b + Print(e.value), TSemicolon);
        AfterEnd(start, b + Print(e.value), TSemicolon);
        DeclPrinted(r.value);
        assert b + Print(e.value) + [TSemicolon] == a + ([TAssign] + Print(e.value)) + [TSemicolon];
      }
    }
  }

  /** A statement has been read, or an empty one where a statement may begin. */
  predicate StmtRead(start: Place, ts: seq<Tok>, r: Parse<Option<Stmt>>) {
    r.Got? ==>
      if r.value.Some? then
        ConformsStmt(r.value.value) && Took(start, ts, r.rest, PrintStmt(r.value.value)) &&
        After(start, PrintStmt(r.value.value)).start
      else Took(start, ts, r.rest, [])
  }

  lemma ExprStmtSound(start: Place, ts: seq<Tok>)
    requires start.start
    requires ts != [] ==> ts[0] !in {TLBrace, TLet, TIf, TWhile, TFor, TReturn}
    ensures StmtRead(start, ts, ParseStmt(ts))
  {
    hide Took, ParseOption, Print, Conforms, ParseBlock, ParseVarDecl, ParseIf, ParseWhile, ParseFor, After;
    OptionSound(start, ts);
    var e := ParseOption(ts);
    if e.Got? && Starts(e.rest, TSemicolon) {
      if e.value.Some? {
        TookThenOne(start, ts, e.rest, PrintOption(e.value), TSemicolon);
        AfterEnd(start, PrintOption(e.value), TSemicolon);
      } else {
        EmptySound(start, ts);
      }
    }
  }

  lemma EmptySound(start: Place, ts: seq<Tok>)
    requires start.start
    requires ParseOption(ts).Got? && ParseOption(ts).value.None?
    ensures Took(start, ts, ts[1..], []) && ParseOption(ts).rest == ts
  {
    hide Rule;
    assert ts[..1] == [TSemicolon];
    AfterOne(start, TSemicolon);
  }

  lemma ReturnSound(start: Place, ts: seq<Tok>)
    requires start.start
    requires Starts(ts, TReturn)
    ensures StmtRead(start, ts, ParseStmt(ts))
  {
    hide Took, ParseOption, PrintOption, ConformsOption, ParseBlock, ParseVarDecl, ParseIf, ParseWhile, ParseFor, After;
    TookOne(start, ts);
    OptionSound(After(start, [TReturn]), ts[1..]);
    var e := ParseOption(ts[1..]);
    if e.Got? && Starts(e.rest, TSemicolon) {
      var a := [TReturn] + PrintOption(e.value);
      TookThen(start, ts, ts[1..], [TReturn], e.rest, PrintOption(e.value));
      TookThenOne(start, ts, e.rest, a, TSemicolon);
      AfterEnd(start, a, TSemicolon);
      assert PrintStmt(Return(e.value)) == a + [TSemicolon];
    }
  }

  lemma {:induction false} StmtSound(start: Place, ts: seq<Tok>)
    requires start.start
    ensures StmtRead(start, ts, ParseStmt(ts))
    decreases |ts|, 2
  {
    hide Took, ParseOption, Print, Conforms, ParseBlock, ParseVarDecl, ParseIf, ParseWhile, ParseFor, After, PrintStmt,
      ConformsStmt;
    if Starts(ts, TLBrace) {
      BlockSound(start, ts);
      BlockIsStmt();
    } else if Starts(ts, TLet) {
      VarDeclSound(start, ts);
    } else if Starts(ts, TIf) {
      IfSound(start, ts);
    } else if Starts(ts, TWhile) {
      WhileSound(start, ts);
    } else if Starts(ts, TFor) {
      ForSound(start, ts);
    } else if Starts(ts, TReturn) {
      ReturnSound(start, ts);
    } else {
      ExprStmtSound(start, ts);
    }
  }

  lemma BlockIsStmt()
    ensures forall b :: PrintStmt(BlockStmt(b)) == PrintBlock(b) && (ConformsBlock(b) ==> ConformsStmt(BlockStmt(b)))
  {
  }

  lemma {:induction false} BlockSound(start: Place, ts: seq<Tok>)
    ensures var r := ParseBlock(ts);
            r.Got? ==>
              ConformsBlock(r.value) && Took(start, ts, r.rest, PrintBlock(r.value)) &&
              After(start, PrintBlock(r.value)).start
    decreases |ts|, 0
  {
    hide Took, ParseStmts, PrintStmts, After, ConformsStmt;
    var r := ParseBlock(ts);
    if r.Got? {
      var ss := ParseStmts(ts[1..]);
      TookOne(start, ts);
      AfterEnd(start, [], TLBrace);
      assert [] + [TLBrace] == [TLBrace];
      StmtsSound(After(start, [TLBrace]), ts[1..]);
      TookThen(start, ts, ts[1..], [TLBrace], ss.rest, PrintStmts(ss.value) + [TRBrace]);
      AfterEnd(start, [TLBrace] + PrintStmts(ss.value), TRBrace);
      assert [TLBrace] + (PrintStmts(ss.value) + [TRBrace]) == PrintBlock(r.value);
    }
  }

  lemma {:induction false} StmtsSound(start: Place, ts: seq<Tok>)
    requires start.start
    ensures var r := ParseStmts(ts);
            r.Got? ==>
              (forall s | s in r.value :: ConformsStmt(s)) &&
              Took(start, ts, r.rest, PrintStmts(r.value) + [TRBrace])
    decreases |ts|, 3
  {
    hide Took, ParseStmt, PrintStmt, After, ConformsStmt;
    var r := ParseStmts(ts);
    if Starts(ts, TRBrace) {
      TookOne(start, ts);
      assert [] + [TRBrace] == [TRBrace];
    } else if r.Got? {
      var s := ParseStmt(ts);
      var more := ParseStmts(s.rest);
      StmtSound(start, ts);
      if s.value.Some? {
        var a := PrintStmt(s.value.value);
        StmtsSound(After(start, a), s.rest);
        TookThen(start, ts, s.rest, a, more.rest, PrintStmts(more.value) + [TRBrace]);
        assert r.value[1..] == more.value;
        assert a + (PrintStmts(more.value) + [TRBrace]) == PrintStmts(r.value) + [TRBrace];
      } else {
        AfterNothing(start);
        StmtsSound(start, s.rest);
        TookThen(start, ts, s.rest, [], more.rest, PrintStmts(more.value) + [TRBrace]);
        assert [] + (PrintStmts(more.value) + [TRBrace]) == PrintStmts(r.value) + [TRBrace];
      }
    }
  }

  lemma AfterNothing(start: Place)
    ensures After(start, []) == start
  {
  }

  lemma {:induction false} IfSound(start: Place, ts: seq<Tok>)
    requires start.start
    ensures var r := ParseIf(ts);
            r.Got? ==>
              ConformsStmt(r.value) && Took(start, ts, r.rest, PrintStmt(r.value)) &&
              After(start, PrintStmt(r.value)).start
    decreases |ts|, 1
  {
    hide Took, Rule, Print, Conforms, ParseBlock, PrintBlock, After, ConformsBlock;
    var r := ParseIf(ts);
    if r.Got? {
      var cond := Rule(EXPR, ts[1..]);
      var thn := ParseBlock(cond.rest);
      TookOne(start, ts);
      RuleSound(After(start, [TIf]), EXPR, ts[1..]);
      TookThen(start, ts, ts[1..], [TIf], cond.rest, Print(cond.value));
      var a := [TIf] + Print(cond.value);
      BlockSound(After(start, a), cond.rest);
      TookThen(start, ts, cond.rest, a, thn.rest, PrintBlock(thn.value));
      var b := a + PrintBlock(thn.value);
      AfterBlock(start, a, thn.value);
      if Starts(thn.rest, TElse) {
        var els := ParseBlock(thn.rest[1..]);
        TookThenOne(start, ts, thn.rest, b, TElse);
        BlockSound(After(start, b + [TElse]), thn.rest[1..]);
        TookThen(start, ts, thn.rest[1..], b + [TElse], els.rest, PrintBlock(els.value));
        AfterBlock(start, b + [TElse], els.value);
        assert PrintStmt(r.value) == b + [TElse] + PrintBlock(els.value);
      } else {
        assert PrintStmt(r.value) == b;
      }
    }
  }

  lemma AfterBlock(start: Place, a: seq<Tok>, b: Block)
    ensures After(start, a + PrintBlock(b)).start
  {
    hide After;
    AfterEnd(start, a + ([TLBrace] + PrintStmts(b.stmts)), TRBrace);
    assert a + ([TLBrace] + PrintStmts(b.stmts)) + [TRBrace] == a + PrintBlock(b);
  }

  lemma {:induction false} WhileSound(start: Place, ts: seq<Tok>)
    requires start.start
    ensures var r := ParseWhile(ts);
            r.Got? ==>
              ConformsStmt(r.value) && Took(start, ts, r.rest, PrintStmt(r.value)) &&
              After(start, PrintStmt(r.value)).start
    decreases |ts|, 1
  {
    hide Took, Rule, Print, Conforms, ParseBlock, PrintBlock, After, ConformsBlock;
    var r := ParseWhile(ts);
    if r.Got? {
      var cond := Rule(EXPR, ts[1..]);
      var body := ParseBlock(cond.rest);
      TookOne(start, ts);
      RuleSound(After(start, [TWhile]), EXPR, ts[1..]);
      TookThen(start, ts, ts[1..], [TWhile], cond.rest, Print(cond.value));
      var a := [TWhile] + Print(cond.value);
      BlockSound(After(start, a), cond.rest);
      TookThen(start, ts, cond.rest, a, body.rest, PrintBlock(body.value));
      AfterBlock(start, a, body.value);
    }
  }

  lemma {:induction false} ForSound(start: Place, ts: seq<Tok>)
    requires start.start
    ensures var r := ParseFor(ts);
            r.Got? ==>
              ConformsStmt(r.value) && Took(start, ts, r.rest, PrintStmt(r.value)) &&
              After(start, PrintStmt(r.value)).start
    decreases |ts|, 1
  {
    hide Took, Rule, Print, Conforms, ParseBlock, PrintBlock, After, ConformsBlock, ParseParam, PrintParam;
    var r := ParseFor(ts);
    if r.Got? {
      var p := ParseParam(ts[1..]);
      TookOne(start, ts);
      ParamSound(After(start, [TFor]), ts[1..]);
      TookThen(start, ts, ts[1..], [TFor], p.rest, PrintParam(p.value));
      var a := [TFor] + PrintParam(p.value);
      TookThenOne(start, ts, p.rest, a, TAssign);
      var b := a + [TAssign];
      var first := Rule(EXPR, p.rest[1..]);
      HeaderSound(start, ts, p.rest[1..], b);
      TookThenOne(start, ts, first.rest, b + Print(first.value), TComma);
      var c := b + Print(first.value) + [TComma];
      var cond := Rule(EXPR, first.rest[1..]);
      HeaderSound(start, ts, first.rest[1..], c);
      TookThenOne(start, ts, cond.rest, c + Print(cond.value), TComma);
      var d := c + Print(cond.value) + [TComma];
      var update := Rule(EXPR, cond.rest[1..]);
      HeaderSound(start, ts, cond.rest[1..], d);
      var e := d + Print(update.value);
      BlockSound(After(start, e), update.rest);
      var body := ParseBlock(update.rest);
      TookThen(start, ts, update.rest, e, body.rest, PrintBlock(body.value));
      AfterBlock(start, e, body.value);
      assert PrintStmt(r.value) == e + PrintBlock(body.value);
    }
  }

  lemma HeaderSound(start: Place, all: seq<Tok>, ts: seq<Tok>, a: seq<Tok>)
    requires Took(start, all, ts, a)
    ensures Sound(After(start, a), EXPR, ts, Rule(EXPR, ts))
    ensures Rule(EXPR, ts).Got? ==> Took(start, all, Rule(EXPR, ts).rest, a + Print(Rule(EXPR, ts).value))
  {
    hide Took, Rule, Print, Conforms, After;
    RuleSound(After(start, a), EXPR, ts);
    var e := Rule(EXPR, ts);
    if e.Got? {
      TookThen(start, all, ts, a, e.rest, Print(e.value));
    }
  }

  lemma ProcDeclSound(start: Place, ts: seq<Tok>)
    requires Starts(ts, TProc)
    ensures var r := ParseDecl(ts); r.Got? ==> ConformsDecl(r.value) && Took(start, ts, r.rest, PrintDecl(r.value))
  {
    hide Took, ParseSignature, PrintSignature, ConformsSignature, ParseBlock, PrintBlock, ConformsBlock, After,
      ParseParams;
    var r := ParseDecl(ts);
    if r.Got? {
      var x := ts[1];
      var sig := ParseSignature(ts[1..][1..]);
      TookOne(start, ts);
      TookThenOne(start, ts, ts[1..], [TProc], x);
      var a := [TProc] + [x];
      SignatureSound(After(start, a), ts[1..][1..]);
      TookThen(start, ts, ts[1..][1..], a, sig.rest, PrintSignature(sig.value));
      var b := a + PrintSignature(sig.value);
      if Starts(sig.rest, TSemicolon) {
        TookThenOne(start, ts, sig.rest, b, TSemicolon);
        assert PrintDecl(r.value) == b + [TSemicolon];
      } else {
        var body := ParseBlock(sig.rest);
        BlockSound(After(start, b), sig.rest);
        TookThen(start, ts, sig.rest, b, body.rest, PrintBlock(body.value));
        assert PrintDecl(r.value) == b + PrintBlock(body.value);
      }
    }
  }

  lemma InTable(start: Place, x: Tok)
    requires x.TIdent?
    ensures After(start, [TTable] + [x] + [TLBrace]).InList()
  {
    TidyConcat(start, [TTable] + [x], [TLBrace]);
    TidyConcat(start, [TTable], [x]);
    AfterOne(start, TTable);
    AfterOne(start.Next(TTable), x);
    AfterOne(start.Next(TTable).Next(x), TLBrace);
  }

  lemma TableDeclSound(start: Place, ts: seq<Tok>)
    requires Starts(ts, TTable)
    ensures var r := ParseDecl(ts); r.Got? ==> ConformsDecl(r.value) && Took(start, ts, r.rest, PrintDecl(r.value))
  {
    hide Took, ParseParams, PrintParams, After, ConformsType;
    var r := ParseDecl(ts);
    if r.Got? {
      var x, inside := ts[1], ts[1..][1..][1..];
      TookOne(start, ts);
      TookThenOne(start, ts, ts[1..], [TTable], x);
      TookThenOne(start, ts, ts[1..][1..], [TTable] + [x], TLBrace);
      var a := [TTable] + [x] + [TLBrace];
      InTable(start, x);
      ParamsSound(After(start, a), inside, TRBrace, 0, None);
      TookThen(start, ts, inside, a, r.rest, PrintParams(r.value.fields) + [TRBrace]);
      assert PrintDecl(r.value) == a + (PrintParams(r.value.fields) + [TRBrace]);
    }
  }

  lemma {:induction false} ProgramTaken(start: Place, ts: seq<Tok>)
    ensures var r := ParseProgram(ts);
            r.Some? ==> ConformsProgram(r.value) && Took(start, ts, [], PrintProgram(r.value))
    decreases |ts|
  {
    hide Took, ParseDecl, PrintDecl, ConformsDecl, After;
    var r := ParseProgram(ts);
    if ts == [] {
      TookNothing(start, ts);
    } else if r.Some? {
      DeclSound(start, ts);
      var d := ParseDecl(ts);
      ProgramTaken(After(start, PrintDecl(d.value)), d.rest);
      assert r.value[1..] == ParseProgram(d.rest).value;
      TookThen(start, ts, d.rest, PrintDecl(d.value), [], PrintProgram(r.value[1..]));
    }
  }

  lemma DeclSound(start: Place, ts: seq<Tok>)
    ensures var r := ParseDecl(ts); r.Got? ==> ConformsDecl(r.value) && Took(start, ts, r.rest, PrintDecl(r.value))
  {
    if Starts(ts, TProc) {
      ProcDeclSound(start, ts);
    } else if Starts(ts, TTable) {
      TableDeclSound(start, ts);
    }
  }

  /** An accepted program conforms, and is written like what was read, up to commas and empty statements. */
  lemma ProgramSound(ts: seq<Tok>)
    ensures var r := ParseProgram(ts);
            r.Some? ==> ConformsProgram(r.value) && Tidy(BEGINNING, ts) == Tidy(BEGINNING, PrintProgram(r.value))
  {
    hide ParseProgram, PrintProgram, Tidy;
    ProgramTaken(BEGINNING, ts);
    assert ts[..|ts|] == ts;
  }

  /** Every accepted program has a normal way of writing it, which is accepted with the same meaning. */
  lemma NormalForm(ts: seq<Tok>)
    ensures var r := ParseProgram(ts); r.Some? ==> ParseProgram(PrintProgram(r.value)) == r
  {
    hide ParseProgram, PrintProgram, Tidy, ConformsProgram;
    ProgramSound(ts);
    if ParseProgram(ts).Some? {
      ProgramRoundTrip(ParseProgram(ts).value);
    }
  }

  /** The calls `f(a, -b)` and `f(a - b)`. */
  function TwoArguments(f: string, a: string, b: string): Expr {
    Call(Ident(f), [Ident(a), Unary(Minus, Ident(b))])
  }

  function OneArgument(f: string, a: string, b: string): Expr {
    Call(Ident(f), [Binary(Sub, Ident(a), Ident(b))])
  }

  lemma TwoArgumentsPrinted(f: string, a: string, b: string)
    ensures Conforms(TwoArguments(f, a, b))
    ensures Print(TwoArguments(f, a, b)) == [TIdent(f), TLParen, TIdent(a)] + ([TComma] + [TMinus, TIdent(b), TRParen])
  {
    var x, y := Ident(a), Unary(Minus, Ident(b));
    assert Conforms(x) && Conforms(Ident(b)) && Conforms(y) && Conforms(Ident(f));
    assert [x, y][1..] == [y];
    assert Print(y) == [TMinus, TIdent(b)];
    assert PrintItems([x, y]) == [TIdent(a)] + [TComma] + Print(y);
  }

  lemma OneArgumentPrinted(f: string, a: string, b: string)
    ensures Conforms(OneArgument(f, a, b))
    ensures Print(OneArgument(f, a, b)) == [TIdent(f), TLParen, TIdent(a)] + [TMinus, TIdent(b), TRParen]
  {
    var x := Binary(Sub, Ident(a), Ident(b));
    assert Conforms(Ident(a)) && Conforms(Ident(b)) && Conforms(x) && Conforms(Ident(f));
    assert Print(x) == [TIdent(a), TMinus, TIdent(b)];
    assert PrintItems([x]) == Print(x);
  }

  /** Leaving out a comma is allowed but can change what is read. */
  lemma CommasMatter(f: string, a: string, b: string)
    ensures var two, one := TwoArguments(f, a, b), OneArgument(f, a, b);
            Rule(EXPR, Print(two)) == Got(two, []) && Rule(EXPR, Print(one)) == Got(one, []) &&
            Tidy(BEGINNING, Print(two)) == Tidy(BEGINNING, Print(one)) && one != two
  {
    hide Rule, Print, Conforms, Tidy;
    var two, one := TwoArguments(f, a, b), OneArgument(f, a, b);
    TwoArgumentsPrinted(f, a, b);
    OneArgumentPrinted(f, a, b);
    Parses(EXPR, two, []);
    Parses(EXPR, one, []);
    assert Print(two) + [] == Print(two) && Print(one) + [] == Print(one);
    var x, y := [TIdent(f), TLParen, TIdent(a)], [TMinus, TIdent(b), TRParen];
    TidyConcat(BEGINNING, x, y);
    TidyConcat(BEGINNING, x, [TComma] + y);
    InArguments(f, a);
    TidyComma(After(BEGINNING, x), y);
  }

  lemma InArguments(f: string, a: string)
    ensures After(BEGINNING, [TIdent(f), TLParen, TIdent(a)]).InList()
  {
    hide After, Tidy, Balanced;
    OpensList(BEGINNING, [TIdent(f)], TLParen);
    BalancedOne(TIdent(a));
    StillInList(After(BEGINNING, [TIdent(f)] + [TLParen]), [TIdent(a)]);
    TidyConcat(BEGINNING, [TIdent(f)] + [TLParen], [TIdent(a)]);
    assert [TIdent(f)] + [TLParen] + [TIdent(a)] == [TIdent(f), TLParen, TIdent(a)];
  }

  lemma TidyComma(start: Place, ts: seq<Tok>)
    requires start.InList()
    ensures Tidy(start, [TComma] + ts) == Tidy(start, ts)
  {
    assert ([TComma] + ts)[1..] == ts;
  }
}
