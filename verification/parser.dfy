/** The recursive-descent parser on its own state, the tokens it has not read. Its first error is
    the end of it. */
module Parsing {
  import opened Types
  import opened Syntax
  import opened Tokens
  import opened Grammar

  /** A rule of the parser has done what the grammar says. */
  predicate Agrees<T(==)>(r: Option<T>, rest: seq<Tok>, p: Parse<T>) {
    r.Some? == p.Got? && (p.Got? ==> r.value == p.value && rest == p.rest)
  }

  /** The result for the rest of a list, with the items that are there already in front. */
  function Before<T>(items: seq<T>, p: Parse<seq<T>>): Parse<seq<T>> {
    if p.Got? then Got(items + p.value, p.rest) else Fail
  }

  lemma BeforeFirst<T>(p: Parse<seq<T>>)
    ensures Before([], p) == p
  {
    if p.Got? {
      assert [] + p.value == p.value;
    }
  }

  lemma BeforeMore<T>(items: seq<T>, x: T, p: Parse<seq<T>>)
    ensures Before(items, Before([x], p)) == Before(items + [x], p)
  {
    if p.Got? {
      assert items + ([x] + p.value) == items + [x] + p.value;
    }
  }

  lemma BeforeLast<T>(items: seq<T>, rest: seq<Tok>)
    ensures Before(items, Got([], rest)) == Got(items, rest)
  {
    assert items + [] == items;
  }

  lemma BeforeFail<T>(items: seq<T>)
    ensures Before(items, Fail) == Fail
  {
  }

  lemma ParamsStep(ts: seq<Tok>, closer: Tok, n: nat, limit: Option<nat>)
    ensures var r, p := ParseParams(ts, closer, n, limit), ParseParam(ts);
            if Starts(ts, closer) then r == Got([], ts[1..])
            else if p.Fail? || (limit.Some? && n + 1 >= limit.value) then r == Fail
            else r == Before([p.value], ParseParams(SkipComma(p.rest), closer, n + 1, limit))
  {
    hide ParseParam;
  }

  /** The primary rule by the first token. */
  lemma PrimaryForms(ts: seq<Tok>)
    ensures var r := Rule(PRIMARY, ts);
            if ts == [] then r == Fail
            else
              (ts[0].TNumber? ==> r == Got(Num(ts[0].kind, ts[0].value), ts[1..])) &&
              (ts[0].TIdent? ==> r == Got(Ident(ts[0].name), ts[1..])) &&
              (ts[0].TString? ==> r == Got(Str(ts[0].text), ts[1..])) &&
              (ts[0].TLParen? ==>
                 var q := Rule(EXPR, ts[1..]);
                 r == if q.Got? && Starts(q.rest, TRParen) then Got(Grouping(q.value), q.rest[1..]) else Fail) &&
              (!ts[0].TNumber? && !ts[0].TIdent? && !ts[0].TString? && !ts[0].TLParen? ==> r == Fail)
  {
    assert Rule(PRIMARY, ts) == Grammar.Primary(ts);
    hide Rule, Items, Operands;
  }

  class Parser {
    var rest: seq<Tok>

    constructor (tokens: seq<Tok>)
      ensures rest == tokens
    {
      rest := tokens;
    }

    method Advance() returns (t: Tok)
      requires rest != []
      modifies this
      ensures t == old(rest)[0] && rest == old(rest)[1..]
    {
      t := rest[0];
      rest := rest[1..];
    }

    method Consume(t: Tok) returns (ok: bool)
      modifies this
      ensures ok == Starts(old(rest), t) && rest == if ok then old(rest)[1..] else old(rest)
    {
      ok := Starts(rest, t);
      if ok {
        var _ := Advance();
      }
    }

    method ConsumeIdent() returns (x: Option<string>)
      modifies this
      ensures Agrees(x, rest, ExpectIdent(old(rest)))
    {
      x := None;
      if rest != [] && rest[0].TIdent? {
        var t := Advance();
        x := Some(t.name);
      }
    }

    method TypeRule() returns (t: Option<Type>)
      modifies this
      ensures Agrees(t, rest, ParseType(old(rest)))
      decreases |rest|, 0
    {
      t := None;
      if rest == [] {
        return;
      }
      match rest[0]
      case TAsterisk =>
        var _ := Advance();
        var p := TypeRule();
        if p.Some? {
          t := Some(Pointer(p.value));
        }
      case TProc =>
        var _ := Advance();
        var sig := SignatureRule();
        if sig.Some? {
          t := Some(Procedure(sig.value));
        }
      case TIdent(x) =>
        var _ := Advance();
        t := Some(Object(x));
      case TInt =>
        var _ := Advance();
        t := Some(Int);
      case TChar =>
        var _ := Advance();
        t := Some(Char);
      case TLong =>
        var _ := Advance();
        t := Some(Long);
      case TVoid =>
        var _ := Advance();
        t := Some(Void);
      case _ =>
    }

    method SignatureRule() returns (sig: Option<Signature>)
      modifies this
      ensures Agrees(sig, rest, ParseSignature(old(rest)))
      decreases |rest|, 1
    {
      sig := None;
      var ok := Consume(TLParen);
      if !ok {
        return;
      }
      var params := ParamList(TRParen, Some(MAX_PARAM_COUNT));
      if params.None? {
        return;
      }
      var ret := TypeRule();
      if ret.Some? {
        sig := Some(Signature(params.value, ret.value));
      }
    }

    method ParamRule() returns (p: Option<Param>)
      modifies this
      ensures Agrees(p, rest, ParseParam(old(rest)))
      decreases |rest|, 1
    {
      p := None;
      var x := ConsumeIdent();
      if x.None? {
        return;
      }
      var ok := Consume(TColon);
      if !ok {
        return;
      }
      var t := TypeRule();
      if t.Some? {
        p := Some(Param(x.value, t.value));
      }
    }

    method ParamList(closer: Tok, limit: Option<nat>) returns (ps: Option<seq<Param>>)
      modifies this
      ensures Agrees(ps, rest, ParseParams(old(rest), closer, 0, limit))
      decreases |rest|, 2
    {
      hide ParseParams, ParseParam, Before;
      ps := None;
      var params := [];
      BeforeFirst(ParseParams(rest, closer, 0, limit));
      while !Starts(rest, closer)
        invariant |rest| <= |old(rest)|
        invariant ParseParams(old(rest), closer, 0, limit) == Before(params, ParseParams(rest, closer, |params|, limit))
        decreases |rest|
      {
        ParamsStep(rest, closer, |params|, limit);
        BeforeFail(params);
        var p := ParamRule();
        if p.None? || (limit.Some? && |params| + 1 >= limit.value) {
          return;
        }
        var _ := Consume(TComma);
        BeforeMore(params, p.value, ParseParams(rest, closer, |params| + 1, limit));
        params := params + [p.value];
      }
      ParamsStep(rest, closer, |params|, limit);
      var _ := Consume(closer);
      BeforeLast(params, rest);
      ps := Some(params);
    }

    method Primary() returns (e: Option<Expr>)
      modifies this
      ensures Agrees(e, rest, Rule(PRIMARY, old(rest)))
      decreases |rest|, PRIMARY
    {
      hide Rule, Grammar.Primary, Items, Operands;
      PrimaryForms(rest);
      e := None;
      if rest == [] {
        return;
      }
      match rest[0]
      case TNumber(k, n) =>
        var _ := Advance();
        e := Some(Num(k, n));
      case TIdent(x) =>
        var _ := Advance();
        e := Some(Ident(x));
      case TString(s) =>
        var _ := Advance();
        e := Some(Str(s));
      case TLParen =>
        var _ := Advance();
        var inner := ExprRule();
        if inner.None? {
          return;
        }
        var ok := Consume(TRParen);
        if ok {
          e := Some(Grouping(inner.value));
        }
      case _ =>
    }

    method CallRule() returns (e: Option<Expr>)
      modifies this
      ensures Agrees(e, rest, Rule(CALL, old(rest)))
      decreases |rest|, CALL
    {
      hide Grammar.Primary, Items, Operands;
      e := Primary();
      if e.None? || !Starts(rest, TLParen) {
        return;
      }
      var _ := Advance();
      var args := ExprList(TRParen);
      e := if args.Some? then Some(Call(e.value, args.value)) else None;
    }

    method IndexRule() returns (e: Option<Expr>)
      modifies this
      ensures Agrees(e, rest, Rule(INDEX, old(rest)))
      decreases |rest|, INDEX
    {
      hide Grammar.Primary, Items, Operands;
      e := CallRule();
      if e.None? || !Starts(rest, TLBracket) {
        return;
      }
      var _ := Advance();
      var i := ExprRule();
      if i.None? {
        e := None;
        return;
      }
      var ok := Consume(TRBracket);
      e := if ok then Some(Index(e.value, i.value)) else None;
    }

    method UnaryRule() returns (e: Option<Expr>)
      modifies this
      ensures Agrees(e, rest, Rule(UNARY, old(rest)))
      decreases |rest|, UNARY, 0
    {
      hide Grammar.Primary, Items, Operands;
      if !StartsUnary(rest) {
        e := IndexRule();
        return;
      }
      var op := Advance();
      e := IndexRule();
      if e.Some? {
        e := Some(Unary(UnaryOperator(op).value, e.value));
      }
    }

    /** The levels of binary operators are one rule with different operators and operands. */
    method Binop(k: nat) returns (e: Option<Expr>)
      requires UNARY < k < ASSIGN
      modifies this
      ensures Agrees(e, rest, Rule(k, old(rest)))
      decreases |rest|, k, 0
    {
      hide Grammar.Primary, Items;
      e := Operand(k);
      if e.None? {
        return;
      }
      while StartsLevel(rest, k - UNARY)
        invariant |rest| < |old(rest)| && e.Some?
        invariant Rule(k, old(rest)) == Operands(k, e.value, rest)
        decreases |rest|
      {
        var op := Advance();
        var rhs := Operand(k);
        if rhs.None? {
          e := None;
          return;
        }
        e := Some(Binary(BinaryOperator(op).value, e.value, rhs.value));
      }
    }

    method Operand(k: nat) returns (e: Option<Expr>)
      requires UNARY < k < ASSIGN
      modifies this
      ensures Agrees(e, rest, Rule(k - 1, old(rest)))
      decreases |rest|, k - 1, 1
    {
      if k - 1 == UNARY {
        e := UnaryRule();
      } else {
        e := Binop(k - 1);
      }
    }

    method AssignRule() returns (e: Option<Expr>)
      modifies this
      ensures Agrees(e, rest, Rule(ASSIGN, old(rest)))
      decreases |rest|, ASSIGN
    {
      hide Grammar.Primary, Items, Operands;
      e := Binop(ASSIGN - 1);
      if e.None? || !Starts(rest, TAssign) {
        return;
      }
      var _ := Advance();
      var v := AssignRule();
      e := if v.Some? then Some(Assign(e.value, v.value)) else None;
    }

    method ExprRule() returns (e: Option<Expr>)
      modifies this
      ensures Agrees(e, rest, Rule(EXPR, old(rest)))
      decreases |rest|, EXPR
    {
      hide Grammar.Primary, Items, Operands, ParseType;
      if !Starts(rest, TLBracket) {
        e := AssignRule();
        return;
      }
      e := None;
      var _ := Advance();
      var vs := ExprList(TRBracket);
      if vs.None? {
        return;
      }
      var t := TypeRule();
      if t.Some? {
        e := Some(Array(vs.value, t.value, 0));
      }
    }

    method ExprList(closer: Tok) returns (es: Option<seq<Expr>>)
      modifies this
      ensures Agrees(es, rest, Items(old(rest), closer))
      decreases |rest|, EXPR + 1
    {
      hide Rule;
      es := None;
      var items := [];
      BeforeFirst(Items(rest, closer));
      while !Starts(rest, closer)
        invariant |rest| <= |old(rest)|
        invariant Items(old(rest), closer) == Before(items, Items(rest, closer))
        decreases |rest|
      {
        var e := ExprRule();
        if e.None? {
          return;
        }
        var _ := Consume(TComma);
        BeforeMore(items, e.value, Items(rest, closer));
        items := items + [e.value];
      }
      var _ := Consume(closer);
      BeforeLast(items, rest);
      es := Some(items);
    }

    method OptionRule() returns (e: Option<Option<Expr>>)
      modifies this
      ensures Agrees(e, rest, ParseOption(old(rest)))
    {
      hide Rule;
      if Starts(rest, TSemicolon) {
        e := Some(None);
      } else {
        var x := ExprRule();
        e := if x.Some? then Some(Some(x.value)) else None;
      }
    }

    method VarDeclRule() returns (s: Option<Stmt>)
      modifies this
      ensures Agrees(s, rest, ParseVarDecl(old(rest)))
    {
      hide Rule, ParseParam;
      s := None;
      var ok := Consume(TLet);
      if !ok {
        return;
      }
      var p := ParamRule();
      if p.None? {
        return;
      }
      var init := None;
      if !Starts(rest, TSemicolon) {
        ok := Consume(TAssign);
        if !ok {
          return;
        }
        init := ExprRule();
        if init.None? {
          return;
        }
      }
      ok := Consume(TSemicolon);
      if ok {
        s := Some(VarDecl(p.value.ident, p.value.ty, init, 0));
      }
    }

    method StmtRule() returns (s: Option<Option<Stmt>>)
      modifies this
      ensures Agrees(s, rest, ParseStmt(old(rest)))
      decreases |rest|, 2
    {
      hide ParseBlock, ParseVarDecl, ParseIf, ParseWhile, ParseFor, ParseOption;
      s := None;
      if Starts(rest, TLBrace) {
        var b := BlockRule();
        s := if b.Some? then Some(Some(BlockStmt(b.value))) else None;
      } else if Starts(rest, TLet) {
        var d := VarDeclRule();
        s := if d.Some? then Some(d) else None;
      } else if Starts(rest, TIf) {
        var i := IfRule();
        s := if i.Some? then Some(i) else None;
      } else if Starts(rest, TWhile) {
        var w := WhileRule();
        s := if w.Some? then Some(w) else None;
      } else if Starts(rest, TFor) {
        var f := ForRule();
        s := if f.Some? then Some(f) else None;
      } else if Starts(rest, TReturn) {
        var _ := Advance();
        var e := OptionRule();
        if e.Some? {
          var ok := Consume(TSemicolon);
          s := if ok then Some(Some(Return(e.value))) else None;
        }
      } else {
        var e := OptionRule();
        if e.Some? {
          var ok := Consume(TSemicolon);
          s := if !ok then None else Some(if e.value.Some? then Some(ExprStmt(e.value.value)) else None);
        }
      }
    }

    method IfRule() returns (s: Option<Stmt>)
      modifies this
      ensures Agrees(s, rest, ParseIf(old(rest)))
      decreases |rest|, 1
    {
      hide Rule, ParseBlock;
      s := None;
      var ok := Consume(TIf);
      if !ok {
        return;
      }
      var cond := ExprRule();
      if cond.None? {
        return;
      }
      var thn := BlockRule();
      if thn.None? {
        return;
      }
      var els := None;
      if Starts(rest, TElse) {
        var _ := Advance();
        els := BlockRule();
        if els.None? {
          return;
        }
      }
      s := Some(If(cond.value, thn.value, els));
    }

    method WhileRule() returns (s: Option<Stmt>)
      modifies this
      ensures Agrees(s, rest, ParseWhile(old(rest)))
      decreases |rest|, 1
    {
      hide Rule, ParseBlock;
      s := None;
      var ok := Consume(TWhile);
      if !ok {
        return;
      }
      var cond := ExprRule();
      if cond.None? {
        return;
      }
      var body := BlockRule();
      if body.Some? {
        s := Some(While(cond.value, body.value));
      }
    }

    method ForRule() returns (s: Option<Stmt>)
      modifies this
      ensures Agrees(s, rest, ParseFor(old(rest)))
      decreases |rest|, 1
    {
      hide Rule, ParseBlock, ParseParam;
      s := None;
      var ok := Consume(TFor);
      if !ok {
        return;
      }
      var p := ParamRule();
      if p.None? {
        return;
      }
      ok := Consume(TAssign);
      if !ok {
        return;
      }
      var start := ExprRule();
      if start.None? {
        return;
      }
      ok := Consume(TComma);
      if !ok {
        return;
      }
      var cond := ExprRule();
      if cond.None? {
        return;
      }
      ok := Consume(TComma);
      if !ok {
        return;
      }
      var update := ExprRule();
      if update.None? {
        return;
      }
      var body := BlockRule();
      if body.Some? {
        s := Some(For(p.value.ident, p.value.ty, start.value, cond.value, update.value, body.value, 0, 0));
      }
    }

    method BlockRule() returns (b: Option<Block>)
      modifies this
      ensures Agrees(b, rest, ParseBlock(old(rest)))
      decreases |rest|, 0
    {
      hide ParseStmt;
      b := None;
      var ok := Consume(TLBrace);
      if !ok {
        return;
      }
      ghost var inside := rest;
      var stmts := [];
      BeforeFirst(ParseStmts(rest));
      while !Starts(rest, TRBrace)
        invariant |rest| <= |inside| < |old(rest)|
        invariant ParseStmts(inside) == Before(stmts, ParseStmts(rest))
        decreases |rest|
      {
        var s := StmtRule();
        if s.None? {
          return;
        }
        if s.value.Some? {
          BeforeMore(stmts, s.value.value, ParseStmts(rest));
          stmts := stmts + [s.value.value];
        }
      }
      var _ := Advance();
      BeforeLast(stmts, rest);
      b := Some(Block(stmts, 0));
    }

    method DeclRule() returns (d: Option<Decl>)
      modifies this
      ensures Agrees(d, rest, ParseDecl(old(rest)))
    {
      hide ParseSignature, ParseBlock, ParseParams;
      d := None;
      if Starts(rest, TProc) {
        d := ProcRule();
      } else if Starts(rest, TTable) {
        d := TableRule();
      }
    }

    method ProcRule() returns (d: Option<Decl>)
      requires Starts(rest, TProc)
      modifies this
      ensures Agrees(d, rest, ParseDecl(old(rest)))
    {
      hide ParseSignature, ParseBlock;
      d := None;
      var _ := Advance();
      var x := ConsumeIdent();
      if x.None? {
        return;
      }
      var sig := SignatureRule();
      if sig.None? {
        return;
      }
      if Starts(rest, TSemicolon) {
        var _ := Advance();
        d := Some(ProcDecl(x.value, sig.value, None));
      } else {
        var b := BlockRule();
        d := if b.Some? then Some(ProcDecl(x.value, sig.value, b)) else None;
      }
    }

    method TableRule() returns (d: Option<Decl>)
      requires Starts(rest, TTable)
      modifies this
      ensures Agrees(d, rest, ParseDecl(old(rest)))
    {
      hide ParseParams;
      d := None;
      var _ := Advance();
      var x := ConsumeIdent();
      if x.None? {
        return;
      }
      var ok := Consume(TLBrace);
      if !ok {
        return;
      }
      var fields := ParamList(TRBrace, None);
      d := if fields.Some? then Some(TableDecl(x.value, fields.value)) else None;
    }

    method Program() returns (ds: Option<seq<Decl>>)
      modifies this
      ensures ds == ParseProgram(old(rest))
    {
      hide ParseDecl;
      ds := None;
      var decls := [];
      assert ParseProgram(rest).Some? ==> [] + ParseProgram(rest).value == ParseProgram(rest).value;
      while rest != []
        invariant |rest| <= |old(rest)|
        invariant var more := ParseProgram(rest);
                  ParseProgram(old(rest)) == if more.Some? then Some(decls + more.value) else None
        decreases |rest|
      {
        var d := DeclRule();
        if d.None? {
          return;
        }
        ghost var more := ParseProgram(rest);
        assert more.Some? ==> decls + ([d.value] + more.value) == decls + [d.value] + more.value;
        decls := decls + [d.value];
      }
      assert decls + [] == decls;
      ds := Some(decls);
    }
  }
}
