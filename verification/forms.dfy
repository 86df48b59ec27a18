/** What each construct looks like, said with its tokens: how the parts are written does not matter,
    as long as each of them is read by its own rule. */
module Forms {
  import opened Types
  import opened Syntax
  import opened Tokens
  import opened Grammar
  import opened Printing
  import opened RoundTrip

  /** A conditional needs braces, and takes an `else` block if there is one. */
  lemma IfForm(cond: Expr, thn: Block, els: Block, more: seq<Tok>)
    requires Conforms(cond) && ConformsBlock(thn) && ConformsBlock(els)
    ensures ParseStmt([TIf] + Print(cond) + PrintBlock(thn) + [TElse] + PrintBlock(els) + more) ==
              Got(Some(If(cond, thn, Some(els))), more)
    ensures !Starts(more, TElse) ==>
              ParseStmt([TIf] + Print(cond) + PrintBlock(thn) + more) == Got(Some(If(cond, thn, None)), more)
  {
    hide Print, Conforms, PrintBlock, ConformsBlock, ParseStmt;
    var head := [TIf] + Print(cond) + PrintBlock(thn);
    BothBranches(cond, thn, els, more);
    if !Starts(more, TElse) {
      StmtParses(If(cond, thn, None), more);
      assert PrintStmt(If(cond, thn, None)) == head + [];
      assert head + [] + more == head + more;
    }
  }

  /** Behind a whole conditional an `else` can no longer belong to it. */
  lemma BothBranches(cond: Expr, thn: Block, els: Block, more: seq<Tok>)
    requires Conforms(cond) && ConformsBlock(thn) && ConformsBlock(els)
    ensures ParseStmt([TIf] + Print(cond) + PrintBlock(thn) + [TElse] + PrintBlock(els) + more) ==
              Got(Some(If(cond, thn, Some(els))), more)
  {
    hide Print, Conforms, PrintBlock, ConformsBlock, ParseStmt, ParseIf, ParseBlock, Rule;
    var rest := [TElse] + (PrintBlock(els) + more);
    var behind := PrintBlock(thn) + rest;
    var ts := [TIf] + (Print(cond) + behind);
    assert [TIf] + Print(cond) + PrintBlock(thn) + [TElse] + PrintBlock(els) + more == ts;
    BlockFirst(thn, rest);
    Parses(EXPR, cond, behind);
    BlockParses(thn, rest);
    BlockParses(els, more);
    ElseRule(Print(cond) + behind, cond, behind, thn, PrintBlock(els) + more, els, more);
    Dispatched(ts, If(cond, thn, Some(els)), more);
  }

  /** Loops, with the three parts of a `for` between commas. */
  lemma LoopForms(x: string, ty: Type, start: Expr, cond: Expr, update: Expr, body: Block, more: seq<Tok>)
    requires Conforms(start) && Conforms(cond) && Conforms(update) && ConformsBlock(body) && ConformsType(ty)
    requires !Starts(more, TElse)
    ensures ParseStmt([TWhile] + Print(cond) + PrintBlock(body) + more) == Got(Some(While(cond, body)), more)
    ensures ParseStmt([TFor, TIdent(x), TColon] + PrintType(ty) + [TAssign] + Print(start) + [TComma] + Print(cond) +
                      [TComma] + Print(update) + PrintBlock(body) + more) ==
            Got(Some(For(x, ty, start, cond, update, body, 0, 0)), more)
  {
    hide Print, Conforms, PrintBlock, ConformsBlock, ParseStmt, PrintType, ConformsType;
    StmtParses(While(cond, body), more);
    StmtParses(For(x, ty, start, cond, update, body, 0, 0), more);
    assert [TFor] + ([TIdent(x), TColon] + PrintType(ty)) == [TFor, TIdent(x), TColon] + PrintType(ty);
  }

  /** Declarations, returns and other statements end with a semicolon. */
  lemma SimpleForms(x: string, ty: Type, e: Expr, more: seq<Tok>)
    requires Conforms(e) && ConformsType(ty) && !Starts(more, TElse)
    ensures ParseStmt([TLet, TIdent(x), TColon] + PrintType(ty) + [TSemicolon] + more) ==
              Got(Some(VarDecl(x, ty, None, 0)), more)
    ensures ParseStmt([TLet, TIdent(x), TColon] + PrintType(ty) + [TAssign] + Print(e) + [TSemicolon] + more) ==
              Got(Some(VarDecl(x, ty, Some(e), 0)), more)
    ensures ParseStmt([TReturn, TSemicolon] + more) == Got(Some(Return(None)), more)
    ensures ParseStmt([TReturn] + Print(e) + [TSemicolon] + more) == Got(Some(Return(Some(e))), more)
    ensures ParseStmt(Print(e) + [TSemicolon] + more) == Got(Some(ExprStmt(e)), more)
    ensures ParseStmt([TSemicolon] + more) == Got(None, more)
  {
    hide Print, Conforms, ParseStmt, PrintType, ConformsType;
    DeclarationForms(x, ty, e, more);
    StmtParses(Return(None), more);
    StmtParses(Return(Some(e)), more);
    StmtParses(ExprStmt(e), more);
    assert [TReturn] + [] + [TSemicolon] == [TReturn, TSemicolon];
    NothingRead(more);
  }

  lemma DeclarationForms(x: string, ty: Type, e: Expr, more: seq<Tok>)
    requires Conforms(e) && ConformsType(ty) && !Starts(more, TElse)
    ensures ParseStmt([TLet, TIdent(x), TColon] + PrintType(ty) + [TSemicolon] + more) ==
              Got(Some(VarDecl(x, ty, None, 0)), more)
    ensures ParseStmt([TLet, TIdent(x), TColon] + PrintType(ty) + [TAssign] + Print(e) + [TSemicolon] + more) ==
              Got(Some(VarDecl(x, ty, Some(e), 0)), more)
  {
    hide Print, Conforms, ParseStmt, PrintType, ConformsType;
    StmtParses(VarDecl(x, ty, None, 0), more);
    StmtParses(VarDecl(x, ty, Some(e), 0), more);
    var head := [TLet] + ([TIdent(x), TColon] + PrintType(ty));
    assert head == [TLet, TIdent(x), TColon] + PrintType(ty);
    assert head + [] + [TSemicolon] == head + [TSemicolon];
    assert head + ([TAssign] + Print(e)) + [TSemicolon] == head + [TAssign] + Print(e) + [TSemicolon];
  }

  lemma NothingRead(more: seq<Tok>)
    ensures ParseStmt([TSemicolon] + more) == Got(None, more)
  {
    BehindFirst(TSemicolon, more);
  }

  /** A procedure with a body or, with a semicolon in its place, without one, and a table. */
  lemma DeclForms(x: string, params: seq<Param>, ret: Type, body: Block, more: seq<Tok>)
    requires ConformsSignature(Signature(params, ret)) && ConformsBlock(body)
    ensures var head := [TProc, TIdent(x), TLParen] + PrintParams(params) + [TRParen] + PrintType(ret);
            ParseDecl(head + PrintBlock(body) + more) == Got(ProcDecl(x, Signature(params, ret), Some(body)), more) &&
            ParseDecl(head + [TSemicolon] + more) == Got(ProcDecl(x, Signature(params, ret), None), more)
    ensures ParseDecl([TTable, TIdent(x), TLBrace] + PrintParams(params) + [TRBrace] + more) ==
              Got(TableDecl(x, params), more)
  {
    hide PrintParams, PrintType, PrintBlock, ParseDecl, ConformsBlock, ConformsType;
    var sig := Signature(params, ret);
    DeclParses(ProcDecl(x, sig, Some(body)), more);
    DeclParses(ProcDecl(x, sig, None), more);
    DeclParses(TableDecl(x, params), more);
    var rest := [TLParen] + PrintParams(params) + [TRParen] + PrintType(ret);
    assert [TProc, TIdent(x)] + rest == [TProc, TIdent(x), TLParen] + PrintParams(params) + [TRParen] + PrintType(ret);
  }

  /** Types: the built-in ones, tables by name, pointers and procedures. */
  lemma TypeForms(x: string, t: Type, params: seq<Param>, more: seq<Tok>)
    requires ConformsSignature(Signature(params, t))
    ensures ParseType([TVoid] + more) == Got(Void, more) && ParseType([TChar] + more) == Got(Char, more)
    ensures ParseType([TInt] + more) == Got(Int, more) && ParseType([TLong] + more) == Got(Long, more)
    ensures ParseType([TIdent(x)] + more) == Got(Object(x), more)
    ensures ParseType([TAsterisk] + PrintType(t) + more) == Got(Pointer(t), more)
    ensures ParseType([TProc, TLParen] + PrintParams(params) + [TRParen] + PrintType(t) + more) ==
              Got(Procedure(Signature(params, t)), more)
  {
    hide PrintParams, ParseType;
    TypeRoundTrip(Void, more);
    TypeRoundTrip(Char, more);
    TypeRoundTrip(Int, more);
    TypeRoundTrip(Long, more);
    TypeRoundTrip(Object(x), more);
    TypeRoundTrip(Pointer(t), more);
    TypeRoundTrip(Procedure(Signature(params, t)), more);
    var rest := PrintParams(params) + [TRParen] + PrintType(t);
    assert [TProc] + ([TLParen] + PrintParams(params) + [TRParen] + PrintType(t)) ==
           [TProc, TLParen] + PrintParams(params) + [TRParen] + PrintType(t);
  }

  /** Calls, indexing and array literals, behind a primary expression or on their own. */
  lemma ExprForms(f: Expr, args: seq<Expr>, i: Expr, elem: Type, more: seq<Tok>)
    requires Conforms(f) && Rank(f) == PRIMARY && Conforms(i) && ConformsType(elem) && Stops(EXPR, more)
    requires forall x | x in args :: Conforms(x)
    ensures Rule(EXPR, Print(f) + [TLParen] + PrintItems(args) + [TRParen] + more) == Got(Call(f, args), more)
    ensures Rule(EXPR, Print(f) + [TLBracket] + Print(i) + [TRBracket] + more) == Got(Index(f, i), more)
    ensures Rule(EXPR, [TLBracket] + PrintItems(args) + [TRBracket] + PrintType(elem) + more) ==
              Got(Array(args, elem, 0), more)
    ensures Rule(EXPR, [TLParen] + Print(i) + [TRParen] + more) == Got(Grouping(i), more)
  {
    hide Rule, PrintItems, ConformsType, PrintType;
    Parses(EXPR, Call(f, args), more);
    Parses(EXPR, Index(f, i), more);
    Parses(EXPR, Array(args, elem, 0), more);
    Parses(EXPR, Grouping(i), more);
  }
}
