/** What the tokens of a program come down to when the parts the parser may do without are left out:
    commas in lists, and empty statements. */
module Tidying {
  import opened Types
  import opened Syntax
  import opened Tokens
  import opened Grammar
  import opened Printing

  /** A place between two tokens: whether a statement would begin there, how many parentheses and
      brackets are open, and whether it is inside a table declaration. */
  datatype Place = Place(start: bool, depth: nat, table: bool) {
    /** Commas are optional between the items of a list. */
    predicate InList() {
      depth > 0 || table
    }

    /** A comma of a list, or a semicolon where a statement would begin. The commas of a `for` header
        are not in a list. */
    predicate Drops(t: Tok) {
      (t == TComma && InList()) || (t == TSemicolon && start)
    }

    /** The place behind the token. */
    function Next(t: Tok): Place {
      if Drops(t) then this
      else
        Place(t == TLBrace || t == TRBrace || t == TSemicolon,
              if t == TLParen || t == TLBracket then depth + 1
              else if (t == TRParen || t == TRBracket) && depth > 0 then depth - 1
              else depth,
              t == TTable || (table && t != TRBrace))
    }
  }

  const BEGINNING := Place(false, 0, false)

  function Tidy(p: Place, ts: seq<Tok>): seq<Tok>
    decreases |ts|
  {
    if ts == [] then [] else (if p.Drops(ts[0]) then [] else [ts[0]]) + Tidy(p.Next(ts[0]), ts[1..])
  }

  /** The place behind the tokens. */
  function After(p: Place, ts: seq<Tok>): Place
    decreases |ts|
  {
    if ts == [] then p else After(p.Next(ts[0]), ts[1..])
  }

  lemma {:induction false} TidyConcat(p: Place, a: seq<Tok>, b: seq<Tok>)
    ensures Tidy(p, a + b) == Tidy(p, a) + Tidy(After(p, a), b)
    ensures After(p, a + b) == After(After(p, a), b)
    decreases |a|
  {
    if a == [] {
      assert a + b == b;
    } else {
      assert (a + b)[1..] == a[1..] + b;
      TidyConcat(p.Next(a[0]), a[1..], b);
    }
  }

  lemma AfterOne(p: Place, t: Tok)
    ensures After(p, [t]) == p.Next(t)
    ensures Tidy(p, [t]) == if p.Drops(t) then [] else [t]
  {
    assert [t][1..] == [];
    assert Tidy(p.Next(t), []) == [];
  }

  /** Behind the tokens as many lists are open as before them. */
  ghost predicate Balanced(ts: seq<Tok>) {
    forall p: Place :: After(p, ts).depth == p.depth && After(p, ts).table == p.table
  }

  lemma BalancedNothing()
    ensures Balanced([])
  {
  }

  lemma BalancedOne(t: Tok)
    requires t !in {TLParen, TRParen, TLBracket, TRBracket, TTable, TRBrace}
    ensures Balanced([t])
  {
    forall p: Place ensures After(p, [t]).depth == p.depth && After(p, [t]).table == p.table {
      AfterOne(p, t);
    }
  }

  lemma BalancedConcat(a: seq<Tok>, b: seq<Tok>)
    requires Balanced(a) && Balanced(b)
    ensures Balanced(a + b)
  {
    forall p: Place ensures After(p, a + b).depth == p.depth && After(p, a + b).table == p.table {
      TidyConcat(p, a, b);
    }
  }

  lemma BalancedInside(open: Tok, a: seq<Tok>, close: Tok)
    requires (open == TLParen && close == TRParen) || (open == TLBracket && close == TRBracket)
    requires Balanced(a)
    ensures Balanced([open] + a + [close])
  {
    forall p: Place ensures After(p, [open] + a + [close]).depth == p.depth &&
      After(p, [open] + a + [close]).table == p.table {
      TidyConcat(p, [open] + a, [close]);
      TidyConcat(p, [open], a);
      AfterOne(p, open);
      AfterOne(After(After(p, [open]), a), close);
    }
  }

  lemma {:induction false} TypeBalanced(t: Type)
    ensures Balanced(PrintType(t))
    decreases t
  {
    hide Balanced, PrintSignature;
    match t
    case Pointer(q) =>
      TypeBalanced(q);
      BalancedOne(TAsterisk);
      BalancedConcat([TAsterisk], PrintType(q));
    case Procedure(sig) =>
      SignatureBalanced(sig);
      BalancedOne(TProc);
      BalancedConcat([TProc], PrintSignature(sig));
    case _ => BalancedOne(PrintType(t)[0]);
  }

  lemma {:induction false} SignatureBalanced(sig: Signature)
    ensures Balanced(PrintSignature(sig))
    decreases sig
  {
    hide Balanced, PrintType, PrintParams;
    ParamsBalanced(sig.params);
    BalancedInside(TLParen, PrintParams(sig.params), TRParen);
    TypeBalanced(sig.ret);
    BalancedConcat([TLParen] + PrintParams(sig.params) + [TRParen], PrintType(sig.ret));
  }

  lemma {:induction false} ParamBalanced(q: Param)
    ensures Balanced(PrintParam(q))
    decreases q
  {
    hide Balanced, PrintType;
    TypeBalanced(q.ty);
    BalancedOne(TIdent(q.ident));
    BalancedOne(TColon);
    BalancedConcat([TIdent(q.ident)], [TColon]);
    BalancedConcat([TIdent(q.ident)] + [TColon], PrintType(q.ty));
    assert [TIdent(q.ident)] + [TColon] == [TIdent(q.ident), TColon];
  }

  lemma {:induction false} ParamsBalanced(ps: seq<Param>)
    ensures Balanced(PrintParams(ps))
    decreases ps
  {
    hide Balanced, PrintParam;
    BalancedNothing();
    if ps != [] {
      ParamBalanced(ps[0]);
      if |ps| > 1 {
        BalancedOne(TComma);
        BalancedConcat(PrintParam(ps[0]), [TComma]);
        ParamsBalanced(ps[1..]);
        BalancedConcat(PrintParam(ps[0]) + [TComma], PrintParams(ps[1..]));
      }
    }
  }

  lemma OperatorsBalanced(op: BinOp, uop: UnaryOp)
    ensures Balanced([BinaryToken(op)]) && Balanced([UnaryToken(uop)])
  {
    hide Balanced;
    BalancedOne(BinaryToken(op));
    BalancedOne(UnaryToken(uop));
  }

  lemma BalancedThree(a: seq<Tok>, b: seq<Tok>, c: seq<Tok>)
    requires Balanced(a) && Balanced(b) && Balanced(c)
    ensures Balanced(a + b + c)
  {
    hide Balanced;
    BalancedConcat(a, b);
    BalancedConcat(a + b, c);
  }

  lemma BalancedBehind(a: seq<Tok>, open: Tok, b: seq<Tok>, close: Tok)
    requires (open == TLParen && close == TRParen) || (open == TLBracket && close == TRBracket)
    requires Balanced(a) && Balanced(b)
    ensures Balanced(a + [open] + b + [close])
  {
    hide Balanced;
    BalancedInside(open, b, close);
    BalancedConcat(a, [open] + b + [close]);
    assert a + ([open] + b + [close]) == a + [open] + b + [close];
  }

  lemma {:induction false} ExprBalanced(e: Expr)
    ensures Balanced(Print(e))
    decreases e
  {
    hide Balanced, PrintItems, PrintType, BinaryToken, UnaryToken;
    match e
    case Num(k, n) => BalancedOne(TNumber(k, n));
    case Ident(x) => BalancedOne(TIdent(x));
    case Str(s) => BalancedOne(TString(s));
    case Grouping(inner) =>
      ExprBalanced(inner);
      BalancedInside(TLParen, Print(inner), TRParen);
    case Binary(op, l, r) =>
      ExprBalanced(l);
      ExprBalanced(r);
      OperatorsBalanced(op, Minus);
      BalancedThree(Print(l), [BinaryToken(op)], Print(r));
    case Unary(op, node) =>
      ExprBalanced(node);
      OperatorsBalanced(Add, op);
      BalancedConcat([UnaryToken(op)], Print(node));
    case Call(f, args) =>
      ExprBalanced(f);
      ItemsBalanced(args);
      BalancedBehind(Print(f), TLParen, PrintItems(args), TRParen);
    case Assign(t, v) =>
      ExprBalanced(t);
      ExprBalanced(v);
      BalancedOne(TAssign);
      BalancedThree(Print(t), [TAssign], Print(v));
    case Array(vs, t, _) =>
      ItemsBalanced(vs);
      TypeBalanced(t);
      BalancedInside(TLBracket, PrintItems(vs), TRBracket);
      BalancedConcat([TLBracket] + PrintItems(vs) + [TRBracket], PrintType(t));
    case Index(x, i) =>
      ExprBalanced(x);
      ExprBalanced(i);
      BalancedBehind(Print(x), TLBracket, Print(i), TRBracket);
  }

  lemma {:induction false} ItemsBalanced(es: seq<Expr>)
    ensures Balanced(PrintItems(es))
    decreases es
  {
    hide Balanced, Print;
    BalancedNothing();
    if es != [] {
      ExprBalanced(es[0]);
      if |es| > 1 {
        BalancedOne(TComma);
        ItemsBalanced(es[1..]);
        BalancedThree(Print(es[0]), [TComma], PrintItems(es[1..]));
      }
    }
  }

  /** Between two items of a list one is still in the list. */
  lemma StillInList(p: Place, a: seq<Tok>)
    requires p.InList() && Balanced(a)
    ensures After(p, a).InList()
  {
  }
}
