/** Precedence and associativity, said with the operators themselves. */
module Precedence {
  import opened Types
  import opened Syntax
  import opened Tokens
  import opened Grammar
  import opened RoundTrip

  /** The binary operators with their tokens, group by group, the tightest group first. */
  function Group(i: nat): set<(Tok, BinOp)> {
    match i
    case 0 => {(TAsterisk, Mul), (TSlash, Div)}
    case 1 => {(TPlus, Add), (TMinus, Sub)}
    case 2 => {(TLt, Lt), (TLtEq, LtEq), (TGt, Gt), (TGtEq, GtEq)}
    case 3 => {(TEq, Eq), (TNeq, Neq)}
    case 4 => {(TAmpersand, BitwiseAnd)}
    case 5 => {(TPipe, BitwiseOr)}
    case 6 => {(TLogAnd, LogAnd)}
    case 7 => {(TLogOr, LogOr)}
    case _ => {}
  }

  /** The prefix operators with their tokens. */
  const PREFIXES: set<(Tok, UnaryOp)> := {(TMinus, Minus), (TBang, Not), (TAmpersand, AddrOf), (TAsterisk, Deref)}

  /** The operator `op`, written t, is in group number i. */
  predicate InGroup(i: nat, t: Tok, op: BinOp) {
    (t, op) in Group(i)
  }

  /** The tokens are a primary expression: whatever follows, the innermost rule takes exactly them. */
  ghost predicate Reads(a: seq<Tok>, x: Expr) {
    a != [] && forall more :: Primary(a + more) == Got(x, more)
  }

  /** Nothing that goes on with an expression. */
  predicate Ends(more: seq<Tok>) {
    more == [] || more[0] in {TSemicolon, TRParen, TRBracket, TLBrace, TComma}
  }

  /** Literals and names are primary expressions, and so is any bracketed expression. */
  lemma PrimariesRead(k: NumberKind, n: nat, x: string)
    ensures Reads([TNumber(k, n)], Num(k, n)) && Reads([TIdent(x)], Ident(x)) && Reads([TString(x)], Str(x))
  {
    forall more
      ensures Primary([TNumber(k, n)] + more) == Got(Num(k, n), more) &&
              Primary([TIdent(x)] + more) == Got(Ident(x), more) && Primary([TString(x)] + more) == Got(Str(x), more)
    {
      assert ([TNumber(k, n)] + more)[1..] == more && ([TIdent(x)] + more)[1..] == more;
      assert ([TString(x)] + more)[1..] == more;
    }
  }

  lemma GroupingRead(a: seq<Tok>, x: Expr)
    requires forall more :: Rule(EXPR, a + ([TRParen] + more)) == Got(x, [TRParen] + more)
    ensures Reads([TLParen] + a + [TRParen], Grouping(x))
  {
    hide Rule;
    forall more ensures Primary([TLParen] + a + [TRParen] + more) == Got(Grouping(x), more) {
      var ts := a + ([TRParen] + more);
      assert [TLParen] + a + [TRParen] + more == [TLParen] + ts;
      assert ([TLParen] + ts)[1..] == ts && ([TRParen] + more)[1..] == more;
    }
  }

  /** The groups are the levels of the grammar, the tokens those of the operators. */
  lemma GroupLevels(i: nat, t: Tok, op: BinOp)
    requires InGroup(i, t, op)
    ensures BinaryOperator(t) == Some(op) && Level(op) == i + 1
  {
    hide InGroup;
    GroupTokens(i, t, op);
    LevelOf(i, t, op);
  }

  lemma GroupTokens(i: nat, t: Tok, op: BinOp)
    requires InGroup(i, t, op)
    ensures BinaryOperator(t) == Some(op)
  {
    hide Level;
  }

  lemma LevelOf(i: nat, t: Tok, op: BinOp)
    requires InGroup(i, t, op)
    ensures Level(op) == i + 1
  {
    hide BinaryOperator;
  }

  lemma EveryOperator(t: Tok, op: BinOp)
    requires BinaryOperator(t) == Some(op)
    ensures exists i :: InGroup(i, t, op)
  {
    assert InGroup(Level(op) - 1, t, op);
  }

  /** A token that a primary expression begins with is no prefix operator and no bracket. */
  lemma PrimaryStarts(a: seq<Tok>, x: Expr, more: seq<Tok>)
    requires Reads(a, x)
    ensures a + more != [] && UnaryOperator((a + more)[0]).None? && (a + more)[0] != TLBracket
    ensures Rule(PRIMARY, a + more) == Got(x, more)
  {
    assert Primary(a + more) == Got(x, more);
    hide Rule;
    PrimaryRule(a + more);
  }

  lemma PrimaryRule(ts: seq<Tok>)
    ensures Rule(PRIMARY, ts) == Primary(ts)
    ensures Primary(ts).Got? ==> ts != [] && UnaryOperator(ts[0]).None? && ts[0] != TLBracket
  {
    hide Items, Operands;
  }

  /** What a rule found is passed on by the rules above it as long as the next token is not theirs. */
  lemma {:induction false} Raise(j: nat, k: nat, ts: seq<Tok>, e: Expr, more: seq<Tok>)
    requires j <= k <= EXPR && Rule(j, ts) == Got(e, more) && Stops(k, more)
    requires ts != [] && UnaryOperator(ts[0]).None? && ts[0] != TLBracket
    ensures Rule(k, ts) == Got(e, more)
    decreases k
  {
    hide Rule, Stops, Operands;
    if j < k {
      StopsBelow(k, more);
      Raise(j, k - 1, ts, e, more);
      if UNARY < k < ASSIGN {
        FirstOperand(k, ts, e, more);
        NoOperand(k, e, more);
      } else {
        NothingMore(k, ts, e, more);
      }
    }
  }

  /** One operator and its right operand. */
  lemma TakesOperand(k: nat, t: Tok, op: BinOp, l: Expr, ts: seq<Tok>, r: Expr, more: seq<Tok>)
    requires UNARY < k < ASSIGN && BinaryOperator(t) == Some(op) && Level(op) == k - UNARY
    requires Rule(k - 1, ts) == Got(r, more)
    ensures Operands(k, l, [t] + ts) == Operands(k, Binary(op, l, r), more)
  {
    hide Rule, Level;
    assert ([t] + ts)[1..] == ts;
  }

  lemma OperatorEnds(i: nat, t: Tok, op: BinOp, more: seq<Tok>)
    requires InGroup(i, t, op)
    ensures Stops(UNARY + i, [t] + more)
  {
    GroupLevels(i, t, op);
  }

  lemma EndStops(more: seq<Tok>)
    requires Ends(more)
    ensures Stops(EXPR, more)
  {
  }

  lemma {:induction false} StopsAllBelow(k: nat, j: nat, more: seq<Tok>)
    requires Stops(k, more) && j <= k
    ensures Stops(j, more)
    decreases k
  {
    hide Stops;
    if j < k {
      StopsBelow(k, more);
      StopsAllBelow(k - 1, j, more);
    }
  }

  /** One operation: its rule takes the left operand from the rule below, and goes on behind the right
      one. */
  lemma OneOperation(i: nat, t: Tok, p: BinOp, ts: seq<Tok>, x: Expr, rest: seq<Tok>, y: Expr, more: seq<Tok>)
    requires InGroup(i, t, p) && Rule(UNARY + i, ts) == Got(x, [t] + rest) && Rule(UNARY + i, rest) == Got(y, more)
    ensures Rule(UNARY + i + 1, ts) == Operands(UNARY + i + 1, Binary(p, x, y), more)
  {
    hide Rule, Operands;
    GroupLevels(i, t, p);
    FirstOperand(UNARY + i + 1, ts, x, [t] + rest);
    TakesOperand(UNARY + i + 1, t, p, x, rest, y, more);
  }

  /** A primary expression in front of an operator or at the end, as every tighter rule reads it. */
  lemma OperandRead(k: nat, a: seq<Tok>, x: Expr, more: seq<Tok>)
    requires Reads(a, x) && k <= EXPR && Stops(k, more)
    ensures Rule(k, a + more) == Got(x, more)
  {
    hide Rule, Stops, Reads;
    PrimaryStarts(a, x, more);
    Raise(PRIMARY, k, a + more, x, more);
  }

  /** A single operation between primary expressions, with nothing more of an expression behind. */
  lemma OperationRead(k: nat, i: nat, t: Tok, p: BinOp, a: seq<Tok>, x: Expr, b: seq<Tok>, y: Expr, more: seq<Tok>)
    requires Reads(a, x) && Reads(b, y) && InGroup(i, t, p) && UNARY + i < k <= EXPR && Stops(k, more)
    ensures Rule(k, a + ([t] + (b + more))) == Got(Binary(p, x, y), more)
  {
    hide Rule, Stops, Reads, Operands, InGroup;
    assert i < 8 by { GroupBound(i, t, p); }
    var rest := b + more;
    OperatorEnds(i, t, p, rest);
    OperandRead(UNARY + i, a, x, [t] + rest);
    StopsAllBelow(k, UNARY + i, more);
    OperandRead(UNARY + i, b, y, more);
    OneOperation(i, t, p, a + ([t] + rest), x, rest, y, more);
    StopsAllBelow(k, UNARY + i + 1, more);
    NoOperand(UNARY + i + 1, Binary(p, x, y), more);
    PrimaryStarts(a, x, [t] + rest);
    Raise(UNARY + i + 1, k, a + ([t] + rest), Binary(p, x, y), more);
  }

  lemma GroupBound(i: nat, t: Tok, p: BinOp)
    requires InGroup(i, t, p)
    ensures i < 8
  {
  }

  /** Of two operators the right one binds tighter if and only if it comes in an earlier group; within
      a group operators associate to the left. */
  lemma TwoOperators(i: nat, t: Tok, p: BinOp, j: nat, u: Tok, q: BinOp, a: seq<Tok>, x: Expr, b: seq<Tok>, y: Expr,
                     c: seq<Tok>, z: Expr, more: seq<Tok>)
    requires InGroup(i, t, p) && InGroup(j, u, q) && Reads(a, x) && Reads(b, y) && Reads(c, z) && Ends(more)
    ensures Rule(EXPR, a + [t] + b + [u] + c + more) ==
              Got(if j < i then Binary(p, x, Binary(q, y, z)) else Binary(q, Binary(p, x, y), z), more)
  {
    hide Rule, Stops, Reads, Operands, InGroup, Ends;
    GroupBound(i, t, p);
    GroupBound(j, u, q);
    EndStops(more);
    var last := [u] + (c + more);
    var ts := a + ([t] + (b + last));
    Chain(a, [t], b, [u], c, more);
    if j < i {
      RightFirst(i, t, p, j, u, q, a, x, b, y, c, z, more);
    } else {
      LeftFirst(i, t, p, j, u, q, a, x, b, y, c, z, more);
    }
  }

  lemma Chain(a: seq<Tok>, t: seq<Tok>, b: seq<Tok>, u: seq<Tok>, c: seq<Tok>, more: seq<Tok>)
    ensures a + t + b + u + c + more == a + (t + (b + (u + (c + more))))
  {
  }

  lemma RightFirst(i: nat, t: Tok, p: BinOp, j: nat, u: Tok, q: BinOp, a: seq<Tok>, x: Expr, b: seq<Tok>, y: Expr,
                   c: seq<Tok>, z: Expr, more: seq<Tok>)
    requires InGroup(i, t, p) && InGroup(j, u, q) && Reads(a, x) && Reads(b, y) && Reads(c, z) && Stops(EXPR, more)
    requires j < i < 8
    ensures Rule(EXPR, a + ([t] + (b + ([u] + (c + more))))) == Got(Binary(p, x, Binary(q, y, z)), more)
  {
    hide Rule, Stops, Reads, Operands, InGroup;
    var rest := b + ([u] + (c + more));
    StopsAllBelow(EXPR, UNARY + i + 1, more);
    StopsAllBelow(EXPR, UNARY + i, more);
    OperationRead(UNARY + i, j, u, q, b, y, c, z, more);
    OperatorEnds(i, t, p, rest);
    OperandRead(UNARY + i, a, x, [t] + rest);
    var e := Binary(p, x, Binary(q, y, z));
    OneOperation(i, t, p, a + ([t] + rest), x, rest, Binary(q, y, z), more);
    NoOperand(UNARY + i + 1, e, more);
    PrimaryStarts(a, x, [t] + rest);
    Raise(UNARY + i + 1, EXPR, a + ([t] + rest), e, more);
  }

  lemma LeftFirst(i: nat, t: Tok, p: BinOp, j: nat, u: Tok, q: BinOp, a: seq<Tok>, x: Expr, b: seq<Tok>, y: Expr,
                  c: seq<Tok>, z: Expr, more: seq<Tok>)
    requires InGroup(i, t, p) && InGroup(j, u, q) && Reads(a, x) && Reads(b, y) && Reads(c, z) && Stops(EXPR, more)
    requires i <= j < 8
    ensures Rule(EXPR, a + ([t] + (b + ([u] + (c + more))))) == Got(Binary(q, Binary(p, x, y), z), more)
  {
    hide Rule, Stops, Reads, Operands, InGroup;
    var last := [u] + (c + more);
    var ts, left, e := a + ([t] + (b + last)), Binary(p, x, y), Binary(q, Binary(p, x, y), z);
    StopsAllBelow(EXPR, UNARY + j + 1, more);
    StopsAllBelow(EXPR, UNARY + j, more);
    OperandRead(UNARY + j, c, z, more);
    OperatorEnds(j, u, q, c + more);
    if i < j {
      OperationRead(UNARY + j, i, t, p, a, x, b, y, last);
      OneOperation(j, u, q, ts, left, c + more, z, more);
    } else {
      OperatorEnds(i, t, p, b + last);
      OperandRead(UNARY + i, a, x, [t] + (b + last));
      OperandRead(UNARY + i, b, y, last);
      OneOperation(i, t, p, ts, x, b + last, y, last);
      GroupLevels(j, u, q);
      TakesOperand(UNARY + j + 1, u, q, left, c + more, z, more);
    }
    NoOperand(UNARY + j + 1, e, more);
    PrimaryStarts(a, x, [t] + (b + last));
    Raise(UNARY + j + 1, EXPR, ts, e, more);
  }

  /** A prefix operator binds tighter than any binary one. */
  lemma PrefixFirst(v: Tok, op: UnaryOp, i: nat, t: Tok, p: BinOp, a: seq<Tok>, x: Expr, b: seq<Tok>, y: Expr,
                    more: seq<Tok>)
    requires (v, op) in PREFIXES && InGroup(i, t, p) && Reads(a, x) && Reads(b, y) && Ends(more)
    ensures Rule(EXPR, [v] + a + [t] + b + more) == Got(Binary(p, Unary(op, x), y), more)
  {
    hide Rule, Stops, Reads, Operands, InGroup, Ends;
    GroupBound(i, t, p);
    EndStops(more);
    var rest := b + more;
    var behind := a + ([t] + rest);
    var ts := [v] + behind;
    assert [v] + a + [t] + b + more == ts;
    OperatorEnds(i, t, p, rest);
    StopsAllBelow(UNARY + i, INDEX, [t] + rest);
    OperandRead(INDEX, a, x, [t] + rest);
    PrefixTaken(v, op, behind, x, [t] + rest);
    RaisePrefixed(UNARY + i, ts, Unary(op, x), [t] + rest);
    StopsAllBelow(EXPR, UNARY + i, more);
    OperandRead(UNARY + i, b, y, more);
    OneOperation(i, t, p, ts, Unary(op, x), rest, y, more);
    StopsAllBelow(EXPR, UNARY + i + 1, more);
    NoOperand(UNARY + i + 1, Binary(p, Unary(op, x), y), more);
    RaiseOver(UNARY + i + 1, ts, Binary(p, Unary(op, x), y), more);
  }

  lemma PrefixTaken(v: Tok, op: UnaryOp, ts: seq<Tok>, x: Expr, more: seq<Tok>)
    requires (v, op) in PREFIXES && Rule(INDEX, ts) == Got(x, more)
    ensures Rule(UNARY, [v] + ts) == Got(Unary(op, x), more) && v != TLBracket
  {
    hide Operands, Items, Primary;
    assert ([v] + ts)[1..] == ts;
  }

  /** The same as Raise, from a prefixed operand to a binary rule. */
  lemma {:induction false} RaisePrefixed(k: nat, ts: seq<Tok>, e: Expr, more: seq<Tok>)
    requires UNARY <= k < ASSIGN && Rule(UNARY, ts) == Got(e, more) && Stops(k, more)
    ensures Rule(k, ts) == Got(e, more)
    decreases k
  {
    hide Rule, Stops, Operands;
    if UNARY < k {
      StopsBelow(k, more);
      RaisePrefixed(k - 1, ts, e, more);
      FirstOperand(k, ts, e, more);
      NoOperand(k, e, more);
    }
  }

  /** And from a binary rule to the top. */
  lemma {:induction false} RaiseOver(j: nat, ts: seq<Tok>, e: Expr, more: seq<Tok>)
    requires UNARY < j <= EXPR && Rule(j, ts) == Got(e, more) && Stops(EXPR, more) && ts != [] && ts[0] != TLBracket
    ensures Rule(EXPR, ts) == Got(e, more)
    decreases EXPR - j
  {
    hide Rule, Stops, Operands;
    if j < EXPR {
      StopsAllBelow(EXPR, j + 1, more);
      if j + 1 < ASSIGN {
        FirstOperand(j + 1, ts, e, more);
        NoOperand(j + 1, e, more);
      } else {
        NothingMore(j + 1, ts, e, more);
      }
      RaiseOver(j + 1, ts, e, more);
    }
  }

  /** An assignment binds looser than any binary operator, and assignments associate to the right. */
  lemma AssignLast(i: nat, t: Tok, p: BinOp, a: seq<Tok>, x: Expr, b: seq<Tok>, y: Expr, c: seq<Tok>, z: Expr,
                   more: seq<Tok>)
    requires InGroup(i, t, p) && Reads(a, x) && Reads(b, y) && Reads(c, z) && Ends(more)
    ensures Rule(EXPR, a + [TAssign] + b + [t] + c + more) == Got(Assign(x, Binary(p, y, z)), more)
    ensures Rule(EXPR, a + [TAssign] + b + [TAssign] + c + more) == Got(Assign(x, Assign(y, z)), more)
    ensures Rule(EXPR, a + [t] + b + [TAssign] + c + more) == Got(Assign(Binary(p, x, y), z), more)
  {
    hide Rule, Stops, Reads, Operands, InGroup, Ends;
    GroupBound(i, t, p);
    EndStops(more);
    StopsAllBelow(EXPR, ASSIGN, more);
    Chain(a, [TAssign], b, [t], c, more);
    Chain(a, [TAssign], b, [TAssign], c, more);
    Chain(a, [t], b, [TAssign], c, more);
    OperandRead(ASSIGN, c, z, more);
    OperationRead(ASSIGN, i, t, p, b, y, c, z, more);
    AssignTaken(b, y, c + more, z, more);
    AssignTaken(a, x, b + ([t] + (c + more)), Binary(p, y, z), more);
    AssignTaken(a, x, b + ([TAssign] + (c + more)), Assign(y, z), more);
    AssignStops(c + more);
    OperationRead(ASSIGN - 1, i, t, p, a, x, b, y, [TAssign] + (c + more));
    var ts := a + ([t] + (b + ([TAssign] + (c + more))));
    BehindFirst(TAssign, c + more);
    AssignRule(ts, Binary(p, x, y), [TAssign] + (c + more), z, more);
    PrimaryStarts(a, x, [t] + (b + ([TAssign] + (c + more))));
    NothingMore(EXPR, ts, Assign(Binary(p, x, y), z), more);
  }

  lemma AssignStops(ts: seq<Tok>)
    ensures Stops(ASSIGN - 1, [TAssign] + ts)
  {
  }

  lemma AssignTaken(a: seq<Tok>, x: Expr, ts: seq<Tok>, v: Expr, more: seq<Tok>)
    requires Reads(a, x) && Rule(ASSIGN, ts) == Got(v, more) && Stops(EXPR, more)
    ensures Rule(ASSIGN, a + ([TAssign] + ts)) == Got(Assign(x, v), more)
    ensures Rule(EXPR, a + ([TAssign] + ts)) == Got(Assign(x, v), more)
  {
    hide Rule, Stops, Reads, Operands;
    AssignStops(ts);
    OperandRead(ASSIGN - 1, a, x, [TAssign] + ts);
    BehindFirst(TAssign, ts);
    AssignRule(a + ([TAssign] + ts), x, [TAssign] + ts, v, more);
    PrimaryStarts(a, x, [TAssign] + ts);
    NothingMore(EXPR, a + ([TAssign] + ts), Assign(x, v), more);
  }
}
