/** Tokens, and the operators they stand for. */
module Tokens {
  import opened Types
  import opened Syntax

  datatype Tok =
    | TIdent(name: string) | TNumber(kind: NumberKind, value: nat) | TString(text: string)
    | TPlus | TMinus | TAsterisk | TSlash | TBang
    | TSemicolon | TColon | TComma | TAssign | TEq | TNeq | TGt | TGtEq | TLt | TLtEq
    | TAmpersand | TPipe | TLogOr | TLogAnd
    | TLParen | TRParen | TLBrace | TRBrace | TLBracket | TRBracket
    | TProc | TLet | TIf | TElse | TElsif | TWhile | TReturn | TTable | TFor
    | TVoid | TChar | TInt | TLong

  function BinaryOperator(t: Tok): Option<BinOp> {
    match t
    case TPlus => Some(Add)
    case TMinus => Some(Sub)
    case TSlash => Some(Div)
    case TAsterisk => Some(Mul)
    case TEq => Some(Eq)
    case TNeq => Some(Neq)
    case TLt => Some(Lt)
    case TLtEq => Some(LtEq)
    case TGt => Some(Gt)
    case TGtEq => Some(GtEq)
    case TPipe => Some(BitwiseOr)
    case TAmpersand => Some(BitwiseAnd)
    case TLogOr => Some(LogOr)
    case TLogAnd => Some(LogAnd)
    case _ => None
  }

  function UnaryOperator(t: Tok): Option<UnaryOp> {
    match t
    case TMinus => Some(Minus)
    case TBang => Some(Not)
    case TAmpersand => Some(AddrOf)
    case TAsterisk => Some(Deref)
    case _ => None
  }

  function BinaryToken(op: BinOp): (t: Tok)
    ensures BinaryOperator(t) == Some(op)
  {
    match op
    case Add => TPlus
    case Sub => TMinus
    case Div => TSlash
    case Mul => TAsterisk
    case Eq => TEq
    case Neq => TNeq
    case Lt => TLt
    case LtEq => TLtEq
    case Gt => TGt
    case GtEq => TGtEq
    case BitwiseOr => TPipe
    case BitwiseAnd => TAmpersand
    case LogOr => TLogOr
    case LogAnd => TLogAnd
  }

  function UnaryToken(op: UnaryOp): (t: Tok)
    ensures UnaryOperator(t) == Some(op)
  {
    match op
    case Minus => TMinus
    case Not => TBang
    case AddrOf => TAmpersand
    case Deref => TAsterisk
  }

  /** How loosely an operator binds: `* /` first, `||` last. */
  function Level(op: BinOp): (k: nat)
    ensures 1 <= k <= 8
  {
    match op
    case Mul => 1 case Div => 1
    case Add => 2 case Sub => 2
    case Lt => 3 case LtEq => 3 case Gt => 3 case GtEq => 3
    case Eq => 4 case Neq => 4
    case BitwiseAnd => 5
    case BitwiseOr => 6
    case LogAnd => 7
    case LogOr => 8
  }

  predicate Starts(ts: seq<Tok>, t: Tok) {
    ts != [] && ts[0] == t
  }

  /** The next token is a binary operator of the level. */
  predicate StartsLevel(ts: seq<Tok>, k: nat) {
    ts != [] && BinaryOperator(ts[0]).Some? && Level(BinaryOperator(ts[0]).value) == k
  }

  predicate StartsUnary(ts: seq<Tok>) {
    ts != [] && UnaryOperator(ts[0]).Some?
  }
}
