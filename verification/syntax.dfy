/** Abstract syntax. The fields `offset`, `table`, `slots` and `stackSize` are the ones the
    symbol-table pass fills in; the parser leaves them zero. */
module Syntax {
  import opened Types

  datatype NumberKind = NumAny | NumChar | NumInt | NumLong

  datatype BinOp =
    | Add | Sub | Mul | Div
    | Eq | Neq | Gt | GtEq | Lt | LtEq
    | BitwiseOr | BitwiseAnd | LogOr | LogAnd

  datatype UnaryOp = Minus | Not | AddrOf | Deref

  datatype Expr =
    | Num(kind: NumberKind, value: nat)
    | Str(text: string)
    | Ident(name: string)
    | Grouping(inner: Expr)
    | Binary(op: BinOp, lhs: Expr, rhs: Expr)
    | Unary(uop: UnaryOp, node: Expr)
    | Call(callee: Expr, args: seq<Expr>)
    | Assign(target: Expr, rvalue: Expr)
    | Array(values: seq<Expr>, elem: Type, offset: nat)
    | Index(expr: Expr, index: Expr)

  datatype Block = Block(stmts: seq<Stmt>, table: nat)

  datatype Stmt =
    | ExprStmt(e: Expr)
    | BlockStmt(block: Block)
    | VarDecl(ident: string, ty: Type, init: Option<Expr>, offset: nat)
    | If(cond: Expr, then_: Block, else_: Option<Block>)
    | While(cond: Expr, body: Block)
    | For(ident: string, ty: Type, start: Expr, cond: Expr, update: Expr, body: Block, offset: nat, table: nat)
    | Return(result: Option<Expr>)

  datatype Proc = Proc(name: string, sig: Signature, body: Block, slots: seq<nat>, stackSize: nat)

  datatype Symbol =
    | Variable(ty: Type, offset: nat)
    | Parameter(ty: Type, offset: nat)
    | Routine(sig: Signature)
  {
    function Type(): Type {
      if Routine? then Procedure(sig) else ty
    }
  }

  type Env = map<string, Symbol>
}
