/** The `node::` structs of src/parser.hpp as inductive datatypes. Arena pointers become
    owned children; `std::optional<NodeIfPred *>` becomes `Option<IfPred>`. */
module Ast {
  import opened Wrappers
  import opened Tokens

  datatype Term =
    | TermIntLit(token: Token)
    | TermIdent(token: Token)
    | TermParen(expr: Expr)

  datatype BinExpr =
    | BinAdd(lhs: Expr, rhs: Expr)
    | BinMulti(lhs: Expr, rhs: Expr)
    | BinSub(lhs: Expr, rhs: Expr)
    | BinDiv(lhs: Expr, rhs: Expr)

  datatype Expr = TermExpr(term: Term) | BinaryExpr(bin: BinExpr)

  datatype Scope = Scope(stmts: seq<Stmt>)

  datatype IfPred =
    | PredElif(cond: Expr, scope: Scope, pred: Option<IfPred>)
    | PredElse(scope: Scope)

  datatype Stmt =
    | StmtExit(expr: Expr)
    | StmtLet(ident: Token, expr: Expr)
    | StmtScope(scope: Scope)
    | StmtIf(cond: Expr, scope: Scope, pred: Option<IfPred>)
    | StmtAssign(ident: Token, expr: Expr)

  datatype Prog = Prog(stmts: seq<Stmt>)

  /** The operator token kind a binary node was built from. */
  function OpKind(b: BinExpr): (k: TokenKind)
    ensures IsBinOp(k)
  {
    match b
    case BinAdd(_, _) => Plus
    case BinMulti(_, _) => Star
    case BinSub(_, _) => Sub
    case BinDiv(_, _) => Div
  }

  /** The precedence of a binary node's operator. */
  function Prec(b: BinExpr): nat {
    BinPrec(OpKind(b)).value
  }

  /** The node `parse_expr` allocates for operator `op` (its if/else-if chain on `op.type`). */
  function MakeBin(op: TokenKind, lhs: Expr, rhs: Expr): (b: BinExpr)
    requires IsBinOp(op)
    ensures OpKind(b) == op && b.lhs == lhs && b.rhs == rhs
  {
    match op
    case Plus => BinAdd(lhs, rhs)
    case Star => BinMulti(lhs, rhs)
    case Sub => BinSub(lhs, rhs)
    case Div => BinDiv(lhs, rhs)
  }
}
