/** The syntax tree the parser hands to the code generator. */
module Ast {
  import opened Syntax

  datatype LitKind = FltLit | HexLit | OctLit | BinLit | IntLit | BoolLit | UndefinedLit | StrLit | ChrLit

  /** Expressions. `Null` stands for an expression the parser did not find. */
  datatype Ast =
    | Null
    | Binary(op: Kind, left: Ast, right: Ast)
    | Ternary(op: Kind, condition: Ast, trueExpr: Ast, falseExpr: Ast)
    | Unary(op: Kind, typeName: string, operand: Ast)
    | Suffix(op: Kind, operand: Ast)
    | Ident(name: string)
    | Literal(kind: LitKind, text: string)
    | Array(items: seq<Ast>)
    | Apply(func: Ast, args: seq<Ast>)

  /** Statements; `NoTree` is a missing else branch. */
  datatype Tree =
    | NoTree
    | EmptyTree
    | ExprTree(expr: Ast)
    | ThrowTree(expr: Ast)
    | TryTree(body: Tree, catchExpr: Ast, handler: Tree)
    | IfTree(cond: Ast, yes: Tree, no: Tree)
    | BlockTree(stats: seq<Tree>)
    | WhileTree(cond: Ast, body: Tree)
    | ForTree(init: Ast, cond: Ast, incr: Ast, body: Tree)
    | ContinueTree
    | BreakTree
    | ReturnTree(expr: Ast)

  /** Break and continue occur inside loops only, and a tree is missing only after an if. */
  predicate TreeNested(t: Tree, inLoop: bool) {
    match t
    case NoTree => false
    case TryTree(a, _, b) => TreeNested(a, inLoop) && TreeNested(b, inLoop)
    case IfTree(_, a, b) => TreeNested(a, inLoop) && (b.NoTree? || TreeNested(b, inLoop))
    case BlockTree(stats) => forall i :: 0 <= i < |stats| ==> TreeNested(stats[i], inLoop)
    case WhileTree(_, body) => TreeNested(body, true)
    case ForTree(_, _, _, body) => TreeNested(body, true)
    case ContinueTree => inLoop
    case BreakTree => inLoop
    case _ => true
  }

  /** The predicates and conversions the engine takes from its value type. */
  datatype Dialect<!V> = Dialect(
    types: iset<string>,
    forbiddenCasts: iset<string>,
    literals: iset<(LitKind, string)>,
    literalValue: (LitKind, string) -> V)
}
