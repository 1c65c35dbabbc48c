/** Token kinds, and the tree of nodes the code generator builds and the executor walks. */
module Syntax {
  import opened Wrappers

  datatype Kind =
    | NONE | INT_LITERAL | HEX_LITERAL | OCT_LITERAL | BIN_LITERAL | FP_LITERAL | FP_EXP_LITERAL
    | STRING_LITERAL | CHAR_LITERAL | SPACE | IDENTIFIER
    | PLUS | MINUS | STAR | SLASH | MOD | AT | EQUAL | NOT | NOTEQUAL | LESSEQUAL | LESS | GREATER
    | GREATEREQUAL | SPACESHIP
    | ASSIGN | ADDASSIGN | SUBASSIGN | MULASSIGN | DIVASSIGN | MODASSIGN | BITANDASSIGN | ANDASSIGN
    | XORASSIGN | BITORASSIGN | ORASSIGN | COLONCOLONASSIGN | LSHIFTASSIGN | RSHIFTASSIGN
    | INCREMENT | DECREMENT | LSHIFT | RSHIFT | DOTDOT | STARSTAR | QUESTIONCOLON | QUESTIONQUESTION
    | BITNOT | XOR | CIRCUMFLEXCIRCUMFLEX | BITOR | OR | BITAND | AND | QUESTION | COLON | COLONCOLON
    | SEMICOLON | LPAREN | RPAREN | LBRACKET | RBRACKET | LCURLY | RCURLY | COMMA | DOT
    | FUNCCALL | TYPECAST | ENDOFFILE

  predicate IsCompoundAssign(k: Kind) {
    || k.ADDASSIGN? || k.SUBASSIGN? || k.MULASSIGN? || k.DIVASSIGN? || k.MODASSIGN? || k.BITANDASSIGN?
    || k.XORASSIGN? || k.BITORASSIGN? || k.LSHIFTASSIGN? || k.RSHIFTASSIGN?
  }

  predicate IsAssign(k: Kind) {
    k.ASSIGN? || IsCompoundAssign(k)
  }

  predicate IsPrefix(k: Kind) {
    k.MINUS? || k.PLUS? || k.NOT? || k.BITNOT? || k.INCREMENT? || k.DECREMENT?
  }

  predicate IsIncDec(k: Kind) {
    k.INCREMENT? || k.DECREMENT?
  }

  /** The priority level whose loop consumes binary operator `k`; 0 if none does. */
  function BinaryLevel(k: Kind): nat {
    if k.OR? then 15
    else if k.AND? then 14
    else if k.BITOR? then 13
    else if k.XOR? then 12
    else if k.BITAND? then 11
    else if k.EQUAL? || k.NOTEQUAL? then 10
    else if k.LESS? || k.LESSEQUAL? || k.GREATER? || k.GREATEREQUAL? then 9
    else if k.SPACESHIP? then 8
    else if k.LSHIFT? || k.RSHIFT? then 7
    else if k.PLUS? || k.MINUS? then 6
    else if k.STAR? || k.SLASH? || k.MOD? then 5
    else 0
  }

  /** Expression nodes. A primary node owns a box that holds the literal's value; the literal
      `undefined` has none. */
  datatype Expr =
    | Void
    | Primary(box: Maybe<nat>)
    | Sym(name: string)
    | Prefix(op: Kind, operand: Expr)
    | Cast(typeName: string, operand: Expr)
    | Postfix(operand: Expr, op: Kind)
    | Binop(op: Kind, left: Expr, right: Expr)
    | Ternop(cond: Expr, onTrue: Expr, onFalse: Expr)
    | Call(func: Expr, args: seq<Expr>)

  datatype OptStmt = NoStmt | SomeStmt(stmt: Stmt)

  /** Statement nodes. `own` says whether a block pushes a frame of its own. */
  datatype Stmt =
    | Empty
    | Eval(expr: Expr)
    | Throw(expr: Expr)
    | TryCatch(body: Stmt, catchExpr: Expr, handler: Stmt)
    | IfElse(cond: Expr, yes: Stmt, no: OptStmt)
    | Compound(stats: seq<Stmt>, own: bool)
    | While(cond: Expr, body: Stmt)
    | For(init: Expr, cond: Expr, incr: Expr, body: Stmt)
    | Continue
    | Break
    | Return(expr: Expr)

  /** The parent of a block tells it to run in the parent's frame. */
  function SkipFrame(s: Stmt): Stmt {
    match s
    case Compound(stats, _) => Compound(stats, false)
    case _ => s
  }

  /** What the code generator makes of a block: nothing of an empty one, the bare statement of a
      one-statement one. */
  function BlockOf(stats: seq<Stmt>): Stmt {
    if |stats| == 0 then Empty
    else if |stats| == 1 then stats[0]
    else Compound(stats, true)
  }

  /** Break and continue occur inside loops only. */
  predicate WellNested(s: Stmt, inLoop: bool) {
    match s
    case TryCatch(a, _, b) => WellNested(a, inLoop) && WellNested(b, inLoop)
    case IfElse(_, a, b) => WellNested(a, inLoop) && (b.SomeStmt? ==> WellNested(b.stmt, inLoop))
    case Compound(stats, _) => forall i :: 0 <= i < |stats| ==> WellNested(stats[i], inLoop)
    case While(_, body) => WellNested(body, true)
    case For(_, _, _, body) => WellNested(body, true)
    case Continue => inLoop
    case Break => inLoop
    case _ => true
  }
}
