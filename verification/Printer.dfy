/** Expressions written back as tokens. A tree is put into parentheses exactly where it binds more
    loosely than its place allows. */
module Printer {
  import opened Syntax
  import opened Ast
  import opened Grammar

  /** Trees with source text: no missing operand, operators where the grammar has them. */
  predicate Printable<V>(d: Dialect<V>, a: Ast)
    decreases a, 1
  {
    Spellable(d, a) && PrintableParts(d, a)
  }

  /** The node itself can be written down. */
  predicate Spellable<V>(d: Dialect<V>, a: Ast) {
    match a
    case Null => false
    case Binary(op, _, _) => IsAssign(op) || BinaryLevel(op) > 0 || op.LBRACKET? || op.DOT?
    case Ternary(op, _, _, _) => op.QUESTION?
    case Unary(op, ty, _) => if op.TYPECAST? then ty in d.types else IsPrefix(op) && ty == ""
    case Suffix(op, _) => IsIncDec(op)
    case Ident(name) => ExpressionPart(name) && WordAst(name).Ident?
    case Literal(kind, text) =>
      if kind.BoolLit? then text == "true" || text == "false"
      else if kind.UndefinedLit? then text == "undefined"
      else (kind, text) in d.literals
    case Array(_) => true
    case Apply(_, _) => true
  }

  predicate PrintableParts<V>(d: Dialect<V>, a: Ast)
    decreases a, 0
  {
    match a
    case Binary(_, l, r) => Printable(d, l) && Printable(d, r)
    case Ternary(_, c, t, f) => Printable(d, c) && Printable(d, t) && Printable(d, f)
    case Unary(_, _, x) => Printable(d, x)
    case Suffix(_, x) => Printable(d, x)
    case Array(items) => AllPrintable(d, items)
    case Apply(f, args) => Printable(d, f) && AllPrintable(d, args)
    case _ => true
  }

  predicate AllPrintable<V>(d: Dialect<V>, asts: seq<Ast>)
    decreases asts, 2
  {
    asts == [] || (Printable(d, asts[0]) && AllPrintable(d, asts[1..]))
  }

  /** How loosely a tree binds: 0 primaries, 1 chains of calls, indexes and members, 2 postfix
      operators, 3 prefix operators and casts, 5 to 15 binary operators, 16 assignment and ?: . */
  function Level(a: Ast): nat {
    match a
    case Binary(op, _, _) =>
      if BinaryLevel(op) > 0 then BinaryLevel(op) else if IsAssign(op) then 16 else 1
    case Ternary(_, _, _, _) => 16
    case Unary(_, _, _) => 3
    case Suffix(_, _) => 2
    case Apply(_, _) => 1
    case _ => 0
  }

  function LiteralToken(kind: LitKind): Kind {
    match kind
    case FltLit => FP_LITERAL
    case HexLit => HEX_LITERAL
    case OctLit => OCT_LITERAL
    case BinLit => BIN_LITERAL
    case IntLit => INT_LITERAL
    case StrLit => STRING_LITERAL
    case ChrLit => CHAR_LITERAL
    case _ => IDENTIFIER
  }

  /** `spell` supplies the text of operator and punctuation tokens, which parsing ignores. */
  function Op(spell: map<Kind, string>, k: Kind): Token {
    Token(k, if k in spell then spell[k] else "")
  }

  /** A tree where the context takes level `lvl` or tighter. */
  function Print(spell: map<Kind, string>, a: Ast, lvl: nat): seq<Token>
    decreases a, 2
  {
    if Level(a) <= lvl then Body(spell, a) else Wrapped(spell, LPAREN, Body(spell, a), RPAREN)
  }

  function Wrapped(spell: map<Kind, string>, open: Kind, xs: seq<Token>, close: Kind): seq<Token> {
    [Op(spell, open)] + xs + [Op(spell, close)]
  }

  function Body(spell: map<Kind, string>, a: Ast): seq<Token>
    decreases a, 1
  {
    match a
    case Null => []
    case Binary(_, _, _) => Infix(spell, a)
    case Ternary(_, _, _, _) => Conditional(spell, a)
    case Unary(_, _, _) => Prefixed(spell, a)
    case Suffix(_, _) => Postfixed(spell, a)
    case Ident(name) => [Token(IDENTIFIER, name)]
    case Literal(kind, text) => [Token(LiteralToken(kind), text)]
    case Array(_) => Listed(spell, a)
    case Apply(_, _) => Called(spell, a)
  }

  /** The levels the operands of a binary operator are printed for. */
  function LeftLevel(op: Kind): nat {
    if BinaryLevel(op) > 0 then BinaryLevel(op) else if IsAssign(op) then 15 else 1
  }

  function RightLevel(op: Kind): nat {
    if BinaryLevel(op) > 0 then BinaryLevel(op) - 1 else if IsAssign(op) || op.LBRACKET? then 16 else 0
  }

  function Infix(spell: map<Kind, string>, a: Ast): seq<Token>
    requires a.Binary?
    decreases a, 0
  {
    Between(spell, a.op, Print(spell, a.left, LeftLevel(a.op)), Print(spell, a.right, RightLevel(a.op)))
  }

  /** An operator between its operands; an index is closed behind them. */
  function Between(spell: map<Kind, string>, op: Kind, xs: seq<Token>, ys: seq<Token>): seq<Token> {
    xs + [Op(spell, op)] + ys + if op.LBRACKET? then [Op(spell, RBRACKET)] else []
  }

  function Conditional(spell: map<Kind, string>, a: Ast): seq<Token>
    requires a.Ternary?
    decreases a, 0
  {
    Choice(spell, Print(spell, a.condition, 15), Print(spell, a.trueExpr, 16), Print(spell, a.falseExpr, 16))
  }

  function Choice(spell: map<Kind, string>, xs: seq<Token>, ys: seq<Token>, zs: seq<Token>): seq<Token> {
    xs + [Op(spell, QUESTION)] + ys + [Op(spell, COLON)] + zs
  }

  function Prefixed(spell: map<Kind, string>, a: Ast): seq<Token>
    requires a.Unary?
    decreases a, 0
  {
    if a.op.TYPECAST? then
      [Op(spell, LPAREN)] + [Token(IDENTIFIER, a.typeName)] + [Op(spell, RPAREN)] + Print(spell, a.operand, 3)
    else [Op(spell, a.op)] + Print(spell, a.operand, 3)
  }

  function Postfixed(spell: map<Kind, string>, a: Ast): seq<Token>
    requires a.Suffix?
    decreases a, 0
  {
    Print(spell, a.operand, 1) + [Op(spell, a.op)]
  }

  function Listed(spell: map<Kind, string>, a: Ast): seq<Token>
    requires a.Array?
    decreases a, 0
  {
    Wrapped(spell, LBRACKET, PrintList(spell, a.items), RBRACKET)
  }

  function Called(spell: map<Kind, string>, a: Ast): seq<Token>
    requires a.Apply?
    decreases a, 0
  {
    Print(spell, a.func, 1) + [Op(spell, LPAREN)] + PrintList(spell, a.args) + [Op(spell, RPAREN)]
  }

  /** Comma-separated trees. */
  function PrintList(spell: map<Kind, string>, asts: seq<Ast>): seq<Token>
    decreases asts, 3
  {
    if asts == [] then []
    else if |asts| == 1 then Print(spell, asts[0], 16)
    else Print(spell, asts[0], 16) + [Op(spell, COMMA)] + PrintList(spell, asts[1..])
  }
}
