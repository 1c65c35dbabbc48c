/** Statements and scripts written back as tokens. */
module StatementPrinter {
  import opened Syntax
  import opened Ast
  import opened Grammar
  import opened StatementGrammar
  import opened Printer

  function Id(word: string): Token {
    Token(IDENTIFIER, word)
  }

  /** The kind of the first token of an expression. */
  function Head(a: Ast, lvl: nat): Kind
    decreases a, 1
  {
    if Level(a) > lvl then LPAREN else HeadOfTree(a)
  }

  function HeadOfTree(a: Ast): Kind
    decreases a, 0
  {
    match a
    case Null => NONE
    case Binary(op, l, _) => Head(l, LeftLevel(op))
    case Ternary(_, c, _, _) => Head(c, 15)
    case Unary(op, _, _) => if op.TYPECAST? then LPAREN else op
    case Suffix(_, x) => Head(x, 1)
    case Ident(_) => IDENTIFIER
    case Literal(kind, _) => LiteralToken(kind)
    case Array(_) => LBRACKET
    case Apply(f, _) => Head(f, 1)
  }

  /** An if without else is the last thing in the statement: an else behind it would be taken for
      its own. */
  predicate Open(t: Tree) {
    match t
    case IfTree(_, _, no) => no.NoTree? || Open(no)
    case TryTree(_, _, handler) => Open(handler)
    case WhileTree(_, body) => Open(body)
    case ForTree(_, _, _, body) => Open(body)
    case _ => false
  }

  /** The statement does not go on with the condition of an if that it follows. */
  predicate Detached(t: Tree) {
    t.ExprTree? ==> var k := Head(t.expr, 16);
      !IsIncDec(k) && !k.LPAREN? && !k.LBRACKET? && !k.PLUS? && !k.MINUS?
  }

  /** Statements with source text. */
  predicate Writable<V>(d: Dialect<V>, t: Tree)
    decreases t
  {
    match t
    case NoTree => false
    case ExprTree(e) => Printable(d, e)
    case ThrowTree(e) => Printable(d, e)
    case ReturnTree(e) => e.Null? || Printable(d, e)
    case BlockTree(stats) => forall i :: 0 <= i < |stats| ==> Writable(d, stats[i])
    case IfTree(c, yes, no) =>
      Printable(d, c) && Writable(d, yes) && Detached(yes) && (no.NoTree? || (Writable(d, no) && !Open(yes)))
    case TryTree(body, x, handler) => Writable(d, body) && (x.Null? || (x.Ident? && Printable(d, x))) && Writable(d, handler)
    case WhileTree(c, body) => Printable(d, c) && Writable(d, body)
    case ForTree(i, c, n, body) => Printable(d, i) && Printable(d, c) && Printable(d, n) && Writable(d, body)
    case _ => true
  }

  function PrintTree(spell: map<Kind, string>, t: Tree): seq<Token>
    decreases t, 1
  {
    TreeText(spell, t)
  }

  function TreeText(spell: map<Kind, string>, t: Tree): seq<Token>
    decreases t, 0
  {
    match t
    case NoTree => []
    case EmptyTree => [Op(spell, SEMICOLON)]
    case ExprTree(e) => Closed(spell, [], e)
    case ThrowTree(e) => Closed(spell, [Id("throw")], e)
    case ReturnTree(e) => Closed(spell, [Id("return")], e)
    case BreakTree => [Id("break")] + [Op(spell, SEMICOLON)]
    case ContinueTree => [Id("continue")] + [Op(spell, SEMICOLON)]
    case BlockTree(stats) => [Op(spell, LCURLY)] + PrintTrees(spell, stats) + [Op(spell, RCURLY)]
    case IfTree(c, yes, no) => Branches(Print(spell, c, 16), PrintTree(spell, yes), PrintTree(spell, no), !no.NoTree?)
    case TryTree(body, x, handler) => Guarded(PrintTree(spell, body), PrintCatch(spell, x), PrintTree(spell, handler))
    case WhileTree(c, body) => [Id("while")] + PrintCond(spell, c) + PrintTree(spell, body)
    case ForTree(i, c, n, body) => [Id("for")] + PrintForHead(spell, i, c, n) + PrintTree(spell, body)
  }

  function Branches(cond: seq<Token>, yes: seq<Token>, no: seq<Token>, both: bool): seq<Token> {
    var head := [Id("if")] + cond + yes;
    if both then head + [Id("else")] + no else head
  }

  function Guarded(body: seq<Token>, name: seq<Token>, handler: seq<Token>): seq<Token> {
    [Id("try")] + body + ([Id("catch")] + name + handler)
  }

  /** A keyword, if any, an expression and a semicolon. */
  function Closed(spell: map<Kind, string>, word: seq<Token>, e: Ast): seq<Token> {
    word + Print(spell, e, 16) + [Op(spell, SEMICOLON)]
  }

  function PrintCond(spell: map<Kind, string>, c: Ast): seq<Token> {
    [Op(spell, LPAREN)] + Print(spell, c, 16) + [Op(spell, RPAREN)]
  }

  /** The parentheses of a catch are told by their text. */
  function PrintCatch(spell: map<Kind, string>, x: Ast): seq<Token> {
    [Token(LPAREN, "(")] + Print(spell, x, 16) + [Token(RPAREN, ")")]
  }

  function PrintForHead(spell: map<Kind, string>, i: Ast, c: Ast, n: Ast): seq<Token> {
    [Op(spell, LPAREN)] + (Closed(spell, [], i) + (Closed(spell, [], c) + (Print(spell, n, 16) + [Op(spell, RPAREN)])))
  }

  function PrintTrees(spell: map<Kind, string>, ts: seq<Tree>): seq<Token>
    decreases ts, 2
  {
    if ts == [] then [] else PrintTree(spell, ts[0]) + PrintTrees(spell, ts[1..])
  }

  // ------------------------------------------------------------------ scripts

  function PrintNames(spell: map<Kind, string>, names: seq<string>): seq<Token> {
    if names == [] then []
    else if |names| == 1 then [Id(names[0])]
    else [Id(names[0])] + [Op(spell, COMMA)] + PrintNames(spell, names[1..])
  }

  function PrintOutlet(out: Outlet): seq<Token> {
    if out.NoOutlet? then [] else [Token(CHAR_LITERAL, out.name)]
  }

  function PrintTop(spell: map<Kind, string>, t: TopTree): seq<Token> {
    match t
    case FunctionDef(name, params, body) => [Id("function")] + PrintDef(spell, name, params, body)
    case CellDef(name, params, body) => PrintDef(spell, name, params, body)
    case CellInst(name, Regular(ty, args, out)) => PrintInstance(spell, ty, name, PrintList(spell, args), out)
    case CellInst(name, Extern(remote)) => [Id("extern")] + ([Token(CHAR_LITERAL, remote)] + ([Id(name)] + [Op(spell, SEMICOLON)]))
    case CellInst(name, Input(input)) => [Token(CHAR_LITERAL, input)] + ([Id(name)] + [Op(spell, SEMICOLON)])
  }

  function PrintInstance(spell: map<Kind, string>, ty: string, name: string, args: seq<Token>, out: Outlet): seq<Token> {
    [Id(ty)] + ([Id(name)] + ([Op(spell, LPAREN)] + args + [Op(spell, RPAREN)] + (PrintOutlet(out) + [Op(spell, SEMICOLON)])))
  }

  function PrintDef(spell: map<Kind, string>, name: string, params: seq<string>, body: Tree): seq<Token> {
    [Id(name)] + ([Op(spell, LPAREN)] + PrintNames(spell, params) + [Op(spell, RPAREN)] + PrintTree(spell, body))
  }

  function PrintScript(spell: map<Kind, string>, tops: seq<TopTree>): seq<Token> {
    if tops == [] then [] else PrintTop(spell, tops[0]) + PrintScript(spell, tops[1..])
  }

  /** An instance of a cell type called "function" reads like a function. */
  predicate WritableTop<V>(d: Dialect<V>, t: TopTree) {
    match t
    case FunctionDef(_, _, body) => Writable(d, body)
    case CellDef(_, _, body) => Writable(d, body)
    case CellInst(_, Regular(ty, args, _)) => ty != "function" && AllPrintable(d, args)
    case CellInst(_, _) => true
  }

  predicate OpenTop(t: TopTree) {
    (t.FunctionDef? || t.CellDef?) && Open(t.body)
  }

  /** The text begins with the word "else", which can be the name of a cell or of a cell type. */
  predicate ElseTop(t: TopTree) {
    match t
    case FunctionDef(_, _, _) => false
    case CellDef(name, _, _) => name == "else"
    case CellInst(_, Regular(ty, _, _)) => ty == "else"
    case CellInst(_, _) => false
  }

  /** A definition that ends with an if without else is followed by something else than "else". */
  predicate WritableScript<V>(d: Dialect<V>, tops: seq<TopTree>) {
    tops == [] || (
      && WritableTop(d, tops[0]) && WritableScript(d, tops[1..])
      && (OpenTop(tops[0]) ==> |tops| > 1 && !ElseTop(tops[1])))
  }
}
