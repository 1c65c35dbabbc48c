/** What a token list means at statement level: statements, definitions and cell instances. As with
    expressions, these functions follow the parsing routines on values. */
module StatementGrammar {
  import opened Syntax
  import opened Ast
  import opened Grammar

  datatype ParsedTree = ParsedTree(tree: Tree, pos: nat) | WrongTree(at: nat, why: Why)
  datatype ParsedNames = ParsedNames(names: seq<string>, pos: nat) | WrongNames(at: nat, why: Why)

  datatype Placement = Regular(cellType: string, args: seq<Ast>, outputName: Outlet) | Extern(remoteName: string) | Input(inputName: string)
  datatype Outlet = NoOutlet | Outlet(name: string)

  datatype TopTree =
    | FunctionDef(name: string, params: seq<string>, body: Tree)
    | CellDef(name: string, params: seq<string>, body: Tree)
    | CellInst(name: string, placement: Placement)

  datatype ParsedTop = ParsedTop(top: TopTree, pos: nat) | WrongTop(at: nat, why: Why)
  datatype ParsedScript = ParsedScript(tops: seq<TopTree>) | WrongScript(at: nat, why: Why)

  /** The identifier `word` is at `pos`. */
  predicate Word(ts: seq<Token>, pos: nat, word: string) {
    KindAt(ts, pos).IDENTIFIER? && TokenAt(ts, pos).lexeme == word
  }

  /** The complaint about a missing token: running out of tokens is reported as such. */
  function Missing(ts: seq<Token>, pos: nat, why: Why): Why {
    if KindAt(ts, pos).ENDOFFILE? then UnexpectedEnd else why
  }

  /** A statement was read: tokens were consumed, and break and continue are inside loops. */
  predicate Accepts(ts: seq<Token>, inLoop: bool, pos: nat, r: ParsedTree) {
    r.ParsedTree? ==> pos < r.pos <= |ts| && TreeNested(r.tree, inLoop)
  }

  function ParseStatement<V>(d: Dialect<V>, ts: seq<Token>, inLoop: bool, pos: nat): (r: ParsedTree)
    requires pos <= |ts|
    ensures Accepts(ts, inLoop, pos, r)
    decreases |ts| - pos, 1
  {
    if KindAt(ts, pos).SEMICOLON? then ParsedTree(EmptyTree, pos + 1)
    else if Word(ts, pos, "if") then ParseIf(d, ts, inLoop, pos)
    else if Word(ts, pos, "throw") then ParseThrow(d, ts, pos)
    else if Word(ts, pos, "try") then ParseTry(d, ts, inLoop, pos)
    else if Word(ts, pos, "while") then ParseWhile(d, ts, pos)
    else if Word(ts, pos, "for") then ParseFor(d, ts, pos)
    else if KindAt(ts, pos).LCURLY? then
      if KindAt(ts, pos + 1).ENDOFFILE? then WrongTree(pos + 1, UnexpectedEnd)
      else if KindAt(ts, pos + 1).RCURLY? then ParsedTree(BlockTree([]), pos + 2)
      else ParseBlock(d, ts, inLoop, pos + 1, [])
    else if Word(ts, pos, "return") then ParseReturn(d, ts, pos)
    else if Word(ts, pos, "break") then ParseJump(ts, inLoop, pos, BreakTree)
    else if Word(ts, pos, "continue") then ParseJump(ts, inLoop, pos, ContinueTree)
    else ParseExprStatement(d, ts, pos)
  }

  function ParseIf<V>(d: Dialect<V>, ts: seq<Token>, inLoop: bool, pos: nat): (r: ParsedTree)
    requires pos < |ts|
    ensures Accepts(ts, inLoop, pos, r)
    decreases |ts| - pos, 0
  {
    var c := ParseExpr(d, ts, pos + 1);
    if c.Wrong? then WrongTree(c.at, c.why)
    else if c.ast.Null? then WrongTree(c.pos, ConditionExpected)
    else
      var yes := ParseStatement(d, ts, inLoop, c.pos);
      if yes.WrongTree? then yes
      else if KindAt(ts, yes.pos).ENDOFFILE? then WrongTree(yes.pos, UnexpectedEnd)
      else if !Word(ts, yes.pos, "else") then ParsedTree(IfTree(c.ast, yes.tree, NoTree), yes.pos)
      else
        var no := ParseStatement(d, ts, inLoop, yes.pos + 1);
        if no.WrongTree? then no else ParsedTree(IfTree(c.ast, yes.tree, no.tree), no.pos)
  }

  function ParseThrow<V>(d: Dialect<V>, ts: seq<Token>, pos: nat): (r: ParsedTree)
    requires pos < |ts|
    ensures Accepts(ts, false, pos, r) && Accepts(ts, true, pos, r)
  {
    var e := ParseExpr(d, ts, pos + 1);
    if e.Wrong? then WrongTree(e.at, e.why)
    else if e.ast.Null? then WrongTree(e.pos, NothingToThrow)
    else if !KindAt(ts, e.pos).SEMICOLON? then WrongTree(e.pos, Missing(ts, e.pos, SemicolonExpected))
    else ParsedTree(ThrowTree(e.ast), e.pos + 1)
  }

  /** The parentheses of the catch are recognised by their text. */
  function ParseTry<V>(d: Dialect<V>, ts: seq<Token>, inLoop: bool, pos: nat): (r: ParsedTree)
    requires pos < |ts|
    ensures Accepts(ts, inLoop, pos, r)
    decreases |ts| - pos, 0
  {
    var body := ParseStatement(d, ts, inLoop, pos + 1);
    if body.WrongTree? then body
    else if !Word(ts, body.pos, "catch") then WrongTree(body.pos, Missing(ts, body.pos, CatchExpected))
    else
      var name := ParseCatchName(d, ts, body.pos + 1);
      if name.Wrong? then WrongTree(name.at, name.why)
      else
        var handler := ParseStatement(d, ts, inLoop, name.pos);
        if handler.WrongTree? then handler else ParsedTree(TryTree(body.tree, name.ast, handler.tree), handler.pos)
  }

  /** "(" identifier ")" or "(" ")". */
  function ParseCatchName<V>(d: Dialect<V>, ts: seq<Token>, pos: nat): (r: Parsed)
    requires pos <= |ts|
    ensures r.Parsed? ==> pos < r.pos <= |ts| && (r.ast.Null? || r.ast.Ident?)
  {
    if KindAt(ts, pos).ENDOFFILE? then Wrong(pos, UnexpectedEnd)
    else if TokenAt(ts, pos).lexeme != "(" then Wrong(pos, CatchParenExpected)
    else if KindAt(ts, pos + 1).ENDOFFILE? then Wrong(pos + 1, UnexpectedEnd)
    else if KindAt(ts, pos + 1).IDENTIFIER? then
      var e := ParseExpr(d, ts, pos + 1);
      if e.Wrong? then e
      else if !e.ast.Ident? then Wrong(e.pos, CatchNameExpected)
      else if KindAt(ts, e.pos).ENDOFFILE? then Wrong(e.pos, UnexpectedEnd)
      else if TokenAt(ts, e.pos).lexeme != ")" then Wrong(e.pos, ParenExpected)
      else Parsed(e.ast, e.pos + 1)
    else if TokenAt(ts, pos + 1).lexeme != ")" then Wrong(pos + 1, CatchNameExpected)
    else Parsed(Null, pos + 2)
  }

  function ParseWhile<V>(d: Dialect<V>, ts: seq<Token>, pos: nat): (r: ParsedTree)
    requires pos < |ts|
    ensures Accepts(ts, false, pos, r) && Accepts(ts, true, pos, r)
    decreases |ts| - pos, 0
  {
    if !KindAt(ts, pos + 1).LPAREN? then WrongTree(pos + 1, Missing(ts, pos + 1, ConditionExpected))
    else
      var c := ParseExpr(d, ts, pos + 2);
      if c.Wrong? then WrongTree(c.at, c.why)
      else if c.ast.Null? then WrongTree(c.pos, ConditionExpected)
      else if !KindAt(ts, c.pos).RPAREN? then WrongTree(c.pos, Missing(ts, c.pos, ConditionExpected))
      else
        var body := ParseStatement(d, ts, true, c.pos + 1);
        if body.WrongTree? then body else ParsedTree(WhileTree(c.ast, body.tree), body.pos)
  }

  /** One of the three parts of a for; a semicolon in its place stands for the literal `filler`. */
  function ParseForPart<V>(d: Dialect<V>, ts: seq<Token>, pos: nat, filler: string): (r: Parsed)
    requires pos <= |ts|
    ensures r.Parsed? ==> pos <= r.pos <= |ts| && !r.ast.Null?
  {
    if KindAt(ts, pos).ENDOFFILE? then Wrong(pos, UnexpectedEnd)
    else if KindAt(ts, pos).SEMICOLON? then Parsed(Literal(BoolLit, filler), pos)
    else
      var e := ParseExpr(d, ts, pos);
      if e.Wrong? then e else if e.ast.Null? then Wrong(e.pos, ExpressionExpected) else e
  }

  /** A part of a for and what ends it. */
  function ParseForPartThen<V>(d: Dialect<V>, ts: seq<Token>, pos: nat, filler: string, last: bool): (r: Parsed)
    requires pos <= |ts|
    ensures r.Parsed? ==> pos < r.pos <= |ts| && !r.ast.Null?
  {
    var e := ParseForPart(d, ts, pos, filler);
    if e.Wrong? then e
    else if last && !KindAt(ts, e.pos).RPAREN? then Wrong(e.pos, Missing(ts, e.pos, ParenExpected))
    else if !last && !KindAt(ts, e.pos).SEMICOLON? then Wrong(e.pos, Missing(ts, e.pos, SemicolonExpected))
    else Parsed(e.ast, e.pos + 1)
  }

  /** The three parts of a for, from the opening parenthesis to the closing one. */
  function ParseForHead<V>(d: Dialect<V>, ts: seq<Token>, pos: nat): (r: ParsedList)
    requires pos <= |ts|
    ensures ListAdvances(ts, pos, r) && (r.ParsedList? ==> |r.asts| == 3)
  {
    if !KindAt(ts, pos).LPAREN? then WrongList(pos, Missing(ts, pos, ParenExpected))
    else
      var init := ParseForPartThen(d, ts, pos + 1, "false", false);
      if init.Wrong? then WrongList(init.at, init.why)
      else
        var cond := ParseForPartThen(d, ts, init.pos, "true", false);
        if cond.Wrong? then WrongList(cond.at, cond.why)
        else
          var incr := ParseForPartThen(d, ts, cond.pos, "false", true);
          if incr.Wrong? then WrongList(incr.at, incr.why) else ParsedList([init.ast, cond.ast, incr.ast], incr.pos)
  }

  function ParseFor<V>(d: Dialect<V>, ts: seq<Token>, pos: nat): (r: ParsedTree)
    requires pos < |ts|
    ensures Accepts(ts, false, pos, r) && Accepts(ts, true, pos, r)
    decreases |ts| - pos, 0
  {
    var head := ParseForHead(d, ts, pos + 1);
    if head.WrongList? then WrongTree(head.at, head.why)
    else
      var body := ParseStatement(d, ts, true, head.pos);
      if body.WrongTree? then body else ParsedTree(ForTree(head.asts[0], head.asts[1], head.asts[2], body.tree), body.pos)
  }

  /** The statements of a block up to its closing brace, `acc` being those read so far. */
  function ParseBlock<V>(d: Dialect<V>, ts: seq<Token>, inLoop: bool, pos: nat, acc: seq<Tree>): (r: ParsedTree)
    requires pos <= |ts| && forall i :: 0 <= i < |acc| ==> TreeNested(acc[i], inLoop)
    ensures Accepts(ts, inLoop, pos, r)
    decreases |ts| - pos, 2
  {
    var s := ParseStatement(d, ts, inLoop, pos);
    if s.WrongTree? then s
    else if KindAt(ts, s.pos).ENDOFFILE? then WrongTree(s.pos, UnexpectedEnd)
    else if KindAt(ts, s.pos).RCURLY? then ParsedTree(BlockTree(acc + [s.tree]), s.pos + 1)
    else ParseBlock(d, ts, inLoop, s.pos, acc + [s.tree])
  }

  function ParseReturn<V>(d: Dialect<V>, ts: seq<Token>, pos: nat): (r: ParsedTree)
    requires pos < |ts|
    ensures Accepts(ts, false, pos, r) && Accepts(ts, true, pos, r)
  {
    var e := ParseExpr(d, ts, pos + 1);
    if e.Wrong? then WrongTree(e.at, e.why)
    else if !KindAt(ts, e.pos).SEMICOLON? then WrongTree(e.pos, Missing(ts, e.pos, SemicolonExpected))
    else ParsedTree(ReturnTree(e.ast), e.pos + 1)
  }

  /** Break and continue are refused outside loops. */
  function ParseJump(ts: seq<Token>, inLoop: bool, pos: nat, jump: Tree): (r: ParsedTree)
    requires pos < |ts| && (jump.BreakTree? || jump.ContinueTree?)
    ensures Accepts(ts, inLoop, pos, r) && (!inLoop ==> r.WrongTree?)
  {
    if !inLoop then WrongTree(pos, OutsideLoop)
    else if !KindAt(ts, pos + 1).SEMICOLON? then WrongTree(pos + 1, Missing(ts, pos + 1, SemicolonExpected))
    else ParsedTree(jump, pos + 2)
  }

  /** Where no expression is found a semicolon is swallowed before the statement is refused. */
  function ParseExprStatement<V>(d: Dialect<V>, ts: seq<Token>, pos: nat): (r: ParsedTree)
    requires pos <= |ts|
    ensures Accepts(ts, false, pos, r) && Accepts(ts, true, pos, r)
  {
    var e := ParseExpr(d, ts, pos);
    if e.Wrong? then WrongTree(e.at, e.why)
    else if e.ast.Null? then WrongTree(if KindAt(ts, e.pos).SEMICOLON? then e.pos + 1 else e.pos, InvalidStatement)
    else if !KindAt(ts, e.pos).SEMICOLON? then WrongTree(e.pos, Missing(ts, e.pos, SemicolonExpected))
    else ParsedTree(ExprTree(e.ast), e.pos + 1)
  }

  // ------------------------------------------------------------------ definitions and cell instances

  /** Names up to the closing parenthesis; a comma may precede it. */
  function ParseNames(ts: seq<Token>, pos: nat, acc: seq<string>): (r: ParsedNames)
    requires pos <= |ts|
    ensures r.ParsedNames? ==> pos < r.pos <= |ts|
    decreases |ts| - pos
  {
    if KindAt(ts, pos).IDENTIFIER? then
      var acc' := acc + [TokenAt(ts, pos).lexeme];
      if KindAt(ts, pos + 1).COMMA? then ParseNames(ts, pos + 2, acc')
      else if KindAt(ts, pos + 1).RPAREN? then ParsedNames(acc', pos + 2)
      else WrongNames(pos + 1, Missing(ts, pos + 1, BadNameList))
    else if KindAt(ts, pos).RPAREN? then ParsedNames(acc, pos + 1)
    else WrongNames(pos, Missing(ts, pos, BadNameList))
  }

  /** Actual arguments of a cell; a missing expression is taken as an argument. */
  function ParseCellArgs<V>(d: Dialect<V>, ts: seq<Token>, pos: nat, acc: seq<Ast>): (r: ParsedList)
    requires pos <= |ts|
    ensures ListAdvances(ts, pos, r)
    decreases |ts| - pos
  {
    if KindAt(ts, pos).RPAREN? then ParsedList(acc, pos + 1)
    else
      var e := ParseExpr(d, ts, pos);
      if e.Wrong? then WrongList(e.at, e.why)
      else if KindAt(ts, e.pos).COMMA? then ParseCellArgs(d, ts, e.pos + 1, acc + [e.ast])
      else if KindAt(ts, e.pos).RPAREN? then ParsedList(acc + [e.ast], e.pos + 1)
      else WrongList(e.pos, Missing(ts, e.pos, BadCellArguments))
  }

  /** The body of a definition begins at `pos`; no loop encloses it. */
  function ParseBody<V>(d: Dialect<V>, ts: seq<Token>, pos: nat): (r: ParsedTree)
    requires pos <= |ts|
    ensures Accepts(ts, false, pos, r)
  {
    ParseStatement(d, ts, false, pos)
  }

  /** What a script may consist of: definitions have bodies that contain no stray jumps. */
  predicate TopNested(t: TopTree) {
    match t
    case FunctionDef(_, _, body) => TreeNested(body, false)
    case CellDef(_, _, body) => TreeNested(body, false)
    case CellInst(_, _) => true
  }

  function ParseTop<V>(d: Dialect<V>, ts: seq<Token>, pos: nat): (r: ParsedTop)
    requires pos <= |ts|
    ensures r.ParsedTop? ==> pos < r.pos <= |ts| && TopNested(r.top)
  {
    if TokenAt(ts, pos).lexeme == "function" && KindAt(ts, pos + 1).IDENTIFIER? && KindAt(ts, pos + 2).LPAREN? then
      var names := ParseNames(ts, pos + 3, []);
      if names.WrongNames? then WrongTop(names.at, names.why)
      else
        var body := ParseBody(d, ts, names.pos);
        if body.WrongTree? then WrongTop(body.at, body.why)
        else ParsedTop(FunctionDef(TokenAt(ts, pos + 1).lexeme, names.names, body.tree), body.pos)
    else if KindAt(ts, pos).IDENTIFIER? && KindAt(ts, pos + 1).LPAREN? then
      var names := ParseNames(ts, pos + 2, []);
      if names.WrongNames? then WrongTop(names.at, names.why)
      else
        var body := ParseBody(d, ts, names.pos);
        if body.WrongTree? then WrongTop(body.at, body.why)
        else ParsedTop(CellDef(TokenAt(ts, pos).lexeme, names.names, body.tree), body.pos)
    else ParseInstance(d, ts, pos)
  }

  function ParseInstance<V>(d: Dialect<V>, ts: seq<Token>, pos: nat): (r: ParsedTop)
    requires pos <= |ts|
    ensures r.ParsedTop? ==> pos < r.pos <= |ts| && r.top.CellInst?
  {
    if KindAt(ts, pos).IDENTIFIER? && KindAt(ts, pos + 1).IDENTIFIER? && KindAt(ts, pos + 2).LPAREN? then
      if KindAt(ts, pos + 3).ENDOFFILE? then WrongTop(pos + 3, UnexpectedEnd)
      else ParseRegular(d, ts, pos)
    else if Word(ts, pos, "extern") && KindAt(ts, pos + 1).CHAR_LITERAL? && KindAt(ts, pos + 2).IDENTIFIER? then
      Ended(ts, CellInst(TokenAt(ts, pos + 2).lexeme, Extern(TokenAt(ts, pos + 1).lexeme)), pos + 3)
    else if KindAt(ts, pos).CHAR_LITERAL? && KindAt(ts, pos + 1).IDENTIFIER? then
      Ended(ts, CellInst(TokenAt(ts, pos + 1).lexeme, Input(TokenAt(ts, pos).lexeme)), pos + 2)
    else WrongTop(pos, InvalidStatement)
  }

  /** An instance ends with a semicolon. */
  function Ended(ts: seq<Token>, top: TopTree, pos: nat): (r: ParsedTop)
    requires pos <= |ts|
    ensures r.ParsedTop? ==> r == ParsedTop(top, pos + 1) && pos < |ts|
  {
    if KindAt(ts, pos).SEMICOLON? then ParsedTop(top, pos + 1) else WrongTop(pos, Missing(ts, pos, SemicolonExpected))
  }

  function ParseRegular<V>(d: Dialect<V>, ts: seq<Token>, pos: nat): (r: ParsedTop)
    requires pos + 3 <= |ts|
    ensures r.ParsedTop? ==> pos < r.pos <= |ts| && r.top.CellInst?
  {
    var args := ParseCellArgs(d, ts, pos + 3, []);
    var typ, name := TokenAt(ts, pos).lexeme, TokenAt(ts, pos + 1).lexeme;
    if args.WrongList? then WrongTop(args.at, args.why)
    else if KindAt(ts, args.pos).CHAR_LITERAL? then
      Ended(ts, CellInst(name, Regular(typ, args.asts, Outlet(TokenAt(ts, args.pos).lexeme))), args.pos + 1)
    else Ended(ts, CellInst(name, Regular(typ, args.asts, NoOutlet)), args.pos)
  }

  /** The whole script, `acc` being what has been read before `pos`. */
  function ParseScript<V>(d: Dialect<V>, ts: seq<Token>, pos: nat, acc: seq<TopTree>): (r: ParsedScript)
    requires pos <= |ts| && forall t :: t in acc ==> TopNested(t)
    ensures r.ParsedScript? ==> forall t :: t in r.tops ==> TopNested(t)
    decreases |ts| - pos
  {
    if KindAt(ts, pos).ENDOFFILE? then ParsedScript(acc)
    else
      var t := ParseTop(d, ts, pos);
      if t.WrongTop? then WrongScript(t.at, t.why) else ParseScript(d, ts, t.pos, acc + [t.top])
  }
}
