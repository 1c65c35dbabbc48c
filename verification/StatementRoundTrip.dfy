/** Statements and scripts are parsed back from their text. First one parsing step for each kind of
    statement: if its parts are read back where they stand, so is the statement. Then the induction
    over statements, which joins these steps with the layout of printed text, and the same for
    definitions, cell instances and whole scripts. Wherever the text stands, exactly its tokens are
    consumed, and what follows matters only after an if without else. */
module StatementRoundTrip {
  import opened Syntax
  import opened Ast
  import opened Grammar
  import opened StatementGrammar
  import opened Printer
  import opened StatementPrinter
  import opened RoundTrip
  import opened StatementLayout

  // ------------------------------------------------------------------ one parsing step

  lemma ExprStep<V>(d: Dialect<V>, ts: seq<Token>, pos: nat, inLoop: bool, e: Ast, end: nat)
    requires pos < end <= |ts| && ParseExpr(d, ts, pos) == Parsed(e, end - 1) && KindAt(ts, end - 1).SEMICOLON?
    requires !e.Null? && Begins(KindAt(ts, pos)) && (KindAt(ts, pos).IDENTIFIER? ==> TokenAt(ts, pos).lexeme !in KEYWORDS)
    ensures ParseStatement(d, ts, inLoop, pos) == ParsedTree(ExprTree(e), end)
  {
    assert ParseExprStatement(d, ts, pos) == ParsedTree(ExprTree(e), end);
    assert !KindAt(ts, pos).SEMICOLON? && !KindAt(ts, pos).LCURLY?;
  }

  lemma ThrowStep<V>(d: Dialect<V>, ts: seq<Token>, pos: nat, inLoop: bool, e: Ast, end: nat)
    requires pos + 1 < end <= |ts| && TokenAt(ts, pos) == Id("throw") && !e.Null?
    requires ParseExpr(d, ts, pos + 1) == Parsed(e, end - 1) && KindAt(ts, end - 1).SEMICOLON?
    ensures ParseStatement(d, ts, inLoop, pos) == ParsedTree(ThrowTree(e), end)
  {
    assert ParseThrow(d, ts, pos) == ParsedTree(ThrowTree(e), end);
  }

  lemma ReturnStep<V>(d: Dialect<V>, ts: seq<Token>, pos: nat, inLoop: bool, e: Ast, end: nat)
    requires pos + 1 < end <= |ts| && TokenAt(ts, pos) == Id("return")
    requires ParseExpr(d, ts, pos + 1) == Parsed(e, end - 1) && KindAt(ts, end - 1).SEMICOLON?
    ensures ParseStatement(d, ts, inLoop, pos) == ParsedTree(ReturnTree(e), end)
  {
    assert ParseReturn(d, ts, pos) == ParsedTree(ReturnTree(e), end);
  }

  lemma IfStep<V>(d: Dialect<V>, ts: seq<Token>, pos: nat, inLoop: bool, c: Ast, mid: nat, yes: Tree, end: nat)
    requires pos < mid <= |ts| && TokenAt(ts, pos) == Id("if") && !c.Null? && ParseExpr(d, ts, pos + 1) == Parsed(c, mid)
    requires ParseStatement(d, ts, inLoop, mid) == ParsedTree(yes, end)
    requires !KindAt(ts, end).ENDOFFILE? && !Word(ts, end, "else")
    ensures ParseStatement(d, ts, inLoop, pos) == ParsedTree(IfTree(c, yes, NoTree), end)
  {
    assert ParseIf(d, ts, inLoop, pos) == ParsedTree(IfTree(c, yes, NoTree), end);
  }

  lemma IfElseStep<V>(d: Dialect<V>, ts: seq<Token>, pos: nat, inLoop: bool, c: Ast, mid: nat, yes: Tree, end: nat, no: Tree, last: nat)
    requires pos < mid <= |ts| && TokenAt(ts, pos) == Id("if") && !c.Null? && ParseExpr(d, ts, pos + 1) == Parsed(c, mid)
    requires ParseStatement(d, ts, inLoop, mid) == ParsedTree(yes, end)
    requires end < |ts| && TokenAt(ts, end) == Id("else") && ParseStatement(d, ts, inLoop, end + 1) == ParsedTree(no, last)
    ensures ParseStatement(d, ts, inLoop, pos) == ParsedTree(IfTree(c, yes, no), last)
  {
    assert ParseIf(d, ts, inLoop, pos) == ParsedTree(IfTree(c, yes, no), last);
  }

  lemma TryStep<V>(d: Dialect<V>, ts: seq<Token>, pos: nat, inLoop: bool, body: Tree, mid: nat, x: Ast, next: nat, handler: Tree, end: nat)
    requires pos < |ts| && TokenAt(ts, pos) == Id("try") && ParseStatement(d, ts, inLoop, pos + 1) == ParsedTree(body, mid)
    requires mid < |ts| && TokenAt(ts, mid) == Id("catch") && ParseCatchName(d, ts, mid + 1) == Parsed(x, next)
    requires next <= |ts| && ParseStatement(d, ts, inLoop, next) == ParsedTree(handler, end)
    ensures ParseStatement(d, ts, inLoop, pos) == ParsedTree(TryTree(body, x, handler), end)
  {
    assert ParseTry(d, ts, inLoop, pos) == ParsedTree(TryTree(body, x, handler), end);
  }

  lemma WhileStep<V>(d: Dialect<V>, ts: seq<Token>, pos: nat, inLoop: bool, c: Ast, next: nat, body: Tree, end: nat)
    requires pos + 2 < next <= |ts| && TokenAt(ts, pos) == Id("while") && KindAt(ts, pos + 1).LPAREN? && !c.Null?
    requires ParseExpr(d, ts, pos + 2) == Parsed(c, next - 1) && KindAt(ts, next - 1).RPAREN?
    requires ParseStatement(d, ts, true, next) == ParsedTree(body, end)
    ensures ParseStatement(d, ts, inLoop, pos) == ParsedTree(WhileTree(c, body), end)
  {
    assert ParseWhile(d, ts, pos) == ParsedTree(WhileTree(c, body), end);
  }

  lemma ForStep<V>(d: Dialect<V>, ts: seq<Token>, pos: nat, inLoop: bool, t: Tree, next: nat, end: nat)
    requires t.ForTree? && pos < |ts| && TokenAt(ts, pos) == Id("for") && ParseForHead(d, ts, pos + 1) == ParsedList([t.init, t.cond, t.incr], next)
    requires next <= |ts| && ParseStatement(d, ts, true, next) == ParsedTree(t.body, end)
    ensures ParseStatement(d, ts, inLoop, pos) == ParsedTree(t, end)
  {
    assert ParseFor(d, ts, pos) == ParsedTree(t, end);
  }

  lemma ReadingJump<V>(d: Dialect<V>, spell: map<Kind, string>, ts: seq<Token>, pos: nat, t: Tree, inLoop: bool, end: nat)
    requires Ready(d, spell, ts, pos, t, inLoop, end) && (t.BreakTree? || t.ContinueTree?)
    ensures pos <= |ts| && ParseStatement(d, ts, inLoop, pos) == ParsedTree(t, end)
  {
    var word := KeywordOf(t);
    assert PrintTree(spell, t) == [Id(word)] + [Op(spell, SEMICOLON)];
    AtSplit(ts, pos, [Id(word)], [Op(spell, SEMICOLON)]);
    AtOne(ts, pos, Id(word));
    AtOne(ts, pos + 1, Op(spell, SEMICOLON));
    assert ParseJump(ts, inLoop, pos, t) == ParsedTree(t, end);
  }

  // ------------------------------------------------------------------ the round trip of statements

  /** Wherever the text of a statement stands, it is read back and exactly its tokens are consumed. */
  lemma {:induction false} ReadingStatement<V>(d: Dialect<V>, spell: map<Kind, string>, ts: seq<Token>, pos: nat, t: Tree, inLoop: bool, end: nat)
    requires Ready(d, spell, ts, pos, t, inLoop, end)
    ensures pos <= |ts| && ParseStatement(d, ts, inLoop, pos) == ParsedTree(t, end)
    decreases t, 1
  {
    match t
    case EmptyTree => AtOne(ts, pos, Op(spell, SEMICOLON));
    case ExprTree(e) =>
      ExprParts(d, spell, ts, pos, e, inLoop, end);
      ExprStep(d, ts, pos, inLoop, e, end);
    case ThrowTree(e) =>
      WordedParts(d, spell, ts, pos, t, inLoop, end);
      ThrowStep(d, ts, pos, inLoop, e, end);
    case ReturnTree(e) =>
      WordedParts(d, spell, ts, pos, t, inLoop, end);
      ReturnStep(d, ts, pos, inLoop, e, end);
    case BreakTree => ReadingJump(d, spell, ts, pos, t, inLoop, end);
    case ContinueTree => ReadingJump(d, spell, ts, pos, t, inLoop, end);
    case BlockTree(stats) => ReadingBlock(d, spell, ts, pos, stats, inLoop, end);
    case IfTree(_, _, _) => ReadingIf(d, spell, ts, pos, t, inLoop, end);
    case TryTree(_, _, _) => ReadingTry(d, spell, ts, pos, t, inLoop, end);
    case WhileTree(c, body) => ReadingLoop(d, spell, ts, pos, t, inLoop, end);
    case ForTree(_, _, _, body) => ReadingLoop(d, spell, ts, pos, t, inLoop, end);
  }

  lemma {:induction false} ReadingIf<V>(d: Dialect<V>, spell: map<Kind, string>, ts: seq<Token>, pos: nat, t: Tree, inLoop: bool, end: nat)
    requires Ready(d, spell, ts, pos, t, inLoop, end) && t.IfTree?
    ensures pos <= |ts| && ParseStatement(d, ts, inLoop, pos) == ParsedTree(t, end)
    decreases t, 0
  {
    var mid, stop := IfParts(d, spell, ts, pos, t, inLoop, end);
    ReadingStatement(d, spell, ts, mid, t.yes, inLoop, stop);
    if t.no.NoTree? {
      IfStep(d, ts, pos, inLoop, t.cond, mid, t.yes, end);
    } else {
      ReadingStatement(d, spell, ts, stop + 1, t.no, inLoop, end);
      IfElseStep(d, ts, pos, inLoop, t.cond, mid, t.yes, stop, t.no, end);
    }
  }

  lemma {:induction false} ReadingTry<V>(d: Dialect<V>, spell: map<Kind, string>, ts: seq<Token>, pos: nat, t: Tree, inLoop: bool, end: nat)
    requires Ready(d, spell, ts, pos, t, inLoop, end) && t.TryTree?
    ensures pos <= |ts| && ParseStatement(d, ts, inLoop, pos) == ParsedTree(t, end)
    decreases t, 0
  {
    var mid, next := TryParts(d, spell, ts, pos, t, inLoop, end);
    ReadingStatement(d, spell, ts, pos + 1, t.body, inLoop, mid);
    ReadingStatement(d, spell, ts, next, t.handler, inLoop, end);
    TryStep(d, ts, pos, inLoop, t.body, mid, t.catchExpr, next, t.handler, end);
  }

  lemma {:induction false} ReadingLoop<V>(d: Dialect<V>, spell: map<Kind, string>, ts: seq<Token>, pos: nat, t: Tree, inLoop: bool, end: nat)
    requires Ready(d, spell, ts, pos, t, inLoop, end) && (t.WhileTree? || t.ForTree?)
    ensures pos <= |ts| && ParseStatement(d, ts, inLoop, pos) == ParsedTree(t, end)
    decreases t, 0
  {
    if t.WhileTree? {
      var next := WhileParts(d, spell, ts, pos, t, inLoop, end);
      ReadingStatement(d, spell, ts, next, t.body, true, end);
      WhileStep(d, ts, pos, inLoop, t.cond, next, t.body, end);
    } else {
      var next := ForParts(d, spell, ts, pos, t, inLoop, end);
      ReadingStatement(d, spell, ts, next, t.body, true, end);
      ForStep(d, ts, pos, inLoop, t, next, end);
    }
  }

  lemma {:induction false} ReadingBlock<V>(d: Dialect<V>, spell: map<Kind, string>, ts: seq<Token>, pos: nat, stats: seq<Tree>, inLoop: bool, end: nat)
    requires Ready(d, spell, ts, pos, BlockTree(stats), inLoop, end)
    ensures pos <= |ts| && ParseStatement(d, ts, inLoop, pos) == ParsedTree(BlockTree(stats), end)
    decreases BlockTree(stats), 0
  {
    BlockParts(d, spell, ts, pos, stats, inLoop, end);
    if stats != [] {
      SecondStarts(d, spell, ts, pos + 1, stats);
      ReadingStatements(d, spell, ts, pos + 1, stats, [], inLoop, end - 1);
      assert [] + stats == stats;
      BlockStep(d, ts, pos, inLoop, stats, end);
    }
  }

  lemma BlockStep<V>(d: Dialect<V>, ts: seq<Token>, pos: nat, inLoop: bool, stats: seq<Tree>, end: nat)
    requires pos + 1 <= |ts| && KindAt(ts, pos).LCURLY? && Starts(ts, pos + 1) && ParseBlock(d, ts, inLoop, pos + 1, []) == ParsedTree(BlockTree(stats), end)
    ensures ParseStatement(d, ts, inLoop, pos) == ParsedTree(BlockTree(stats), end)
  {
  }

  /** The statements of a block, up to its closing brace. */
  lemma {:induction false} ReadingStatements<V>(d: Dialect<V>, spell: map<Kind, string>, ts: seq<Token>, pos: nat, stats: seq<Tree>, acc: seq<Tree>, inLoop: bool, end: nat)
    requires stats != [] && ReadyAll(d, spell, ts, pos, stats, inLoop, end)
    requires forall i :: 0 <= i < |acc| ==> TreeNested(acc[i], inLoop)
    ensures pos <= |ts| && ParseBlock(d, ts, inLoop, pos, acc) == ParsedTree(BlockTree(acc + stats), end + 1)
    decreases stats, 2
  {
    var next := FirstParts(d, spell, ts, pos, stats, inLoop, end);
    ReadingStatement(d, spell, ts, pos, stats[0], inLoop, next);
    if |stats| == 1 {
      assert acc + stats == acc + [stats[0]];
    } else {
      ReadingStatements(d, spell, ts, next, stats[1..], acc + [stats[0]], inLoop, end);
      assert acc + stats == acc + [stats[0]] + stats[1..];
    }
  }

  /** The round trip of statements: the text of a statement is parsed to the same tree, whatever
      follows, unless it ends with an if without else and what follows is `else` or the end. */
  lemma StatementRoundTrip<V>(d: Dialect<V>, spell: map<Kind, string>, t: Tree, inLoop: bool, before: seq<Token>, after: seq<Token>)
    requires Writable(d, t) && TreeNested(t, inLoop)
    requires Open(t) ==> after != [] && !after[0].kind.ENDOFFILE? && after[0] != Id("else")
    ensures var xs := PrintTree(spell, t);
      ParseStatement(d, before + xs + after, inLoop, |before|) == ParsedTree(t, |before| + |xs|)
  {
    var xs := PrintTree(spell, t);
    AtMiddle(before, xs, after);
    ReadingText(d, spell, before + xs + after, |before|, t, inLoop, |before| + |xs|);
  }

  lemma ReadingText<V>(d: Dialect<V>, spell: map<Kind, string>, ts: seq<Token>, pos: nat, t: Tree, inLoop: bool, end: nat)
    requires Writable(d, t) && TreeNested(t, inLoop) && At(ts, pos, PrintTree(spell, t)) && Settles(ts, t, end) && end == pos + |PrintTree(spell, t)|
    ensures end <= |ts| && ParseStatement(d, ts, inLoop, pos) == ParsedTree(t, end)
  {
    ReadingStatement(d, spell, ts, pos, t, inLoop, end);
  }

  lemma AtMiddle(before: seq<Token>, xs: seq<Token>, after: seq<Token>)
    ensures var ts := before + xs + after;
      At(ts, |before|, xs) && TokenAt(ts, |before| + |xs|) == if after == [] then Token(ENDOFFILE, "") else after[0]
  {
  }

  /** The condition on open branches is no accident: these two trees have the same text, and the
      parser reads it as the first one. */
  lemma ElseGoesToTheNearestIf(spell: map<Kind, string>, a: Ast, b: Ast, yes: Tree, no: Tree)
    requires !no.NoTree?
    ensures PrintTree(spell, IfTree(a, IfTree(b, yes, no), NoTree)) == PrintTree(spell, IfTree(a, IfTree(b, yes, NoTree), no))
  {
    IfText(spell, b, yes, no);
    IfText(spell, b, yes, NoTree);
    IfText(spell, a, IfTree(b, yes, no), NoTree);
    IfText(spell, a, IfTree(b, yes, NoTree), no);
    BranchesMeet(Print(spell, a, 16), Print(spell, b, 16), PrintTree(spell, yes), PrintTree(spell, no));
  }

  lemma IfText(spell: map<Kind, string>, c: Ast, yes: Tree, no: Tree)
    ensures PrintTree(spell, IfTree(c, yes, no)) == Branches(Print(spell, c, 16), PrintTree(spell, yes), if no.NoTree? then [] else PrintTree(spell, no), !no.NoTree?)
  {
  }

  lemma BranchesMeet(cs: seq<Token>, ds: seq<Token>, ys: seq<Token>, zs: seq<Token>)
    ensures Branches(cs, Branches(ds, ys, zs, true), [], false) == Branches(cs, Branches(ds, ys, [], false), zs, true)
  {
  }

  // ------------------------------------------------------------------ definitions, instances, scripts

  lemma {:induction false} ReadingNames(spell: map<Kind, string>, ts: seq<Token>, pos: nat, names: seq<string>, acc: seq<string>)
    requires At(ts, pos, PrintNames(spell, names)) && KindAt(ts, pos + |PrintNames(spell, names)|).RPAREN?
    ensures ParseNames(ts, pos, acc) == ParsedNames(acc + names, pos + |PrintNames(spell, names)| + 1)
    decreases |names|
  {
    if names == [] {
      assert acc + names == acc;
    } else if |names| == 1 {
      AtOne(ts, pos, Id(names[0]));
      assert acc + names == acc + [names[0]];
    } else {
      AtInfix(ts, pos, [Id(names[0])], Op(spell, COMMA), PrintNames(spell, names[1..]));
      AtOne(ts, pos, Id(names[0]));
      ReadingNames(spell, ts, pos + 2, names[1..], acc + [names[0]]);
      assert acc + names == acc + [names[0]] + names[1..];
    }
  }

  lemma {:induction false} ReadingCellArgs<V>(d: Dialect<V>, spell: map<Kind, string>, ts: seq<Token>, pos: nat, args: seq<Ast>, acc: seq<Ast>)
    requires AllPrintable(d, args) && At(ts, pos, PrintList(spell, args)) && KindAt(ts, pos + |PrintList(spell, args)|).RPAREN?
    ensures ParseCellArgs(d, ts, pos, acc) == ParsedList(acc + args, pos + |PrintList(spell, args)| + 1)
    decreases |args|
  {
    if args == [] {
      assert acc + args == acc;
    } else {
      if |args| > 1 {
        AtList(spell, ts, pos, args, Print(spell, args[0], 16), PrintList(spell, args[1..]));
      }
      var next := pos + |Print(spell, args[0], 16)|;
      DelimitersStop(KindAt(ts, next));
      ReadsExpr(d, spell, ts, pos, args[0]);
      if |args| == 1 {
        assert acc + args == acc + [args[0]];
      } else {
        ReadingCellArgs(d, spell, ts, next + 1, args[1..], acc + [args[0]]);
        assert acc + args == acc + [args[0]] + args[1..];
      }
    }
  }

  /** The text of `t` stands between `pos` and `end`. */
  ghost predicate ReadyTop<V>(d: Dialect<V>, spell: map<Kind, string>, ts: seq<Token>, pos: nat, t: TopTree, end: nat) {
    && WritableTop(d, t) && TopNested(t) && At(ts, pos, PrintTop(spell, t)) && end == pos + |PrintTop(spell, t)|
    && (OpenTop(t) ==> !KindAt(ts, end).ENDOFFILE? && !Word(ts, end, "else"))
  }

  lemma ReadingTop<V>(d: Dialect<V>, spell: map<Kind, string>, ts: seq<Token>, pos: nat, t: TopTree, end: nat)
    requires ReadyTop(d, spell, ts, pos, t, end)
    ensures pos <= |ts| && ParseTop(d, ts, pos) == ParsedTop(t, end)
  {
    if t.FunctionDef? {
      ReadingFunction(d, spell, ts, pos, t, end);
    } else if t.CellDef? {
      ReadingCell(d, spell, ts, pos, t, end);
    } else {
      ReadingInstance(d, spell, ts, pos, t, end);
    }
  }

  lemma ReadingFunction<V>(d: Dialect<V>, spell: map<Kind, string>, ts: seq<Token>, pos: nat, t: TopTree, end: nat)
    requires ReadyTop(d, spell, ts, pos, t, end) && t.FunctionDef?
    ensures pos <= |ts| && ParseTop(d, ts, pos) == ParsedTop(t, end)
  {
    AtSplit(ts, pos, [Id("function")], PrintDef(spell, t.name, t.params, t.body));
    AtOne(ts, pos, Id("function"));
    ReadingDef(d, spell, ts, pos + 1, t.name, t.params, t.body, end);
    FunctionStep(d, ts, pos, t, end);
  }

  /** What the parser has found behind the opening parenthesis of a definition. */
  ghost predicate ReadsDef<V>(d: Dialect<V>, ts: seq<Token>, pos: nat, name: string, params: seq<string>, body: Tree, end: nat) {
    pos + 2 <= |ts| && TokenAt(ts, pos) == Id(name) && KindAt(ts, pos + 1).LPAREN? &&
    var names := ParseNames(ts, pos + 2, []);
    names.ParsedNames? && names.names == params && ParseBody(d, ts, names.pos) == ParsedTree(body, end)
  }

  lemma FunctionStep<V>(d: Dialect<V>, ts: seq<Token>, pos: nat, t: TopTree, end: nat)
    requires t.FunctionDef? && TokenAt(ts, pos) == Id("function") && ReadsDef(d, ts, pos + 1, t.name, t.params, t.body, end)
    ensures pos <= |ts| && ParseTop(d, ts, pos) == ParsedTop(t, end)
  {
  }

  lemma CellStep<V>(d: Dialect<V>, ts: seq<Token>, pos: nat, t: TopTree, end: nat)
    requires t.CellDef? && ReadsDef(d, ts, pos, t.name, t.params, t.body, end)
    ensures pos <= |ts| && ParseTop(d, ts, pos) == ParsedTop(t, end)
  {
  }

  lemma ReadingCell<V>(d: Dialect<V>, spell: map<Kind, string>, ts: seq<Token>, pos: nat, t: TopTree, end: nat)
    requires ReadyTop(d, spell, ts, pos, t, end) && t.CellDef?
    ensures pos <= |ts| && ParseTop(d, ts, pos) == ParsedTop(t, end)
  {
    ReadingDef(d, spell, ts, pos, t.name, t.params, t.body, end);
    CellStep(d, ts, pos, t, end);
  }

  lemma ReadingInstance<V>(d: Dialect<V>, spell: map<Kind, string>, ts: seq<Token>, pos: nat, t: TopTree, end: nat)
    requires ReadyTop(d, spell, ts, pos, t, end) && t.CellInst?
    ensures pos <= |ts| && ParseTop(d, ts, pos) == ParsedTop(t, end)
  {
    match t
    case CellInst(name, Regular(ty, args, out)) => ReadingRegular(d, spell, ts, pos, ty, name, args, out, end);
    case CellInst(name, Extern(remote)) => ReadingExtern(d, spell, ts, pos, name, remote);
    case CellInst(name, Input(input)) => ReadingInput(d, spell, ts, pos, name, input);
  }

  /** Name, parameters and body of a definition. */
  lemma ReadingDef<V>(d: Dialect<V>, spell: map<Kind, string>, ts: seq<Token>, pos: nat, name: string, params: seq<string>, body: Tree, end: nat)
    requires At(ts, pos, PrintDef(spell, name, params, body)) && end == pos + |PrintDef(spell, name, params, body)|
    requires Writable(d, body) && TreeNested(body, false) && Settles(ts, body, end)
    ensures ReadsDef(d, ts, pos, name, params, body, end)
  {
    var next := DefParts(d, spell, ts, pos, name, params, body, end);
    ReadingStatement(d, spell, ts, next, body, false, end);
  }

  lemma DefParts<V>(d: Dialect<V>, spell: map<Kind, string>, ts: seq<Token>, pos: nat, name: string, params: seq<string>, body: Tree, end: nat) returns (next: nat)
    requires At(ts, pos, PrintDef(spell, name, params, body)) && end == pos + |PrintDef(spell, name, params, body)|
    requires Writable(d, body) && TreeNested(body, false) && Settles(ts, body, end)
    ensures pos + 2 <= |ts| && TokenAt(ts, pos) == Id(name) && KindAt(ts, pos + 1).LPAREN?
    ensures ParseNames(ts, pos + 2, []) == ParsedNames(params, next) && Ready(d, spell, ts, next, body, false, end)
  {
    var ns, bs := PrintNames(spell, params), PrintTree(spell, body);
    next := pos + 3 + |ns|;
    AtDef(ts, pos, Id(name), Op(spell, LPAREN), ns, Op(spell, RPAREN), bs);
    ReadingNames(spell, ts, pos + 2, params, []);
    assert [] + params == params;
  }

  lemma AtDef(ts: seq<Token>, pos: nat, n: Token, l: Token, xs: seq<Token>, r: Token, ys: seq<Token>)
    requires At(ts, pos, [n] + ([l] + xs + [r] + ys))
    ensures TokenAt(ts, pos) == n && TokenAt(ts, pos + 1) == l && At(ts, pos + 2, xs)
    ensures TokenAt(ts, pos + 2 + |xs|) == r && At(ts, pos + 3 + |xs|, ys)
    ensures |[n] + ([l] + xs + [r] + ys)| == 3 + |xs| + |ys|
  {
    AtSplit(ts, pos, [n], [l] + xs + [r] + ys);
    AtOne(ts, pos, n);
    AtSplit(ts, pos + 1, [l] + xs + [r], ys);
    AtParens(ts, pos + 1, l, xs, r);
  }

  /** The name and the semicolon that end an instance. */
  lemma AtName(spell: map<Kind, string>, ts: seq<Token>, pos: nat, t: Token, name: string)
    requires At(ts, pos, [t] + ([Id(name)] + [Op(spell, SEMICOLON)]))
    ensures TokenAt(ts, pos) == t && TokenAt(ts, pos + 1) == Id(name) && KindAt(ts, pos + 2).SEMICOLON? && pos + 3 <= |ts|
  {
    AtSplit(ts, pos, [t], [Id(name)] + [Op(spell, SEMICOLON)]);
    AtOne(ts, pos, t);
    AtSplit(ts, pos + 1, [Id(name)], [Op(spell, SEMICOLON)]);
    AtOne(ts, pos + 1, Id(name));
    AtOne(ts, pos + 2, Op(spell, SEMICOLON));
  }

  lemma ReadingExtern<V>(d: Dialect<V>, spell: map<Kind, string>, ts: seq<Token>, pos: nat, name: string, remote: string)
    requires At(ts, pos, PrintTop(spell, CellInst(name, Extern(remote))))
    ensures pos + 4 <= |ts| && ParseTop(d, ts, pos) == ParsedTop(CellInst(name, Extern(remote)), pos + 4)
  {
    AtSplit(ts, pos, [Id("extern")], [Token(CHAR_LITERAL, remote)] + ([Id(name)] + [Op(spell, SEMICOLON)]));
    AtOne(ts, pos, Id("extern"));
    AtName(spell, ts, pos + 1, Token(CHAR_LITERAL, remote), name);
  }

  lemma ReadingInput<V>(d: Dialect<V>, spell: map<Kind, string>, ts: seq<Token>, pos: nat, name: string, input: string)
    requires At(ts, pos, PrintTop(spell, CellInst(name, Input(input))))
    ensures pos + 3 <= |ts| && ParseTop(d, ts, pos) == ParsedTop(CellInst(name, Input(input)), pos + 3)
  {
    AtName(spell, ts, pos, Token(CHAR_LITERAL, input), name);
  }

  lemma ReadingRegular<V>(d: Dialect<V>, spell: map<Kind, string>, ts: seq<Token>, pos: nat, ty: string, name: string, args: seq<Ast>, out: Outlet, end: nat)
    requires ty != "function" && AllPrintable(d, args)
    requires At(ts, pos, PrintInstance(spell, ty, name, PrintList(spell, args), out))
    requires end == pos + |PrintInstance(spell, ty, name, PrintList(spell, args), out)|
    ensures pos <= |ts| && ParseTop(d, ts, pos) == ParsedTop(CellInst(name, Regular(ty, args, out)), end)
  {
    AtRegular(spell, ts, pos, ty, name, PrintList(spell, args), out);
    ReadingArguments(d, spell, ts, pos + 3, args);
    RegularStep(d, ts, pos, ty, name, args, pos + 4 + |PrintList(spell, args)|, out);
  }

  lemma ReadingArguments<V>(d: Dialect<V>, spell: map<Kind, string>, ts: seq<Token>, pos: nat, args: seq<Ast>)
    requires AllPrintable(d, args) && At(ts, pos, PrintList(spell, args)) && KindAt(ts, pos + |PrintList(spell, args)|).RPAREN?
    ensures ParseCellArgs(d, ts, pos, []) == ParsedList(args, pos + |PrintList(spell, args)| + 1)
    ensures !KindAt(ts, pos).ENDOFFILE?
  {
    ReadingCellArgs(d, spell, ts, pos, args, []);
    assert [] + args == args;
    FirstOfList(d, spell, ts, pos, args);
  }

  lemma RegularStep<V>(d: Dialect<V>, ts: seq<Token>, pos: nat, ty: string, name: string, args: seq<Ast>, next: nat, out: Outlet)
    requires pos + 3 <= |ts| && TokenAt(ts, pos) == Id(ty) && ty != "function" && TokenAt(ts, pos + 1) == Id(name) && KindAt(ts, pos + 2).LPAREN?
    requires !KindAt(ts, pos + 3).ENDOFFILE? && ParseCellArgs(d, ts, pos + 3, []) == ParsedList(args, next)
    requires if out.NoOutlet? then KindAt(ts, next).SEMICOLON?
      else TokenAt(ts, next) == Token(CHAR_LITERAL, out.name) && KindAt(ts, next + 1).SEMICOLON?
    ensures ParseTop(d, ts, pos) == ParsedTop(CellInst(name, Regular(ty, args, out)), next + if out.NoOutlet? then 1 else 2)
  {
    assert ParseTop(d, ts, pos) == ParseRegular(d, ts, pos);
  }

  lemma AtRegular(spell: map<Kind, string>, ts: seq<Token>, pos: nat, ty: string, name: string, xs: seq<Token>, out: Outlet)
    requires At(ts, pos, PrintInstance(spell, ty, name, xs, out))
    ensures TokenAt(ts, pos) == Id(ty) && TokenAt(ts, pos + 1) == Id(name) && KindAt(ts, pos + 2).LPAREN?
    ensures At(ts, pos + 3, xs) && KindAt(ts, pos + 3 + |xs|).RPAREN?
    ensures var end := pos + 4 + |xs|;
      if out.NoOutlet? then KindAt(ts, end).SEMICOLON?
      else TokenAt(ts, end) == Token(CHAR_LITERAL, out.name) && KindAt(ts, end + 1).SEMICOLON?
    ensures |PrintInstance(spell, ty, name, xs, out)| == 5 + |xs| + if out.NoOutlet? then 0 else 1
    ensures pos + 5 + |xs| <= |ts|
  {
    var t, n := Id(ty), Id(name);
    var list, tail := [Op(spell, LPAREN)] + xs + [Op(spell, RPAREN)], PrintOutlet(out) + [Op(spell, SEMICOLON)];
    AtSplit(ts, pos, [t], [n] + (list + tail));
    AtOne(ts, pos, t);
    AtSplit(ts, pos + 1, [n], list + tail);
    AtOne(ts, pos + 1, n);
    AtSplit(ts, pos + 2, list, tail);
    AtParens(ts, pos + 2, Op(spell, LPAREN), xs, Op(spell, RPAREN));
    var end := pos + 4 + |xs|;
    AtSplit(ts, end, PrintOutlet(out), [Op(spell, SEMICOLON)]);
    AtOne(ts, end + |PrintOutlet(out)|, Op(spell, SEMICOLON));
    if out.Outlet? {
      AtOne(ts, end, Token(CHAR_LITERAL, out.name));
    }
  }

  lemma FirstOfList<V>(d: Dialect<V>, spell: map<Kind, string>, ts: seq<Token>, pos: nat, args: seq<Ast>)
    requires AllPrintable(d, args) && At(ts, pos, PrintList(spell, args)) && KindAt(ts, pos + |PrintList(spell, args)|).RPAREN?
    ensures !KindAt(ts, pos).ENDOFFILE?
  {
    if |args| > 1 {
      AtList(spell, ts, pos, args, Print(spell, args[0], 16), PrintList(spell, args[1..]));
    }
    if args != [] {
      HeadOfPrint(d, spell, ts, pos, args[0], 16);
    }
  }

  lemma TopStarts(spell: map<Kind, string>, ts: seq<Token>, pos: nat, t: TopTree)
    requires At(ts, pos, PrintTop(spell, t))
    ensures pos < |ts| && !KindAt(ts, pos).ENDOFFILE? && (Word(ts, pos, "else") ==> ElseTop(t))
  {
    assert PrintTop(spell, t)[0] == ts[pos + 0];
  }

  /** The first definition or instance of a script, and where the rest begins. */
  lemma ReadingFirst<V>(d: Dialect<V>, spell: map<Kind, string>, ts: seq<Token>, pos: nat, tops: seq<TopTree>) returns (next: nat)
    requires tops != [] && WritableScript(d, tops) && TopNested(tops[0])
    requires At(ts, pos, PrintScript(spell, tops)) && pos + |PrintScript(spell, tops)| == |ts|
    ensures pos < |ts| && !KindAt(ts, pos).ENDOFFILE? && ParseTop(d, ts, pos) == ParsedTop(tops[0], next)
    ensures At(ts, next, PrintScript(spell, tops[1..])) && next + |PrintScript(spell, tops[1..])| == |ts|
  {
    next := FirstEnds(spell, ts, pos, tops);
    ReadingTop(d, spell, ts, pos, tops[0], next);
  }

  lemma FirstEnds(spell: map<Kind, string>, ts: seq<Token>, pos: nat, tops: seq<TopTree>) returns (next: nat)
    requires tops != [] && At(ts, pos, PrintScript(spell, tops)) && pos + |PrintScript(spell, tops)| == |ts|
    ensures pos < |ts| && !KindAt(ts, pos).ENDOFFILE? && At(ts, pos, PrintTop(spell, tops[0])) && next == pos + |PrintTop(spell, tops[0])|
    ensures At(ts, next, PrintScript(spell, tops[1..])) && next + |PrintScript(spell, tops[1..])| == |ts|
    ensures |tops| > 1 ==> !KindAt(ts, next).ENDOFFILE? && (Word(ts, next, "else") ==> ElseTop(tops[1]))
  {
    var xs, ys := PrintTop(spell, tops[0]), PrintScript(spell, tops[1..]);
    next := pos + |xs|;
    AtSplit(ts, pos, xs, ys);
    TopStarts(spell, ts, pos, tops[0]);
    if |tops| > 1 {
      ScriptStarts(spell, ts, next, tops[1..]);
    }
  }

  lemma ScriptStarts(spell: map<Kind, string>, ts: seq<Token>, pos: nat, tops: seq<TopTree>)
    requires tops != [] && At(ts, pos, PrintScript(spell, tops))
    ensures !KindAt(ts, pos).ENDOFFILE? && (Word(ts, pos, "else") ==> ElseTop(tops[0]))
  {
    AtSplit(ts, pos, PrintTop(spell, tops[0]), PrintScript(spell, tops[1..]));
    TopStarts(spell, ts, pos, tops[0]);
  }

  lemma FirstAndRest<T>(acc: seq<T>, xs: seq<T>)
    requires xs != []
    ensures acc + [xs[0]] + xs[1..] == acc + xs && forall x :: x in acc + [xs[0]] ==> x in acc || x in xs
  {
  }

  lemma ScriptStep<V>(d: Dialect<V>, ts: seq<Token>, pos: nat, acc: seq<TopTree>, t: TopTree, next: nat)
    requires pos < |ts| && !KindAt(ts, pos).ENDOFFILE? && ParseTop(d, ts, pos) == ParsedTop(t, next)
    requires forall u :: u in acc ==> TopNested(u)
    ensures TopNested(t) && ParseScript(d, ts, pos, acc) == ParseScript(d, ts, next, acc + [t])
  {
  }

  lemma {:induction false} ReadingScript<V>(d: Dialect<V>, spell: map<Kind, string>, ts: seq<Token>, pos: nat, tops: seq<TopTree>, acc: seq<TopTree>)
    requires WritableScript(d, tops) && (forall t :: t in tops ==> TopNested(t)) && (forall t :: t in acc ==> TopNested(t))
    requires At(ts, pos, PrintScript(spell, tops)) && pos + |PrintScript(spell, tops)| == |ts|
    ensures ParseScript(d, ts, pos, acc) == ParsedScript(acc + tops)
    decreases |tops|
  {
    if tops == [] {
      assert acc + tops == acc;
    } else {
      var next := ReadingFirst(d, spell, ts, pos, tops);
      ScriptStep(d, ts, pos, acc, tops[0], next);
      ReadingScript(d, spell, ts, next, tops[1..], acc + [tops[0]]);
      FirstAndRest(acc, tops);
    }
  }

  /** The round trip of scripts: parsing the text of a script gives the script. */
  lemma ScriptRoundTrip<V>(d: Dialect<V>, spell: map<Kind, string>, tops: seq<TopTree>)
    requires WritableScript(d, tops) && forall t :: t in tops ==> TopNested(t)
    ensures ParseScript(d, PrintScript(spell, tops), 0, []) == ParsedScript(tops)
  {
    var ts := PrintScript(spell, tops);
    assert [] + tops == tops;
    ReadingScript(d, spell, ts, 0, tops, []);
  }
}
