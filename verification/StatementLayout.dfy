/** Where the parts of a printed statement stand in a token list. Every lemma that ends in `Parts`
    takes the text of one kind of statement apart: it says which keyword and punctuation tokens are
    found where, that the expressions inside are read back up to those tokens, and that the
    sub-statements are again printed statements between two known positions. Nothing here is about
    how statements are parsed; that is put together elsewhere, one parsing step at a time. The
    positions are handed out as results, so that a proof about parsing sees numbers and the facts
    about them, and no text. */
module StatementLayout {
  import opened Syntax
  import opened Ast
  import opened Grammar
  import opened StatementGrammar
  import opened Printer
  import opened StatementPrinter
  import opened RoundTrip

  // ------------------------------------------------------------------ expressions inside statements

  /** An expression begins with the kind `Head` says, and never with a keyword. */
  lemma {:induction false} BeginsAs<V>(d: Dialect<V>, spell: map<Kind, string>, ts: seq<Token>, pos: nat, a: Ast, lvl: nat)
    requires Printable(d, a) && At(ts, pos, Print(spell, a, lvl))
    ensures KindAt(ts, pos) == Head(a, lvl)
    ensures KindAt(ts, pos).IDENTIFIER? ==> TokenAt(ts, pos).lexeme !in KEYWORDS
    decreases a, 1
  {
    if Level(a) > lvl {
      AtPrint(spell, ts, pos, a, lvl);
    } else {
      BodyBeginsAs(d, spell, ts, pos, a);
    }
  }

  lemma {:induction false} BodyBeginsAs<V>(d: Dialect<V>, spell: map<Kind, string>, ts: seq<Token>, pos: nat, a: Ast)
    requires Printable(d, a) && At(ts, pos, Body(spell, a))
    ensures KindAt(ts, pos) == HeadOfTree(a)
    ensures KindAt(ts, pos).IDENTIFIER? ==> TokenAt(ts, pos).lexeme !in KEYWORDS
    decreases a, 0
  {
    match a
    case Binary(op, l, r) =>
      AtBinary(spell, ts, pos, a, Print(spell, l, LeftLevel(op)), Print(spell, r, RightLevel(op)));
      BeginsAs(d, spell, ts, pos, l, LeftLevel(op));
    case Ternary(_, c, t, f) =>
      AtTernary(spell, ts, pos, a, Print(spell, c, 15), Print(spell, t, 16), Print(spell, f, 16));
      BeginsAs(d, spell, ts, pos, c, 15);
    case Unary(op, ty, x) => AtUnary(spell, ts, pos, a);
    case Suffix(op, x) =>
      AtSuffix(spell, ts, pos, a);
      BeginsAs(d, spell, ts, pos, x, 1);
    case Apply(f, args) =>
      AtApply(spell, ts, pos, a);
      BeginsAs(d, spell, ts, pos, f, 1);
    case Array(_) => AtArray(spell, ts, pos, a);
    case Ident(name) => AtOne(ts, pos, Token(IDENTIFIER, name));
    case Literal(kind, text) =>
      AtOne(ts, pos, Token(LiteralToken(kind), text));
      assert LiteralToken(kind).IDENTIFIER? ==> kind.BoolLit? || kind.UndefinedLit?;
  }

  /** Kinds that end an expression wherever it stands. */
  predicate Delimits(k: Kind) {
    k.SEMICOLON? || k.RPAREN? || k.RCURLY? || k.LCURLY? || k.COMMA? || k.ENDOFFILE?
  }

  lemma DelimitersStop(k: Kind)
    requires Delimits(k) || k.IDENTIFIER?
    ensures Stops(16, k)
  {
    if k.SEMICOLON? {
    } else if k.RPAREN? {
    } else if k.RCURLY? {
    } else if k.LCURLY? {
    } else if k.COMMA? {
    } else if k.ENDOFFILE? {
    }
  }

  /** An expression up to a token that cannot continue it. */
  lemma ReadsExpr<V>(d: Dialect<V>, spell: map<Kind, string>, ts: seq<Token>, pos: nat, e: Ast)
    requires Printable(d, e) && At(ts, pos, Print(spell, e, 16)) && Stops(16, KindAt(ts, pos + |Print(spell, e, 16)|))
    ensures ParseExpr(d, ts, pos) == Parsed(e, pos + |Print(spell, e, 16)|)
    ensures !e.Null? && Begins(KindAt(ts, pos)) && (KindAt(ts, pos).IDENTIFIER? ==> TokenAt(ts, pos).lexeme !in KEYWORDS)
  {
    Reading(d, spell, ts, pos, e, 16);
    HeadOfPrint(d, spell, ts, pos, e, 16);
    BeginsAs(d, spell, ts, pos, e, 16);
  }

  lemma NothingToRead<V>(d: Dialect<V>, ts: seq<Token>, pos: nat)
    requires pos <= |ts| && (KindAt(ts, pos).SEMICOLON? || KindAt(ts, pos).RPAREN?)
    ensures ParseExpr(d, ts, pos) == Parsed(Null, pos)
  {
    assert ParsePrimary(d, ts, pos) == Parsed(Null, pos);
    assert ChainTail(d, ts, Null, pos) == Parsed(Null, pos);
    assert ParsePrefix(d, ts, pos) == Parsed(Null, pos);
    NothingAtLevel(d, ts, pos, 15);
  }

  lemma {:induction false} NothingAtLevel<V>(d: Dialect<V>, ts: seq<Token>, pos: nat, k: nat)
    requires pos <= |ts| && (KindAt(ts, pos).SEMICOLON? || KindAt(ts, pos).RPAREN?) && 4 <= k <= 15 && ParsePrefix(d, ts, pos) == Parsed(Null, pos)
    ensures ParseBinary(d, ts, k, pos) == Parsed(Null, pos)
    decreases k
  {
    if k > 4 {
      NothingAtLevel(d, ts, pos, k - 1);
    }
  }

  /** What a return gives back, if anything. */
  lemma ReadsResult<V>(d: Dialect<V>, spell: map<Kind, string>, ts: seq<Token>, pos: nat, e: Ast, end: nat)
    requires (e.Null? || Printable(d, e)) && At(ts, pos, Print(spell, e, 16)) && end == pos + |Print(spell, e, 16)| && KindAt(ts, end).SEMICOLON?
    ensures ParseExpr(d, ts, pos) == Parsed(e, end)
  {
    if e.Null? {
      NothingToRead(d, ts, pos);
    } else {
      DelimitersStop(SEMICOLON);
      ReadsExpr(d, spell, ts, pos, e);
    }
  }

  /** A keyword, if any, an expression and a semicolon. */
  lemma AtStatement(spell: map<Kind, string>, ts: seq<Token>, pos: nat, word: seq<Token>, e: Ast)
    requires At(ts, pos, Closed(spell, word, e))
    ensures At(ts, pos, word) && At(ts, pos + |word|, Print(spell, e, 16))
    ensures KindAt(ts, pos + |word| + |Print(spell, e, 16)|).SEMICOLON?
    ensures |Closed(spell, word, e)| == |word| + |Print(spell, e, 16)| + 1
  {
    AtSplit(ts, pos, word + Print(spell, e, 16), [Op(spell, SEMICOLON)]);
    AtOne(ts, pos + |word| + |Print(spell, e, 16)|, Op(spell, SEMICOLON));
    AtSplit(ts, pos, word, Print(spell, e, 16));
  }

  lemma AtSimple(spell: map<Kind, string>, ts: seq<Token>, pos: nat, t: Tree, word: seq<Token>, e: Ast)
    requires At(ts, pos, PrintTree(spell, t))
    requires (t == ExprTree(e) && word == []) || (t == ThrowTree(e) && word == [Id("throw")]) || (t == ReturnTree(e) && word == [Id("return")])
    ensures At(ts, pos + |word|, Print(spell, e, 16)) && KindAt(ts, pos + |word| + |Print(spell, e, 16)|).SEMICOLON?
    ensures |PrintTree(spell, t)| == |word| + |Print(spell, e, 16)| + 1 && (word != [] ==> TokenAt(ts, pos) == word[0])
  {
    assert PrintTree(spell, t) == Closed(spell, word, e);
    AtStatement(spell, ts, pos, word, e);
    if word != [] {
      AtOne(ts, pos, word[0]);
    }
  }

  // ------------------------------------------------------------------ where the parts of a statement are

  lemma AtParens(ts: seq<Token>, pos: nat, t: Token, xs: seq<Token>, u: Token)
    requires At(ts, pos, [t] + xs + [u])
    ensures TokenAt(ts, pos) == t && At(ts, pos + 1, xs) && TokenAt(ts, pos + 1 + |xs|) == u
  {
    AtSplit(ts, pos, [t] + xs, [u]);
    AtSplit(ts, pos, [t], xs);
    AtOne(ts, pos, t);
    AtOne(ts, pos + 1 + |xs|, u);
  }

  /** t xs ys */
  lemma AtLed(ts: seq<Token>, pos: nat, t: Token, xs: seq<Token>, ys: seq<Token>)
    requires At(ts, pos, [t] + xs + ys)
    ensures TokenAt(ts, pos) == t && At(ts, pos + 1, xs) && At(ts, pos + 1 + |xs|, ys)
  {
    AtSplit(ts, pos, [t] + xs, ys);
    AtSplit(ts, pos, [t], xs);
    AtOne(ts, pos, t);
  }

  lemma AtBlock(spell: map<Kind, string>, ts: seq<Token>, pos: nat, stats: seq<Tree>)
    requires At(ts, pos, PrintTree(spell, BlockTree(stats)))
    ensures var xs := PrintTrees(spell, stats);
      && KindAt(ts, pos).LCURLY? && At(ts, pos + 1, xs) && KindAt(ts, pos + 1 + |xs|).RCURLY?
      && |PrintTree(spell, BlockTree(stats))| == |xs| + 2 && pos + |xs| + 2 <= |ts|
  {
    var xs := PrintTrees(spell, stats);
    assert PrintTree(spell, BlockTree(stats)) == [Op(spell, LCURLY)] + xs + [Op(spell, RCURLY)];
    AtParens(ts, pos, Op(spell, LCURLY), xs, Op(spell, RCURLY));
  }

  /** A statement has a first token; it is no end and no `else`. */
  ghost predicate Starts(ts: seq<Token>, pos: nat) {
    !KindAt(ts, pos).ENDOFFILE? && !KindAt(ts, pos).RCURLY? && !Word(ts, pos, "else")
  }

  lemma StatementStarts<V>(d: Dialect<V>, spell: map<Kind, string>, ts: seq<Token>, pos: nat, t: Tree)
    requires Writable(d, t) && At(ts, pos, PrintTree(spell, t))
    ensures Starts(ts, pos) && |PrintTree(spell, t)| > 0
    ensures Detached(t) ==> Stops(16, KindAt(ts, pos))
  {
    match t
    case EmptyTree => AtOne(ts, pos, Op(spell, SEMICOLON)); DelimitersStop(SEMICOLON);
    case ExprTree(e) =>
      AtSimple(spell, ts, pos, t, [], e);
      HeadOfPrint(d, spell, ts, pos, e, 16);
      BeginsAs(d, spell, ts, pos, e, 16);
      if Detached(t) {
        ExpressionStops(KindAt(ts, pos));
      }
    case BlockTree(stats) => AtBlock(spell, ts, pos, stats); DelimitersStop(LCURLY);
    case NoTree =>
    case _ =>
      KeywordFirst(spell, t);
      assert PrintTree(spell, t)[0] == ts[pos + 0];
      DelimitersStop(IDENTIFIER);
  }

  lemma KeywordFirst(spell: map<Kind, string>, t: Tree)
    requires KeywordOf(t) != ""
    ensures PrintTree(spell, t) != [] && PrintTree(spell, t)[0] == Id(KeywordOf(t)) && KeywordOf(t) != "else"
  {
  }

  function KeywordOf(t: Tree): string {
    match t
    case IfTree(_, _, _) => "if"
    case ThrowTree(_) => "throw"
    case TryTree(_, _, _) => "try"
    case WhileTree(_, _) => "while"
    case ForTree(_, _, _, _) => "for"
    case ReturnTree(_) => "return"
    case BreakTree => "break"
    case ContinueTree => "continue"
    case _ => ""
  }

  lemma ExpressionStops(k: Kind)
    requires Begins(k) && !IsIncDec(k) && !k.LPAREN? && !k.LBRACKET? && !k.PLUS? && !k.MINUS?
    ensures Stops(16, k)
  {
    if k.IDENTIFIER? {
    } else if k.NOT? {
    } else if k.BITNOT? {
    } else if k.STRING_LITERAL? {
    } else if k.CHAR_LITERAL? {
    } else if k.FP_LITERAL? {
    } else if k.FP_EXP_LITERAL? {
    } else if k.INT_LITERAL? {
    } else if k.HEX_LITERAL? {
    } else if k.OCT_LITERAL? {
    } else if k.BIN_LITERAL? {
    }
  }

  // ------------------------------------------------------------------ the parts of a statement

  /** What follows a statement does not change how it is read. */
  ghost predicate Settles(ts: seq<Token>, t: Tree, end: nat) {
    Open(t) ==> !KindAt(ts, end).ENDOFFILE? && !Word(ts, end, "else")
  }

  /** The text of `t` stands between `pos` and `end`. */
  ghost predicate Ready<V>(d: Dialect<V>, spell: map<Kind, string>, ts: seq<Token>, pos: nat, t: Tree, inLoop: bool, end: nat) {
    && Writable(d, t) && TreeNested(t, inLoop) && Settles(ts, t, end)
    && At(ts, pos, PrintTree(spell, t)) && end == pos + |PrintTree(spell, t)|
  }

  lemma ExprParts<V>(d: Dialect<V>, spell: map<Kind, string>, ts: seq<Token>, pos: nat, e: Ast, inLoop: bool, end: nat)
    requires Ready(d, spell, ts, pos, ExprTree(e), inLoop, end)
    ensures pos < end <= |ts| && ParseExpr(d, ts, pos) == Parsed(e, end - 1) && KindAt(ts, end - 1).SEMICOLON?
    ensures !e.Null? && Begins(KindAt(ts, pos)) && (KindAt(ts, pos).IDENTIFIER? ==> TokenAt(ts, pos).lexeme !in KEYWORDS)
  {
    AtSimple(spell, ts, pos, ExprTree(e), [], e);
    DelimitersStop(SEMICOLON);
    ReadsExpr(d, spell, ts, pos, e);
  }

  lemma WordedParts<V>(d: Dialect<V>, spell: map<Kind, string>, ts: seq<Token>, pos: nat, t: Tree, inLoop: bool, end: nat)
    requires Ready(d, spell, ts, pos, t, inLoop, end) && (t.ThrowTree? || t.ReturnTree?)
    ensures pos + 1 < end <= |ts| && TokenAt(ts, pos) == Id(KeywordOf(t)) && ParseExpr(d, ts, pos + 1) == Parsed(t.expr, end - 1)
    ensures KindAt(ts, end - 1).SEMICOLON? && (t.ThrowTree? ==> !t.expr.Null?)
  {
    AtSimple(spell, ts, pos, t, [Id(KeywordOf(t))], t.expr);
    ReadsResult(d, spell, ts, pos + 1, t.expr, end - 1);
  }

  lemma IfParts<V>(d: Dialect<V>, spell: map<Kind, string>, ts: seq<Token>, pos: nat, t: Tree, inLoop: bool, end: nat) returns (mid: nat, stop: nat)
    requires Ready(d, spell, ts, pos, t, inLoop, end) && t.IfTree?
    ensures pos < mid <= |ts| && TokenAt(ts, pos) == Id("if") && !t.cond.Null? && ParseExpr(d, ts, pos + 1) == Parsed(t.cond, mid)
    ensures Ready(d, spell, ts, mid, t.yes, inLoop, stop)
    ensures if t.no.NoTree? then stop == end && !KindAt(ts, end).ENDOFFILE? && !Word(ts, end, "else")
      else stop < |ts| && TokenAt(ts, stop) == Id("else") && Ready(d, spell, ts, stop + 1, t.no, inLoop, end)
  {
    mid, stop := IfLayout(d, spell, ts, pos, t, inLoop, end);
    CondEnds(d, spell, ts, pos + 1, t.cond, mid, t.yes);
  }

  /** The condition of an if ends where the branch begins. */
  lemma CondEnds<V>(d: Dialect<V>, spell: map<Kind, string>, ts: seq<Token>, pos: nat, c: Ast, mid: nat, yes: Tree)
    requires Printable(d, c) && At(ts, pos, Print(spell, c, 16)) && mid == pos + |Print(spell, c, 16)|
    requires Writable(d, yes) && Detached(yes) && At(ts, mid, PrintTree(spell, yes))
    ensures !c.Null? && ParseExpr(d, ts, pos) == Parsed(c, mid)
  {
    StatementStarts(d, spell, ts, mid, yes);
    ReadsExpr(d, spell, ts, pos, c);
  }

  lemma IfLayout<V>(d: Dialect<V>, spell: map<Kind, string>, ts: seq<Token>, pos: nat, t: Tree, inLoop: bool, end: nat) returns (mid: nat, stop: nat)
    requires Ready(d, spell, ts, pos, t, inLoop, end) && t.IfTree?
    ensures pos < mid <= |ts| && TokenAt(ts, pos) == Id("if") && At(ts, pos + 1, Print(spell, t.cond, 16)) && mid == pos + 1 + |Print(spell, t.cond, 16)|
    ensures Ready(d, spell, ts, mid, t.yes, inLoop, stop)
    ensures if t.no.NoTree? then stop == end
      else stop < |ts| && TokenAt(ts, stop) == Id("else") && Ready(d, spell, ts, stop + 1, t.no, inLoop, end)
  {
    var xs, ys, zs := Print(spell, t.cond, 16), PrintTree(spell, t.yes), PrintTree(spell, t.no);
    mid, stop := pos + 1 + |xs|, pos + 1 + |xs| + |ys|;
    assert PrintTree(spell, t) == Branches(xs, ys, zs, !t.no.NoTree?);
    AtBranches(ts, pos, xs, ys, zs, !t.no.NoTree?);
  }

  lemma AtBranches(ts: seq<Token>, pos: nat, xs: seq<Token>, ys: seq<Token>, zs: seq<Token>, both: bool)
    requires At(ts, pos, Branches(xs, ys, zs, both))
    ensures TokenAt(ts, pos) == Id("if") && At(ts, pos + 1, xs) && At(ts, pos + 1 + |xs|, ys)
    ensures both ==> TokenAt(ts, pos + 1 + |xs| + |ys|) == Id("else") && At(ts, pos + 2 + |xs| + |ys|, zs)
    ensures |Branches(xs, ys, zs, both)| == 1 + |xs| + |ys| + if both then 1 + |zs| else 0
  {
    if both {
      AtInfix(ts, pos, [Id("if")] + xs + ys, Id("else"), zs);
    }
    AtLed(ts, pos, Id("if"), xs, ys);
  }

  lemma TryParts<V>(d: Dialect<V>, spell: map<Kind, string>, ts: seq<Token>, pos: nat, t: Tree, inLoop: bool, end: nat) returns (mid: nat, next: nat)
    requires Ready(d, spell, ts, pos, t, inLoop, end) && t.TryTree?
    ensures pos < |ts| && TokenAt(ts, pos) == Id("try") && Ready(d, spell, ts, pos + 1, t.body, inLoop, mid)
    ensures mid < |ts| && TokenAt(ts, mid) == Id("catch") && ParseCatchName(d, ts, mid + 1) == Parsed(t.catchExpr, next)
    ensures next <= |ts| && Ready(d, spell, ts, next, t.handler, inLoop, end)
  {
    var xs, cs, ys := PrintTree(spell, t.body), PrintCatch(spell, t.catchExpr), PrintTree(spell, t.handler);
    mid, next := pos + 1 + |xs|, pos + 2 + |xs| + |cs|;
    assert PrintTree(spell, t) == Guarded(xs, cs, ys);
    AtGuarded(ts, pos, xs, cs, ys);
    ReadingCatch(d, spell, ts, mid + 1, t.catchExpr);
  }

  lemma AtGuarded(ts: seq<Token>, pos: nat, xs: seq<Token>, cs: seq<Token>, ys: seq<Token>)
    requires At(ts, pos, Guarded(xs, cs, ys))
    ensures TokenAt(ts, pos) == Id("try") && At(ts, pos + 1, xs) && TokenAt(ts, pos + 1 + |xs|) == Id("catch")
    ensures At(ts, pos + 2 + |xs|, cs) && At(ts, pos + 2 + |xs| + |cs|, ys) && |Guarded(xs, cs, ys)| == 2 + |xs| + |cs| + |ys|
    ensures pos + 2 + |xs| + |cs| + |ys| <= |ts|
  {
    AtLed(ts, pos, Id("try"), xs, [Id("catch")] + cs + ys);
    AtLed(ts, pos + 1 + |xs|, Id("catch"), cs, ys);
  }

  lemma ReadingCatch<V>(d: Dialect<V>, spell: map<Kind, string>, ts: seq<Token>, pos: nat, x: Ast)
    requires x.Null? || (x.Ident? && Printable(d, x))
    requires At(ts, pos, PrintCatch(spell, x))
    ensures ParseCatchName(d, ts, pos) == Parsed(x, pos + |PrintCatch(spell, x)|)
  {
    AtParens(ts, pos, Token(LPAREN, "("), Print(spell, x, 16), Token(RPAREN, ")"));
    if x.Ident? {
      assert Print(spell, x, 16) == [Id(x.name)];
      AtOne(ts, pos + 1, Id(x.name));
      DelimitersStop(RPAREN);
      ReadsExpr(d, spell, ts, pos + 1, x);
    }
  }

  lemma WhileParts<V>(d: Dialect<V>, spell: map<Kind, string>, ts: seq<Token>, pos: nat, t: Tree, inLoop: bool, end: nat) returns (next: nat)
    requires Ready(d, spell, ts, pos, t, inLoop, end) && t.WhileTree?
    ensures pos + 2 < next <= |ts| && TokenAt(ts, pos) == Id("while") && KindAt(ts, pos + 1).LPAREN? && !t.cond.Null?
    ensures ParseExpr(d, ts, pos + 2) == Parsed(t.cond, next - 1) && KindAt(ts, next - 1).RPAREN?
    ensures Ready(d, spell, ts, next, t.body, true, end)
  {
    var cs, bs := PrintCond(spell, t.cond), PrintTree(spell, t.body);
    next := pos + 1 + |cs|;
    assert PrintTree(spell, t) == [Id("while")] + cs + bs;
    AtLed(ts, pos, Id("while"), cs, bs);
    ReadingCond(d, spell, ts, pos + 1, t.cond);
  }

  lemma ReadingCond<V>(d: Dialect<V>, spell: map<Kind, string>, ts: seq<Token>, pos: nat, c: Ast)
    requires Printable(d, c) && At(ts, pos, PrintCond(spell, c))
    ensures var end := pos + |PrintCond(spell, c)|;
      && pos + 1 < end <= |ts| && KindAt(ts, pos).LPAREN? && !c.Null?
      && ParseExpr(d, ts, pos + 1) == Parsed(c, end - 1) && KindAt(ts, end - 1).RPAREN?
  {
    AtParens(ts, pos, Op(spell, LPAREN), Print(spell, c, 16), Op(spell, RPAREN));
    DelimitersStop(RPAREN);
    ReadsExpr(d, spell, ts, pos + 1, c);
  }

  lemma ForParts<V>(d: Dialect<V>, spell: map<Kind, string>, ts: seq<Token>, pos: nat, t: Tree, inLoop: bool, end: nat) returns (next: nat)
    requires Ready(d, spell, ts, pos, t, inLoop, end) && t.ForTree?
    ensures pos < next <= |ts| && TokenAt(ts, pos) == Id("for")
    ensures ParseForHead(d, ts, pos + 1) == ParsedList([t.init, t.cond, t.incr], next)
    ensures Ready(d, spell, ts, next, t.body, true, end)
  {
    var hs, bs := PrintForHead(spell, t.init, t.cond, t.incr), PrintTree(spell, t.body);
    next := pos + 1 + |hs|;
    assert PrintTree(spell, t) == [Id("for")] + hs + bs;
    AtLed(ts, pos, Id("for"), hs, bs);
    ReadingForHead(d, spell, ts, pos + 1, t.init, t.cond, t.incr, next);
  }

  /** The parenthesis and the first two parts, and then the third. */
  lemma HeadStep<V>(d: Dialect<V>, ts: seq<Token>, pos: nat, i: Ast, mid: nat, c: Ast, next: nat)
    requires pos + 1 < mid < next <= |ts| && KindAt(ts, pos).LPAREN?
    requires ParseForPartThen(d, ts, pos + 1, "false", false) == Parsed(i, mid) && ParseForPartThen(d, ts, mid, "true", false) == Parsed(c, next)
    ensures var n := ParseForPartThen(d, ts, next, "false", true);
      ParseForHead(d, ts, pos) == if n.Wrong? then WrongList(n.at, n.why) else ParsedList([i, c, n.ast], n.pos)
  {
  }

  lemma ReadingForHead<V>(d: Dialect<V>, spell: map<Kind, string>, ts: seq<Token>, pos: nat, i: Ast, c: Ast, n: Ast, end: nat)
    requires Printable(d, i) && Printable(d, c) && Printable(d, n) && At(ts, pos, PrintForHead(spell, i, c, n))
    requires end == pos + |PrintForHead(spell, i, c, n)|
    ensures end <= |ts| && ParseForHead(d, ts, pos) == ParsedList([i, c, n], end)
  {
    var xs, ys, zs := Closed(spell, [], i), Closed(spell, [], c), Print(spell, n, 16) + [Op(spell, RPAREN)];
    AtHead(ts, pos, Op(spell, LPAREN), xs, ys, zs);
    ReadingForPart(d, spell, ts, pos + 1, i, "false");
    ReadingForPart(d, spell, ts, pos + 1 + |xs|, c, "true");
    ReadingForLast(d, spell, ts, pos + 1 + |xs| + |ys|, n, "false");
    HeadStep(d, ts, pos, i, pos + 1 + |xs|, c, pos + 1 + |xs| + |ys|);
  }

  /** t xs ys zs */
  lemma AtHead(ts: seq<Token>, pos: nat, t: Token, xs: seq<Token>, ys: seq<Token>, zs: seq<Token>)
    requires At(ts, pos, [t] + (xs + (ys + zs)))
    ensures TokenAt(ts, pos) == t && At(ts, pos + 1, xs) && At(ts, pos + 1 + |xs|, ys) && At(ts, pos + 1 + |xs| + |ys|, zs)
    ensures |[t] + (xs + (ys + zs))| == 1 + |xs| + |ys| + |zs|
  {
    AtSplit(ts, pos, [t], xs + (ys + zs));
    AtOne(ts, pos, t);
    AtSplit(ts, pos + 1, xs, ys + zs);
    AtSplit(ts, pos + 1 + |xs|, ys, zs);
  }

  lemma ReadingForPart<V>(d: Dialect<V>, spell: map<Kind, string>, ts: seq<Token>, pos: nat, e: Ast, filler: string)
    requires Printable(d, e) && At(ts, pos, Closed(spell, [], e))
    ensures ParseForPartThen(d, ts, pos, filler, false) == Parsed(e, pos + |Closed(spell, [], e)|)
  {
    AtStatement(spell, ts, pos, [], e);
    DelimitersStop(SEMICOLON);
    ReadsExpr(d, spell, ts, pos, e);
    assert ParseForPart(d, ts, pos, filler) == Parsed(e, pos + |Print(spell, e, 16)|);
  }

  lemma ReadingForLast<V>(d: Dialect<V>, spell: map<Kind, string>, ts: seq<Token>, pos: nat, e: Ast, filler: string)
    requires Printable(d, e) && At(ts, pos, Print(spell, e, 16) + [Op(spell, RPAREN)])
    ensures ParseForPartThen(d, ts, pos, filler, true) == Parsed(e, pos + |Print(spell, e, 16)| + 1)
  {
    AtSplit(ts, pos, Print(spell, e, 16), [Op(spell, RPAREN)]);
    AtOne(ts, pos + |Print(spell, e, 16)|, Op(spell, RPAREN));
    DelimitersStop(RPAREN);
    ReadsExpr(d, spell, ts, pos, e);
    assert ParseForPart(d, ts, pos, filler) == Parsed(e, pos + |Print(spell, e, 16)|);
  }

  /** The text of the statements of a block stands between `pos` and its closing brace. */
  ghost predicate ReadyAll<V>(d: Dialect<V>, spell: map<Kind, string>, ts: seq<Token>, pos: nat, stats: seq<Tree>, inLoop: bool, end: nat) {
    && (forall i :: 0 <= i < |stats| ==> Writable(d, stats[i]) && TreeNested(stats[i], inLoop))
    && At(ts, pos, PrintTrees(spell, stats)) && end == pos + |PrintTrees(spell, stats)| && KindAt(ts, end).RCURLY?
  }

  lemma BlockParts<V>(d: Dialect<V>, spell: map<Kind, string>, ts: seq<Token>, pos: nat, stats: seq<Tree>, inLoop: bool, end: nat)
    requires Ready(d, spell, ts, pos, BlockTree(stats), inLoop, end)
    ensures pos + 2 <= end <= |ts| && KindAt(ts, pos).LCURLY? && ReadyAll(d, spell, ts, pos + 1, stats, inLoop, end - 1)
  {
    AtBlock(spell, ts, pos, stats);
  }

  /** The first statement, and where the others begin. */
  lemma FirstParts<V>(d: Dialect<V>, spell: map<Kind, string>, ts: seq<Token>, pos: nat, stats: seq<Tree>, inLoop: bool, end: nat) returns (next: nat)
    requires stats != [] && ReadyAll(d, spell, ts, pos, stats, inLoop, end)
    ensures Starts(ts, pos) && Ready(d, spell, ts, pos, stats[0], inLoop, next) && next <= |ts|
    ensures if |stats| == 1 then next == end else Starts(ts, next) && ReadyAll(d, spell, ts, next, stats[1..], inLoop, end)
  {
    var t, rest := stats[0], stats[1..];
    var xs, ys := PrintTree(spell, t), PrintTrees(spell, rest);
    next := pos + |xs|;
    assert PrintTrees(spell, stats) == xs + ys;
    AtSplit(ts, pos, xs, ys);
    StatementStarts(d, spell, ts, pos, t);
    if rest != [] {
      SecondStarts(d, spell, ts, next, rest);
    }
  }

  lemma SecondStarts<V>(d: Dialect<V>, spell: map<Kind, string>, ts: seq<Token>, pos: nat, stats: seq<Tree>)
    requires stats != [] && Writable(d, stats[0]) && At(ts, pos, PrintTrees(spell, stats))
    ensures Starts(ts, pos)
  {
    AtSplit(ts, pos, PrintTree(spell, stats[0]), PrintTrees(spell, stats[1..]));
    StatementStarts(d, spell, ts, pos, stats[0]);
  }
}
