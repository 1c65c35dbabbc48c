/** Parsing what the printer wrote gives the tree back and consumes exactly what was written. The
    text of a tree may stand anywhere in a token list; what comes behind it decides how far the loops
    of the grammar go on, so the statement is made level by level: a loop that has read the tree is
    as far as if it had started behind it. From the level where a tree belongs it climbs to the
    looser ones, and parentheses bring it back to the tightest. The parsing steps are lemmas of their
    own, free of printed text, and so are the lemmas that say where the parts of a text stand. */
module RoundTrip {
  import opened Syntax
  import opened Ast
  import opened Grammar
  import opened Printer

  // ------------------------------------------------------------------ printed text inside a token list

  /** The tokens `xs` are found from `pos` on. */
  ghost predicate At(ts: seq<Token>, pos: nat, xs: seq<Token>) {
    pos + |xs| <= |ts| && forall i :: 0 <= i < |xs| ==> xs[i] == ts[pos + i]
  }

  lemma AtSplit(ts: seq<Token>, pos: nat, xs: seq<Token>, ys: seq<Token>)
    requires At(ts, pos, xs + ys)
    ensures At(ts, pos, xs) && At(ts, pos + |xs|, ys)
  {
    forall i | 0 <= i < |xs|
      ensures xs[i] == ts[pos + i]
    {
      assert (xs + ys)[i] == xs[i];
    }
    forall i | 0 <= i < |ys|
      ensures ys[i] == ts[pos + |xs| + i]
    {
      assert (xs + ys)[|xs| + i] == ys[i];
    }
  }

  lemma AtOne(ts: seq<Token>, pos: nat, t: Token)
    requires At(ts, pos, [t])
    ensures TokenAt(ts, pos) == t && pos < |ts|
  {
    assert [t][0] == ts[pos + 0];
  }

  /** xs t ys */
  lemma AtInfix(ts: seq<Token>, pos: nat, xs: seq<Token>, t: Token, ys: seq<Token>)
    requires At(ts, pos, xs + [t] + ys)
    ensures At(ts, pos, xs) && TokenAt(ts, pos + |xs|) == t && At(ts, pos + |xs| + 1, ys)
  {
    AtSplit(ts, pos, xs + [t], ys);
    AtSplit(ts, pos, xs, [t]);
    AtOne(ts, pos + |xs|, t);
  }

  /** xs t ys u */
  lemma AtClosed(ts: seq<Token>, pos: nat, xs: seq<Token>, t: Token, ys: seq<Token>, u: Token)
    requires At(ts, pos, xs + [t] + ys + [u])
    ensures At(ts, pos, xs) && TokenAt(ts, pos + |xs|) == t && At(ts, pos + |xs| + 1, ys) && TokenAt(ts, pos + |xs| + 1 + |ys|) == u
  {
    AtSplit(ts, pos, xs + [t] + ys, [u]);
    AtInfix(ts, pos, xs, t, ys);
    AtOne(ts, pos + |xs| + 1 + |ys|, u);
  }

  /** t u v xs */
  lemma AtCast(ts: seq<Token>, pos: nat, t: Token, u: Token, v: Token, xs: seq<Token>)
    requires At(ts, pos, [t] + [u] + [v] + xs)
    ensures TokenAt(ts, pos) == t && TokenAt(ts, pos + 1) == u && TokenAt(ts, pos + 2) == v && At(ts, pos + 3, xs)
  {
    AtInfix(ts, pos, [t] + [u], v, xs);
    AtSplit(ts, pos, [t], [u]);
    AtOne(ts, pos, t);
    AtOne(ts, pos + 1, u);
  }

  lemma AtPrint(spell: map<Kind, string>, ts: seq<Token>, pos: nat, a: Ast, lvl: nat)
    requires At(ts, pos, Print(spell, a, lvl)) && Level(a) > lvl
    ensures KindAt(ts, pos).LPAREN? && At(ts, pos + 1, Body(spell, a)) && KindAt(ts, pos + 1 + |Body(spell, a)|).RPAREN?
    ensures pos + 1 + |Body(spell, a)| < |ts| && |Print(spell, a, lvl)| == |Body(spell, a)| + 2
  {
    AtWrapped(spell, ts, pos, LPAREN, Body(spell, a), RPAREN);
  }

  lemma AtWrapped(spell: map<Kind, string>, ts: seq<Token>, pos: nat, open: Kind, xs: seq<Token>, close: Kind)
    requires At(ts, pos, Wrapped(spell, open, xs, close))
    ensures TokenAt(ts, pos) == Op(spell, open) && At(ts, pos + 1, xs) && TokenAt(ts, pos + 1 + |xs|) == Op(spell, close)
    ensures pos + 1 + |xs| < |ts| && |Wrapped(spell, open, xs, close)| == |xs| + 2
  {
    assert Wrapped(spell, open, xs, close) == [] + [Op(spell, open)] + xs + [Op(spell, close)];
    AtClosed(ts, pos, [], Op(spell, open), xs, Op(spell, close));
  }

  lemma AtBetween(spell: map<Kind, string>, ts: seq<Token>, pos: nat, op: Kind, xs: seq<Token>, ys: seq<Token>)
    requires At(ts, pos, Between(spell, op, xs, ys))
    ensures At(ts, pos, xs) && TokenAt(ts, pos + |xs|) == Op(spell, op) && At(ts, pos + |xs| + 1, ys)
    ensures op.LBRACKET? ==> KindAt(ts, pos + |xs| + 1 + |ys|).RBRACKET?
    ensures |Between(spell, op, xs, ys)| == |xs| + 1 + |ys| + (if op.LBRACKET? then 1 else 0)
  {
    if op.LBRACKET? {
      AtClosed(ts, pos, xs, Op(spell, op), ys, Op(spell, RBRACKET));
    } else {
      assert Between(spell, op, xs, ys) == xs + [Op(spell, op)] + ys;
      AtInfix(ts, pos, xs, Op(spell, op), ys);
    }
  }

  lemma AtBinary(spell: map<Kind, string>, ts: seq<Token>, pos: nat, a: Ast, xs: seq<Token>, ys: seq<Token>)
    requires a.Binary? && At(ts, pos, Infix(spell, a))
    requires xs == Print(spell, a.left, LeftLevel(a.op)) && ys == Print(spell, a.right, RightLevel(a.op))
    ensures At(ts, pos, xs) && TokenAt(ts, pos + |xs|) == Op(spell, a.op) && At(ts, pos + |xs| + 1, ys)
    ensures |Infix(spell, a)| == |xs| + 1 + |ys| + (if a.op.LBRACKET? then 1 else 0)
    ensures a.op.LBRACKET? ==> KindAt(ts, pos + |xs| + 1 + |ys|).RBRACKET?
  {
    AtBetween(spell, ts, pos, a.op, xs, ys);
  }

  lemma AtTernary(spell: map<Kind, string>, ts: seq<Token>, pos: nat, a: Ast, xs: seq<Token>, ys: seq<Token>, zs: seq<Token>)
    requires a.Ternary? && At(ts, pos, Conditional(spell, a))
    requires xs == Print(spell, a.condition, 15) && ys == Print(spell, a.trueExpr, 16) && zs == Print(spell, a.falseExpr, 16)
    ensures At(ts, pos, xs) && KindAt(ts, pos + |xs|).QUESTION? && At(ts, pos + |xs| + 1, ys)
    ensures KindAt(ts, pos + |xs| + 1 + |ys|).COLON? && At(ts, pos + |xs| + |ys| + 2, zs)
    ensures |Conditional(spell, a)| == |xs| + |ys| + |zs| + 2
  {
    AtChoice(spell, ts, pos, xs, ys, zs);
  }

  lemma AtChoice(spell: map<Kind, string>, ts: seq<Token>, pos: nat, xs: seq<Token>, ys: seq<Token>, zs: seq<Token>)
    requires At(ts, pos, Choice(spell, xs, ys, zs))
    ensures At(ts, pos, xs) && KindAt(ts, pos + |xs|).QUESTION? && At(ts, pos + |xs| + 1, ys)
    ensures KindAt(ts, pos + |xs| + 1 + |ys|).COLON? && At(ts, pos + |xs| + |ys| + 2, zs)
    ensures |Choice(spell, xs, ys, zs)| == |xs| + |ys| + |zs| + 2
  {
    AtInfix(ts, pos, xs + [Op(spell, QUESTION)] + ys, Op(spell, COLON), zs);
    AtInfix(ts, pos, xs, Op(spell, QUESTION), ys);
  }

  lemma AtUnary(spell: map<Kind, string>, ts: seq<Token>, pos: nat, a: Ast)
    requires a.Unary? && At(ts, pos, Prefixed(spell, a))
    ensures var xs, skip := Print(spell, a.operand, 3), if a.op.TYPECAST? then 3 else 1;
      At(ts, pos + skip, xs) && |Prefixed(spell, a)| == skip + |xs|
    ensures if a.op.TYPECAST? then KindAt(ts, pos).LPAREN? && TokenAt(ts, pos + 1) == Token(IDENTIFIER, a.typeName) && KindAt(ts, pos + 2).RPAREN?
      else TokenAt(ts, pos) == Op(spell, a.op)
  {
    var xs := Print(spell, a.operand, 3);
    if a.op.TYPECAST? {
      AtCast(ts, pos, Op(spell, LPAREN), Token(IDENTIFIER, a.typeName), Op(spell, RPAREN), xs);
    } else {
      AtSplit(ts, pos, [Op(spell, a.op)], xs);
      AtOne(ts, pos, Op(spell, a.op));
    }
  }

  lemma AtSuffix(spell: map<Kind, string>, ts: seq<Token>, pos: nat, a: Ast)
    requires a.Suffix? && At(ts, pos, Postfixed(spell, a))
    ensures var xs := Print(spell, a.operand, 1);
      At(ts, pos, xs) && TokenAt(ts, pos + |xs|) == Op(spell, a.op) && |Postfixed(spell, a)| == |xs| + 1
  {
    var xs := Print(spell, a.operand, 1);
    AtSplit(ts, pos, xs, [Op(spell, a.op)]);
    AtOne(ts, pos + |xs|, Op(spell, a.op));
  }

  lemma AtArray(spell: map<Kind, string>, ts: seq<Token>, pos: nat, a: Ast)
    requires a.Array? && At(ts, pos, Listed(spell, a))
    ensures var xs := PrintList(spell, a.items);
      && KindAt(ts, pos).LBRACKET? && At(ts, pos + 1, xs) && KindAt(ts, pos + 1 + |xs|).RBRACKET?
      && |Listed(spell, a)| == |xs| + 2
  {
    AtWrapped(spell, ts, pos, LBRACKET, PrintList(spell, a.items), RBRACKET);
  }

  lemma AtApply(spell: map<Kind, string>, ts: seq<Token>, pos: nat, a: Ast)
    requires a.Apply? && At(ts, pos, Called(spell, a))
    ensures var xs, ys := Print(spell, a.func, 1), PrintList(spell, a.args);
      && At(ts, pos, xs) && KindAt(ts, pos + |xs|).LPAREN? && At(ts, pos + |xs| + 1, ys)
      && KindAt(ts, pos + |xs| + 1 + |ys|).RPAREN? && |Called(spell, a)| == |xs| + |ys| + 2
  {
    AtClosed(ts, pos, Print(spell, a.func, 1), Op(spell, LPAREN), PrintList(spell, a.args), Op(spell, RPAREN));
  }

  // ------------------------------------------------------------------ reading at a level

  /** Kinds the postfix loop consumes. */
  predicate Continues(k: Kind) {
    k.INCREMENT? || k.DECREMENT? || k.LPAREN? || k.LBRACKET? || k.DOT?
  }

  /** The token cannot continue an expression read at level `lvl`. */
  predicate Stops(lvl: nat, k: Kind) {
    && (lvl >= 2 ==> !Continues(k))
    && (BinaryLevel(k) > 0 ==> BinaryLevel(k) > lvl)
    && (lvl >= 16 ==> !IsAssign(k) && !k.QUESTION?)
  }

  /** What reading tree `a` up to `end` means at each level: loops of a level that have read `a`
      go on from `end`. */
  ghost predicate Reads<V>(d: Dialect<V>, ts: seq<Token>, pos: nat, lvl: nat, a: Ast, end: nat) {
    && pos <= end <= |ts|
    && if lvl == 0 then ParsePrimary(d, ts, pos) == Parsed(a, end)
       else if lvl == 1 then ParsePostfix(d, ts, pos) == ChainTail(d, ts, a, end)
       else if lvl == 2 then Stops(2, KindAt(ts, end)) ==> ParsePostfix(d, ts, pos) == Parsed(a, end)
       else if lvl <= 4 then Stops(2, KindAt(ts, end)) ==> ParsePrefix(d, ts, pos) == Parsed(a, end)
       else if lvl <= 15 then Stops(lvl - 1, KindAt(ts, end)) ==> ParseBinary(d, ts, lvl, pos) == BinaryTail(d, ts, lvl, a, end)
       else Stops(16, KindAt(ts, end)) ==> ParseExpr(d, ts, pos) == Parsed(a, end)
  }

  /** No prefix operator and no cast begins here. */
  ghost predicate PlainStart<V>(d: Dialect<V>, ts: seq<Token>, pos: nat) {
    !IsPrefix(KindAt(ts, pos)) && !CastAt(d, ts, pos)
  }

  /** Reading at one level carries over to the next looser one. */
  lemma Climb<V>(d: Dialect<V>, ts: seq<Token>, pos: nat, lvl: nat, a: Ast, end: nat)
    requires lvl < 16 && Reads(d, ts, pos, lvl, a, end)
    requires lvl == 2 ==> PlainStart(d, ts, pos)
    ensures Reads(d, ts, pos, lvl + 1, a, end)
  {
    if lvl == 4 {
      assert ParseBinary(d, ts, 4, pos) == ParsePrefix(d, ts, pos);
    }
  }

  lemma {:induction false} ClimbTo<V>(d: Dialect<V>, ts: seq<Token>, pos: nat, lvl: nat, a: Ast, end: nat, to: nat)
    requires lvl <= to <= 16 && Reads(d, ts, pos, lvl, a, end)
    requires lvl <= 2 < to ==> PlainStart(d, ts, pos)
    ensures Reads(d, ts, pos, to, a, end)
    decreases 16 - lvl
  {
    if lvl < to {
      Climb(d, ts, pos, lvl, a, end);
      ClimbTo(d, ts, pos, lvl + 1, a, end, to);
    }
  }

  // ------------------------------------------------------------------ how printed text begins

  /** Kinds an expression can begin with. */
  predicate Begins(k: Kind) {
    IsLiteral(k) || IsPrefix(k) || k.IDENTIFIER? || k.LPAREN? || k.LBRACKET?
  }

  /** It begins like an expression, and not with an identifier directly before a closing parenthesis. */
  ghost predicate GoodHead(ts: seq<Token>, pos: nat, n: nat) {
    n > 0 && Begins(KindAt(ts, pos)) && (n > 1 ==> !(KindAt(ts, pos).IDENTIFIER? && KindAt(ts, pos + 1).RPAREN?))
  }

  lemma {:induction false} HeadOfBody<V>(d: Dialect<V>, spell: map<Kind, string>, ts: seq<Token>, pos: nat, a: Ast)
    requires Printable(d, a) && At(ts, pos, Body(spell, a))
    ensures GoodHead(ts, pos, |Body(spell, a)|) && (Level(a) > 0 ==> |Body(spell, a)| > 1)
    decreases a, 0
  {
    match a
    case Binary(op, l, r) =>
      AtBinary(spell, ts, pos, a, Print(spell, l, LeftLevel(op)), Print(spell, r, RightLevel(op)));
      HeadOfPrint(d, spell, ts, pos, l, LeftLevel(op));
    case Ternary(_, c, t, f) =>
      AtTernary(spell, ts, pos, a, Print(spell, c, 15), Print(spell, t, 16), Print(spell, f, 16));
      HeadOfPrint(d, spell, ts, pos, c, 15);
    case Unary(op, ty, x) =>
      AtUnary(spell, ts, pos, a);
      HeadOfPrint(d, spell, ts, pos + if op.TYPECAST? then 3 else 1, x, 3);
    case Suffix(op, x) =>
      AtSuffix(spell, ts, pos, a);
      HeadOfPrint(d, spell, ts, pos, x, 1);
    case Apply(f, args) =>
      AtApply(spell, ts, pos, a);
      HeadOfPrint(d, spell, ts, pos, f, 1);
    case Array(_) => AtArray(spell, ts, pos, a);
    case Ident(name) => AtOne(ts, pos, Token(IDENTIFIER, name));
    case Literal(kind, text) => AtOne(ts, pos, Token(LiteralToken(kind), text));
  }

  lemma {:induction false} HeadOfPrint<V>(d: Dialect<V>, spell: map<Kind, string>, ts: seq<Token>, pos: nat, a: Ast, lvl: nat)
    requires Printable(d, a) && At(ts, pos, Print(spell, a, lvl))
    ensures GoodHead(ts, pos, |Print(spell, a, lvl)|)
    decreases a, 1
  {
    if Level(a) > lvl {
      AtPrint(spell, ts, pos, a, lvl);
    }
    HeadOfBody(d, spell, ts, if Level(a) > lvl then pos + 1 else pos, a);
  }

  /** Text printed at level 2 or tighter never starts with a prefix operator or a cast. */
  lemma {:induction false} PlainHead<V>(d: Dialect<V>, spell: map<Kind, string>, ts: seq<Token>, pos: nat, a: Ast, lvl: nat)
    requires Printable(d, a) && lvl <= 2 && At(ts, pos, Print(spell, a, lvl))
    ensures PlainStart(d, ts, pos)
    decreases a, 1
  {
    if Level(a) > lvl {
      AtPrint(spell, ts, pos, a, lvl);
      HeadOfBody(d, spell, ts, pos + 1, a);
    } else {
      PlainBody(d, spell, ts, pos, a);
    }
  }

  lemma {:induction false} PlainBody<V>(d: Dialect<V>, spell: map<Kind, string>, ts: seq<Token>, pos: nat, a: Ast)
    requires Printable(d, a) && Level(a) <= 2 && At(ts, pos, Body(spell, a))
    ensures PlainStart(d, ts, pos)
    decreases a, 0
  {
    match a
    case Binary(op, l, r) =>
      AtBinary(spell, ts, pos, a, Print(spell, l, LeftLevel(op)), Print(spell, r, RightLevel(op)));
      assert LeftLevel(op) == 1;
      PlainHead(d, spell, ts, pos, l, 1);
    case Suffix(op, x) =>
      AtSuffix(spell, ts, pos, a);
      PlainHead(d, spell, ts, pos, x, 1);
    case Apply(f, args) =>
      AtApply(spell, ts, pos, a);
      PlainHead(d, spell, ts, pos, f, 1);
    case Array(_) => AtArray(spell, ts, pos, a);
    case Ident(name) => AtOne(ts, pos, Token(IDENTIFIER, name));
    case Literal(kind, text) => AtOne(ts, pos, Token(LiteralToken(kind), text));
  }

  // ------------------------------------------------------------------ one parsing step

  lemma AssignStep<V>(d: Dialect<V>, ts: seq<Token>, pos: nat, l: Ast, mid: nat, r: Ast, end: nat)
    requires pos <= mid < |ts| && IsAssign(KindAt(ts, mid))
    requires ParseBinary(d, ts, 15, pos) == BinaryTail(d, ts, 15, l, mid) && ParseExpr(d, ts, mid + 1) == Parsed(r, end)
    ensures ParseExpr(d, ts, pos) == Parsed(Binary(KindAt(ts, mid), l, r), end)
  {
  }

  lemma BranchesStep<V>(d: Dialect<V>, ts: seq<Token>, pos: nat, a: Ast, mid: nat, end: nat)
    requires a.Ternary? && a.op.QUESTION? && pos < mid < |ts| && KindAt(ts, mid).COLON?
    requires Reads(d, ts, pos + 1, 16, a.trueExpr, mid) && Reads(d, ts, mid + 1, 16, a.falseExpr, end) && Stops(16, KindAt(ts, end))
    ensures ParseBranches(d, ts, a.condition, pos) == Parsed(a, end)
  {
  }

  lemma TernaryStep<V>(d: Dialect<V>, ts: seq<Token>, pos: nat, c: Ast, mid: nat)
    requires pos <= mid < |ts| && KindAt(ts, mid).QUESTION? && ParseBinary(d, ts, 15, pos) == BinaryTail(d, ts, 15, c, mid)
    ensures ParseExpr(d, ts, pos) == ParseBranches(d, ts, c, mid)
  {
  }

  lemma BinaryStep<V>(d: Dialect<V>, ts: seq<Token>, pos: nat, a: Ast, mid: nat, end: nat)
    requires a.Binary? && BinaryLevel(a.op) > 0 && pos <= mid < |ts| && KindAt(ts, mid) == a.op
    requires var k := BinaryLevel(a.op); Reads(d, ts, pos, k, a.left, mid) && Reads(d, ts, mid + 1, k - 1, a.right, end)
    ensures Reads(d, ts, pos, BinaryLevel(a.op), a, end)
  {
    var k := BinaryLevel(a.op);
    if Stops(k - 1, KindAt(ts, end)) {
      assert ParseBinary(d, ts, k, pos) == BinaryTail(d, ts, k, a.left, mid);
      assert ParseBinary(d, ts, k - 1, mid + 1) == Parsed(a.right, end);
    }
  }

  lemma ArrayStep<V>(d: Dialect<V>, ts: seq<Token>, pos: nat, a: Ast, end: nat)
    requires a.Array? && pos < end <= |ts| && KindAt(ts, pos).LBRACKET? && ParseItems(d, ts, pos + 1, []) == ParsedList(a.items, end)
    ensures Reads(d, ts, pos, 0, a, end)
  {
  }

  lemma DotStep<V>(d: Dialect<V>, ts: seq<Token>, pos: nat, a: Ast, mid: nat, end: nat)
    requires a.Binary? && a.op.DOT? && pos <= mid < |ts| && KindAt(ts, mid) == a.op
    requires Reads(d, ts, pos, 1, a.left, mid) && Reads(d, ts, mid + 1, 0, a.right, end)
    ensures Reads(d, ts, pos, 1, a, end)
  {
    assert a == Binary(DOT, a.left, a.right);
    assert ParseMember(d, ts, a.left, mid) == ChainTail(d, ts, a, end);
  }

  lemma IndexStep<V>(d: Dialect<V>, ts: seq<Token>, pos: nat, a: Ast, mid: nat, end: nat)
    requires a.Binary? && a.op.LBRACKET? && pos <= mid < |ts| && KindAt(ts, mid) == a.op && !a.right.Null?
    requires 0 < end <= |ts| && KindAt(ts, end - 1).RBRACKET?
    requires Reads(d, ts, pos, 1, a.left, mid) && Reads(d, ts, mid + 1, 16, a.right, end - 1)
    ensures Reads(d, ts, pos, 1, a, end)
  {
    assert a == Binary(LBRACKET, a.left, a.right);
    assert ParseIndex(d, ts, a.left, mid) == ChainTail(d, ts, a, end);
  }

  lemma CallStep<V>(d: Dialect<V>, ts: seq<Token>, f: Ast, mid: nat, args: seq<Ast>, end: nat)
    requires mid < |ts| && KindAt(ts, mid).LPAREN? && end <= |ts| && (KindAt(ts, mid + 1).RPAREN? <==> args == [])
    requires if args == [] then end == mid + 2 else ParseArgs(d, ts, mid + 1, []) == ParsedList(args, end)
    ensures ChainTail(d, ts, f, mid) == ChainTail(d, ts, Apply(f, args), end)
  {
  }

  lemma ItemStep<V>(d: Dialect<V>, ts: seq<Token>, pos: nat, acc: seq<Ast>, item: Ast, end: nat, next: nat)
    requires pos <= |ts| && !KindAt(ts, pos).RBRACKET? && !item.Null? && ParseExpr(d, ts, pos) == Parsed(item, end)
    requires next == if KindAt(ts, end).COMMA? then end + 1 else end
    ensures ParseItems(d, ts, pos, acc) == ParseItems(d, ts, next, acc + [item])
  {
  }

  lemma ItemsEnd<V>(d: Dialect<V>, ts: seq<Token>, pos: nat, acc: seq<Ast>)
    requires pos <= |ts| && KindAt(ts, pos).RBRACKET?
    ensures ParseItems(d, ts, pos, acc) == ParsedList(acc, pos + 1)
  {
  }

  // ------------------------------------------------------------------ the round trip

  /** Wherever a printed tree stands, it is read back. */
  lemma {:induction false} Reading<V>(d: Dialect<V>, spell: map<Kind, string>, ts: seq<Token>, pos: nat, a: Ast, lvl: nat)
    requires Printable(d, a) && lvl <= 16 && At(ts, pos, Print(spell, a, lvl))
    ensures Reads(d, ts, pos, lvl, a, pos + |Print(spell, a, lvl)|)
    decreases a, if Level(a) > lvl then 4 else 3
  {
    LevelBound(a);
    var end := pos + |Print(spell, a, lvl)|;
    if Level(a) > lvl {
      AtPrint(spell, ts, pos, a, lvl);
      Reading(d, spell, ts, pos + 1, a, 16);
      HeadOfBody(d, spell, ts, pos + 1, a);
      ParenStep(d, ts, pos, a, end);
      ClimbTo(d, ts, pos, 0, a, end, lvl);
    } else {
      ReadingBody(d, spell, ts, pos, a);
      if Level(a) <= 2 {
        PlainBody(d, spell, ts, pos, a);
      }
      ClimbTo(d, ts, pos, Level(a), a, end, lvl);
    }
  }

  lemma ParenStep<V>(d: Dialect<V>, ts: seq<Token>, pos: nat, a: Ast, end: nat)
    requires pos + 1 < end <= |ts| && KindAt(ts, pos).LPAREN? && KindAt(ts, end - 1).RPAREN? && Reads(d, ts, pos + 1, 16, a, end - 1)
    ensures Reads(d, ts, pos, 0, a, end)
  {
  }

  lemma LevelBound(a: Ast)
    ensures Level(a) <= 16
  {
  }

  /** A tree at its own level. */
  lemma {:induction false} ReadingBody<V>(d: Dialect<V>, spell: map<Kind, string>, ts: seq<Token>, pos: nat, a: Ast)
    requires Printable(d, a) && At(ts, pos, Body(spell, a))
    ensures Reads(d, ts, pos, Level(a), a, pos + |Body(spell, a)|)
    decreases a, 2
  {
    match a
    case Binary(op, l, r) =>
      if IsAssign(op) {
        ReadingAssign(d, spell, ts, pos, a);
      } else if op.LBRACKET? {
        ReadingIndex(d, spell, ts, pos, a);
      } else if op.DOT? {
        ReadingDot(d, spell, ts, pos, a);
      } else {
        ReadingBinary(d, spell, ts, pos, a);
      }
    case Ternary(_, _, _, _) => ReadingTernary(d, spell, ts, pos, a);
    case Unary(_, _, _) => ReadingUnary(d, spell, ts, pos, a);
    case Suffix(op, x) => ReadingSuffix(d, spell, ts, pos, a);
    case Apply(_, _) => ReadingApply(d, spell, ts, pos, a);
    case Array(items) => ReadingArray(d, spell, ts, pos, a);
    case Ident(name) => AtOne(ts, pos, Token(IDENTIFIER, name));
    case Literal(kind, text) => AtOne(ts, pos, Token(LiteralToken(kind), text));
  }

  lemma AssignLevels(op: Kind)
    requires IsAssign(op)
    ensures LeftLevel(op) == 15 && RightLevel(op) == 16
  {
  }

  lemma BinaryLevels(op: Kind)
    requires BinaryLevel(op) > 0
    ensures LeftLevel(op) == BinaryLevel(op) && RightLevel(op) == BinaryLevel(op) - 1
  {
  }

  lemma IndexLevels(op: Kind)
    requires op.LBRACKET?
    ensures LeftLevel(op) == 1 && RightLevel(op) == 16
  {
  }

  lemma DotLevels(op: Kind)
    requires op.DOT?
    ensures LeftLevel(op) == 1 && RightLevel(op) == 0
  {
  }

  /** Both operands of a binary expression, with the operator in between. */
  lemma {:induction false} ReadingOperands<V>(d: Dialect<V>, spell: map<Kind, string>, ts: seq<Token>, pos: nat, a: Ast, end: nat) returns (mid: nat)
    requires Printable(d, a) && a.Binary? && At(ts, pos, Infix(spell, a)) && end == pos + |Infix(spell, a)|
    ensures pos <= mid < |ts| && KindAt(ts, mid) == a.op && end <= |ts| && mid < end && !a.right.Null?
    ensures Reads(d, ts, pos, LeftLevel(a.op), a.left, mid)
    ensures if a.op.LBRACKET? then KindAt(ts, end - 1).RBRACKET? && Reads(d, ts, mid + 1, RightLevel(a.op), a.right, end - 1)
      else Reads(d, ts, mid + 1, RightLevel(a.op), a.right, end)
    decreases a, 0
  {
    AtBinary(spell, ts, pos, a, Print(spell, a.left, LeftLevel(a.op)), Print(spell, a.right, RightLevel(a.op)));
    mid := pos + |Print(spell, a.left, LeftLevel(a.op))|;
    Reading(d, spell, ts, pos, a.left, LeftLevel(a.op));
    Reading(d, spell, ts, mid + 1, a.right, RightLevel(a.op));
  }

  lemma {:induction false} ReadingAssign<V>(d: Dialect<V>, spell: map<Kind, string>, ts: seq<Token>, pos: nat, a: Ast)
    requires Printable(d, a) && a.Binary? && IsAssign(a.op) && At(ts, pos, Infix(spell, a))
    ensures Reads(d, ts, pos, 16, a, pos + |Infix(spell, a)|)
    decreases a, 1
  {
    AssignLevels(a.op);
    var end := pos + |Infix(spell, a)|;
    var mid := ReadingOperands(d, spell, ts, pos, a, end);
    AssignReads(d, ts, pos, a, mid, end);
  }

  lemma AssignReads<V>(d: Dialect<V>, ts: seq<Token>, pos: nat, a: Ast, mid: nat, end: nat)
    requires a.Binary? && IsAssign(a.op) && pos <= mid < |ts| && KindAt(ts, mid) == a.op
    requires Reads(d, ts, pos, 15, a.left, mid) && Reads(d, ts, mid + 1, 16, a.right, end)
    ensures Reads(d, ts, pos, 16, a, end)
  {
    if Stops(16, KindAt(ts, end)) {
      AssignStep(d, ts, pos, a.left, mid, a.right, end);
    }
  }

  lemma {:induction false} ReadingTernary<V>(d: Dialect<V>, spell: map<Kind, string>, ts: seq<Token>, pos: nat, a: Ast)
    requires Printable(d, a) && a.Ternary? && At(ts, pos, Conditional(spell, a))
    ensures Reads(d, ts, pos, 16, a, pos + |Conditional(spell, a)|)
    decreases a, 1
  {
    AtTernary(spell, ts, pos, a, Print(spell, a.condition, 15), Print(spell, a.trueExpr, 16), Print(spell, a.falseExpr, 16));
    var mid := pos + |Print(spell, a.condition, 15)|;
    Reading(d, spell, ts, pos, a.condition, 15);
    TernaryStep(d, ts, pos, a.condition, mid);
    ReadingBranches(d, spell, ts, pos, a);
  }

  lemma {:induction false} ReadingBranches<V>(d: Dialect<V>, spell: map<Kind, string>, ts: seq<Token>, pos: nat, a: Ast)
    requires Printable(d, a) && a.Ternary? && At(ts, pos, Conditional(spell, a))
    ensures var mid, end := pos + |Print(spell, a.condition, 15)|, pos + |Conditional(spell, a)|;
      mid < end <= |ts| && (Stops(16, KindAt(ts, end)) ==> ParseBranches(d, ts, a.condition, mid) == Parsed(a, end))
    decreases a, 0
  {
    AtTernary(spell, ts, pos, a, Print(spell, a.condition, 15), Print(spell, a.trueExpr, 16), Print(spell, a.falseExpr, 16));
    var start := pos + |Print(spell, a.condition, 15)|;
    var mid := start + 1 + |Print(spell, a.trueExpr, 16)|;
    Reading(d, spell, ts, start + 1, a.trueExpr, 16);
    Reading(d, spell, ts, mid + 1, a.falseExpr, 16);
    if Stops(16, KindAt(ts, pos + |Conditional(spell, a)|)) {
      BranchesStep(d, ts, start, a, mid, pos + |Conditional(spell, a)|);
    }
  }

  lemma {:induction false} ReadingBinary<V>(d: Dialect<V>, spell: map<Kind, string>, ts: seq<Token>, pos: nat, a: Ast)
    requires Printable(d, a) && a.Binary? && BinaryLevel(a.op) > 0 && At(ts, pos, Infix(spell, a))
    ensures Reads(d, ts, pos, BinaryLevel(a.op), a, pos + |Infix(spell, a)|)
    decreases a, 1
  {
    var end := pos + |Infix(spell, a)|;
    BinaryLevels(a.op);
    var mid := ReadingOperands(d, spell, ts, pos, a, end);
    BinaryStep(d, ts, pos, a, mid, end);
  }

  lemma {:induction false} ReadingUnary<V>(d: Dialect<V>, spell: map<Kind, string>, ts: seq<Token>, pos: nat, a: Ast)
    requires Printable(d, a) && a.Unary? && At(ts, pos, Prefixed(spell, a))
    ensures Reads(d, ts, pos, 3, a, pos + |Prefixed(spell, a)|)
    decreases a, 1
  {
    AtUnary(spell, ts, pos, a);
    Reading(d, spell, ts, pos + if a.op.TYPECAST? then 3 else 1, a.operand, 3);
  }

  lemma {:induction false} ReadingSuffix<V>(d: Dialect<V>, spell: map<Kind, string>, ts: seq<Token>, pos: nat, a: Ast)
    requires Printable(d, a) && a.Suffix? && At(ts, pos, Postfixed(spell, a))
    ensures Reads(d, ts, pos, 2, a, pos + |Postfixed(spell, a)|)
    decreases a, 1
  {
    AtSuffix(spell, ts, pos, a);
    Reading(d, spell, ts, pos, a.operand, 1);
  }

  lemma {:induction false} ReadingDot<V>(d: Dialect<V>, spell: map<Kind, string>, ts: seq<Token>, pos: nat, a: Ast)
    requires Printable(d, a) && a.Binary? && a.op.DOT? && At(ts, pos, Infix(spell, a))
    ensures Reads(d, ts, pos, 1, a, pos + |Infix(spell, a)|)
    decreases a, 1
  {
    DotLevels(a.op);
    var end := pos + |Infix(spell, a)|;
    var mid := ReadingOperands(d, spell, ts, pos, a, end);
    DotStep(d, ts, pos, a, mid, end);
  }

  lemma {:induction false} ReadingIndex<V>(d: Dialect<V>, spell: map<Kind, string>, ts: seq<Token>, pos: nat, a: Ast)
    requires Printable(d, a) && a.Binary? && a.op.LBRACKET? && At(ts, pos, Infix(spell, a))
    ensures Reads(d, ts, pos, 1, a, pos + |Infix(spell, a)|)
    decreases a, 1
  {
    IndexLevels(a.op);
    var end := pos + |Infix(spell, a)|;
    var mid := ReadingOperands(d, spell, ts, pos, a, end);
    IndexStep(d, ts, pos, a, mid, end);
  }

  lemma {:induction false} ReadingApply<V>(d: Dialect<V>, spell: map<Kind, string>, ts: seq<Token>, pos: nat, a: Ast)
    requires Printable(d, a) && a.Apply? && At(ts, pos, Called(spell, a))
    ensures Reads(d, ts, pos, 1, a, pos + |Called(spell, a)|)
    decreases a, 1
  {
    AtApply(spell, ts, pos, a);
    var mid := pos + |Print(spell, a.func, 1)|;
    Reading(d, spell, ts, pos, a.func, 1);
    if a.args != [] {
      ReadingArgs(d, spell, ts, mid + 1, a.args, []);
      assert [] + a.args == a.args;
    }
    CallStep(d, ts, a.func, mid, a.args, pos + |Called(spell, a)|);
  }

  lemma {:induction false} ReadingArray<V>(d: Dialect<V>, spell: map<Kind, string>, ts: seq<Token>, pos: nat, a: Ast)
    requires Printable(d, a) && a.Array? && At(ts, pos, Listed(spell, a))
    ensures Reads(d, ts, pos, 0, a, pos + |Listed(spell, a)|)
    decreases a, 1
  {
    assert AllPrintable(d, a.items);
    AtArray(spell, ts, pos, a);
    ReadingItems(d, spell, ts, pos + 1, a.items, []);
    assert [] + a.items == a.items;
    ArrayStep(d, ts, pos, a, pos + |Listed(spell, a)|);
  }

  lemma AtList(spell: map<Kind, string>, ts: seq<Token>, pos: nat, asts: seq<Ast>, xs: seq<Token>, ys: seq<Token>)
    requires |asts| > 1 && At(ts, pos, PrintList(spell, asts)) && xs == Print(spell, asts[0], 16) && ys == PrintList(spell, asts[1..])
    ensures At(ts, pos, xs) && KindAt(ts, pos + |xs|).COMMA? && At(ts, pos + |xs| + 1, ys) && |PrintList(spell, asts)| == |xs| + 1 + |ys|
  {
    AtInfix(ts, pos, xs, Op(spell, COMMA), ys);
  }

  lemma {:induction false} ReadingArgs<V>(d: Dialect<V>, spell: map<Kind, string>, ts: seq<Token>, pos: nat, asts: seq<Ast>, acc: seq<Ast>)
    requires asts != [] && AllPrintable(d, asts) && At(ts, pos, PrintList(spell, asts)) && KindAt(ts, pos + |PrintList(spell, asts)|).RPAREN?
    ensures ParseArgs(d, ts, pos, acc) == ParsedList(acc + asts, pos + |PrintList(spell, asts)| + 1)
    ensures !KindAt(ts, pos).RPAREN?
    decreases asts, 5
  {
    if |asts| > 1 {
      AtList(spell, ts, pos, asts, Print(spell, asts[0], 16), PrintList(spell, asts[1..]));
    }
    var next := pos + |Print(spell, asts[0], 16)|;
    Reading(d, spell, ts, pos, asts[0], 16);
    HeadOfItem(d, spell, ts, pos, asts[0]);
    if |asts| == 1 {
      assert asts == [asts[0]];
      ArgsEnd(d, ts, pos, acc, asts[0], next);
    } else {
      ReadingArgs(d, spell, ts, next + 1, asts[1..], acc + [asts[0]]);
      assert acc + asts == acc + [asts[0]] + asts[1..];
      ArgStep(d, ts, pos, acc, asts[0], next);
    }
  }

  lemma ArgStep<V>(d: Dialect<V>, ts: seq<Token>, pos: nat, acc: seq<Ast>, arg: Ast, end: nat)
    requires pos <= |ts| && !arg.Null? && ParseExpr(d, ts, pos) == Parsed(arg, end) && KindAt(ts, end).COMMA?
    ensures ParseArgs(d, ts, pos, acc) == ParseArgs(d, ts, end + 1, acc + [arg])
  {
  }

  lemma ArgsEnd<V>(d: Dialect<V>, ts: seq<Token>, pos: nat, acc: seq<Ast>, arg: Ast, end: nat)
    requires pos <= |ts| && !arg.Null? && ParseExpr(d, ts, pos) == Parsed(arg, end) && KindAt(ts, end).RPAREN?
    ensures ParseArgs(d, ts, pos, acc) == ParsedList(acc + [arg], end + 1)
  {
  }

  lemma {:induction false} ReadingItems<V>(d: Dialect<V>, spell: map<Kind, string>, ts: seq<Token>, pos: nat, asts: seq<Ast>, acc: seq<Ast>)
    requires AllPrintable(d, asts) && At(ts, pos, PrintList(spell, asts)) && KindAt(ts, pos + |PrintList(spell, asts)|).RBRACKET?
    ensures ParseItems(d, ts, pos, acc) == ParsedList(acc + asts, pos + |PrintList(spell, asts)| + 1)
    decreases asts, 5
  {
    if asts == [] {
      assert acc + asts == acc;
    } else if |asts| == 1 {
      ReadingLastItem(d, spell, ts, pos, asts[0], acc);
      assert acc + asts == acc + [asts[0]];
    } else {
      AtList(spell, ts, pos, asts, Print(spell, asts[0], 16), PrintList(spell, asts[1..]));
      HeadOfItem(d, spell, ts, pos, asts[0]);
      var next := pos + |Print(spell, asts[0], 16)|;
      Reading(d, spell, ts, pos, asts[0], 16);
      assert acc + asts == acc + [asts[0]] + asts[1..];
      ReadingItems(d, spell, ts, next + 1, asts[1..], acc + [asts[0]]);
      ItemStep(d, ts, pos, acc, asts[0], next, next + 1);
    }
  }

  lemma {:induction false} ReadingLastItem<V>(d: Dialect<V>, spell: map<Kind, string>, ts: seq<Token>, pos: nat, a: Ast, acc: seq<Ast>)
    requires Printable(d, a) && At(ts, pos, Print(spell, a, 16)) && KindAt(ts, pos + |Print(spell, a, 16)|).RBRACKET?
    ensures ParseItems(d, ts, pos, acc) == ParsedList(acc + [a], pos + |Print(spell, a, 16)| + 1)
    decreases a, 5
  {
    HeadOfItem(d, spell, ts, pos, a);
    var next := pos + |Print(spell, a, 16)|;
    Reading(d, spell, ts, pos, a, 16);
    ItemsEnd(d, ts, next, acc + [a]);
    ItemStep(d, ts, pos, acc, a, next, next);
  }

  lemma HeadOfItem<V>(d: Dialect<V>, spell: map<Kind, string>, ts: seq<Token>, pos: nat, a: Ast)
    requires Printable(d, a) && At(ts, pos, Print(spell, a, 16))
    ensures !KindAt(ts, pos).RBRACKET? && !KindAt(ts, pos).RPAREN? && !a.Null?
  {
    HeadOfPrint(d, spell, ts, pos, a, 16);
  }

  /** The round trip: a printed expression followed by anything that cannot continue it is parsed
      to the same tree, and exactly its tokens are consumed. */
  lemma ExpressionRoundTrip<V>(d: Dialect<V>, spell: map<Kind, string>, a: Ast, before: seq<Token>, after: seq<Token>)
    requires Printable(d, a) && (after == [] || Stops(16, after[0].kind))
    ensures var xs := Print(spell, a, 16);
      ParseExpr(d, before + xs + after, |before|) == Parsed(a, |before| + |xs|)
  {
    var xs := Print(spell, a, 16);
    var ts := before + xs + after;
    Reading(d, spell, ts, |before|, a, 16);
    assert TokenAt(ts, |before| + |xs|) == if after == [] then Token(ENDOFFILE, "") else after[0];
  }

  /** Printing is injective: two expressions with the same text are the same expression. */
  lemma PrintingIsUnambiguous<V>(d: Dialect<V>, spell: map<Kind, string>, a: Ast, b: Ast)
    requires Printable(d, a) && Printable(d, b) && Print(spell, a, 16) == Print(spell, b, 16)
    ensures a == b
  {
    ExpressionRoundTrip(d, spell, a, [], []);
    ExpressionRoundTrip(d, spell, b, [], []);
  }
}
