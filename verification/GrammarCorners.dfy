/** What the grammar makes of texts that the printer never writes: empty parts of a `for`, missing
    and trailing commas, empty parentheses, an `if` at the end. */
module GrammarCorners {
  import opened Syntax
  import opened Ast
  import opened Grammar
  import opened StatementGrammar
  import opened Printer
  import opened StatementPrinter
  import opened RoundTrip
  import opened StatementLayout
  import opened StatementRoundTrip

  // ------------------------------------------------------------------ the head of a for

  /** An expression, or an empty part, written as nothing. */
  predicate MayBeEmpty<V>(d: Dialect<V>, e: Ast) {
    e.Null? || Printable(d, e)
  }

  function OrLiteral(e: Ast, word: string): Ast {
    if e.Null? then Literal(BoolLit, word) else e
  }

  /** What a `for` means whose first or second part may be empty. */
  function Filled(t: Tree): Tree
    requires t.ForTree?
  {
    ForTree(OrLiteral(t.init, "false"), OrLiteral(t.cond, "true"), t.incr, t.body)
  }

  lemma ReadingMaybeEmpty<V>(d: Dialect<V>, spell: map<Kind, string>, ts: seq<Token>, pos: nat, e: Ast, filler: string)
    requires MayBeEmpty(d, e) && At(ts, pos, Closed(spell, [], e))
    ensures ParseForPartThen(d, ts, pos, filler, false) == Parsed(OrLiteral(e, filler), pos + |Closed(spell, [], e)|)
  {
    if e.Null? {
      assert Closed(spell, [], e) == [Op(spell, SEMICOLON)];
      AtOne(ts, pos, Op(spell, SEMICOLON));
    } else {
      ReadingForPart(d, spell, ts, pos, e, filler);
    }
  }

  /** The parenthesis and the first two parts, as read. */
  lemma ReadingTwoParts<V>(d: Dialect<V>, spell: map<Kind, string>, ts: seq<Token>, pos: nat, i: Ast, c: Ast, zs: seq<Token>) returns (mid: nat, next: nat)
    requires MayBeEmpty(d, i) && MayBeEmpty(d, c) && At(ts, pos, [Op(spell, LPAREN)] + (Closed(spell, [], i) + (Closed(spell, [], c) + zs)))
    ensures pos + 1 < mid < next <= |ts| && KindAt(ts, pos).LPAREN? && At(ts, next, zs)
    ensures next + |zs| == pos + |[Op(spell, LPAREN)] + (Closed(spell, [], i) + (Closed(spell, [], c) + zs))|
    ensures ParseForPartThen(d, ts, pos + 1, "false", false) == Parsed(OrLiteral(i, "false"), mid)
    ensures ParseForPartThen(d, ts, mid, "true", false) == Parsed(OrLiteral(c, "true"), next)
  {
    var xs, ys := Closed(spell, [], i), Closed(spell, [], c);
    AtHead(ts, pos, Op(spell, LPAREN), xs, ys, zs);
    mid, next := pos + 1 + |xs|, pos + 1 + |xs| + |ys|;
    ReadingMaybeEmpty(d, spell, ts, pos + 1, i, "false");
    ReadingMaybeEmpty(d, spell, ts, mid, c, "true");
  }

  lemma ReadingSparseHead<V>(d: Dialect<V>, spell: map<Kind, string>, ts: seq<Token>, pos: nat, i: Ast, c: Ast, n: Ast, end: nat)
    requires MayBeEmpty(d, i) && MayBeEmpty(d, c) && Printable(d, n)
    requires At(ts, pos, PrintForHead(spell, i, c, n)) && end == pos + |PrintForHead(spell, i, c, n)|
    ensures end <= |ts| && ParseForHead(d, ts, pos) == ParsedList([OrLiteral(i, "false"), OrLiteral(c, "true"), n], end)
  {
    var zs := Print(spell, n, 16) + [Op(spell, RPAREN)];
    var mid, next := ReadingTwoParts(d, spell, ts, pos, i, c, zs);
    ReadingForLast(d, spell, ts, next, n, "false");
    HeadStep(d, ts, pos, OrLiteral(i, "false"), mid, OrLiteral(c, "true"), next);
  }

  /** A `for` with any of its first two parts left out is read as with `false` and `true` there. */
  lemma SparseForIsFilled<V>(d: Dialect<V>, spell: map<Kind, string>, ts: seq<Token>, pos: nat, t: Tree, inLoop: bool, end: nat)
    requires t.ForTree? && MayBeEmpty(d, t.init) && MayBeEmpty(d, t.cond) && Printable(d, t.incr)
    requires Writable(d, t.body) && TreeNested(t.body, true) && Settles(ts, t.body, end)
    requires At(ts, pos, PrintTree(spell, t)) && end == pos + |PrintTree(spell, t)|
    ensures pos <= |ts| && ParseStatement(d, ts, inLoop, pos) == ParsedTree(Filled(t), end)
  {
    var hs, bs := PrintForHead(spell, t.init, t.cond, t.incr), PrintTree(spell, t.body);
    var next := pos + 1 + |hs|;
    assert PrintTree(spell, t) == [Id("for")] + hs + bs;
    AtLed(ts, pos, Id("for"), hs, bs);
    ReadingSparseHead(d, spell, ts, pos + 1, t.init, t.cond, t.incr, next);
    ReadingStatement(d, spell, ts, next, t.body, true, end);
    ForStep(d, ts, pos, inLoop, Filled(t), next, end);
  }

  /** The third part cannot be left out, nor written as a semicolon. */
  lemma IncrementIsRequired<V>(d: Dialect<V>, ts: seq<Token>, pos: nat)
    requires pos <= |ts| && (KindAt(ts, pos).RPAREN? || KindAt(ts, pos).SEMICOLON?)
    ensures ParseForPartThen(d, ts, pos, "false", true).Wrong?
  {
    NothingToRead(d, ts, pos);
  }

  lemma NoIncrementNoFor<V>(d: Dialect<V>, spell: map<Kind, string>, ts: seq<Token>, pos: nat, i: Ast, c: Ast)
    requires MayBeEmpty(d, i) && MayBeEmpty(d, c) && At(ts, pos, PrintForHead(spell, i, c, Null))
    ensures ParseForHead(d, ts, pos).WrongList?
  {
    var zs := Print(spell, Null, 16) + [Op(spell, RPAREN)];
    var mid, next := ReadingTwoParts(d, spell, ts, pos, i, c, zs);
    assert zs == [Op(spell, RPAREN)];
    AtOne(ts, next, Op(spell, RPAREN));
    IncrementIsRequired(d, ts, next);
    HeadStep(d, ts, pos, OrLiteral(i, "false"), mid, OrLiteral(c, "true"), next);
  }

  // ------------------------------------------------------------------ commas and parentheses

  /** Array items, some of them followed by a comma. */
  function LooseItems(spell: map<Kind, string>, asts: seq<Ast>, commas: seq<bool>): seq<Token>
    requires |commas| == |asts|
  {
    if asts == [] then []
    else Print(spell, asts[0], 16) + ((if commas[0] then [Op(spell, COMMA)] else []) + LooseItems(spell, asts[1..], commas[1..]))
  }

  /** Where the comma is missing the next item does not go on with the one before. */
  predicate Separable(asts: seq<Ast>, commas: seq<bool>)
    requires |commas| == |asts|
  {
    asts == [] || ((commas[0] || |asts| == 1 || Stops(16, Head(asts[1], 16))) && Separable(asts[1..], commas[1..]))
  }

  /** The items stand between `pos` and the closing bracket at `end`. */
  ghost predicate Bracketed<V>(d: Dialect<V>, spell: map<Kind, string>, ts: seq<Token>, pos: nat, asts: seq<Ast>, commas: seq<bool>, end: nat) {
    && |commas| == |asts| && AllPrintable(d, asts) && Separable(asts, commas)
    && At(ts, pos, LooseItems(spell, asts, commas)) && end == pos + |LooseItems(spell, asts, commas)| && KindAt(ts, end).RBRACKET?
  }

  /** The item that comes next in the text, or the closing bracket. */
  lemma NextKind<V>(d: Dialect<V>, spell: map<Kind, string>, ts: seq<Token>, pos: nat, asts: seq<Ast>, commas: seq<bool>, end: nat)
    requires Bracketed(d, spell, ts, pos, asts, commas, end)
    ensures KindAt(ts, pos) == (if asts == [] then RBRACKET else Head(asts[0], 16)) && !KindAt(ts, pos).COMMA?
  {
    if asts != [] {
      AtSplit(ts, pos, Print(spell, asts[0], 16), (if commas[0] then [Op(spell, COMMA)] else []) + LooseItems(spell, asts[1..], commas[1..]));
      BeginsAs(d, spell, ts, pos, asts[0], 16);
      HeadOfPrint(d, spell, ts, pos, asts[0], 16);
    }
  }

  /** Where the first item ends, and where the others begin. */
  lemma ItemPlaces<V>(d: Dialect<V>, spell: map<Kind, string>, ts: seq<Token>, pos: nat, asts: seq<Ast>, commas: seq<bool>, last: nat) returns (end: nat, next: nat)
    requires Bracketed(d, spell, ts, pos, asts, commas, last) && asts != []
    ensures At(ts, pos, Print(spell, asts[0], 16)) && end == pos + |Print(spell, asts[0], 16)|
    ensures Bracketed(d, spell, ts, next, asts[1..], commas[1..], last)
    ensures if commas[0] then KindAt(ts, end).COMMA? && next == end + 1 else next == end
  {
    var xs, comma, ys := Print(spell, asts[0], 16), if commas[0] then [Op(spell, COMMA)] else [], LooseItems(spell, asts[1..], commas[1..]);
    end := pos + |xs|;
    next := end + |comma|;
    AtSplit(ts, pos, xs, comma + ys);
    AtSplit(ts, end, comma, ys);
    if commas[0] {
      AtOne(ts, end, Op(spell, COMMA));
    }
  }

  lemma BracketStops()
    ensures Stops(16, RBRACKET)
  {
  }

  lemma ItemLayout<V>(d: Dialect<V>, spell: map<Kind, string>, ts: seq<Token>, pos: nat, asts: seq<Ast>, commas: seq<bool>, last: nat) returns (end: nat, next: nat)
    requires Bracketed(d, spell, ts, pos, asts, commas, last) && asts != []
    ensures Printable(d, asts[0]) && At(ts, pos, Print(spell, asts[0], 16)) && end == pos + |Print(spell, asts[0], 16)|
    ensures next == (if KindAt(ts, end).COMMA? then end + 1 else end) && Bracketed(d, spell, ts, next, asts[1..], commas[1..], last)
    ensures Stops(16, KindAt(ts, end))
  {
    end, next := ItemPlaces(d, spell, ts, pos, asts, commas, last);
    NextKind(d, spell, ts, next, asts[1..], commas[1..], last);
    DelimitersStop(COMMA);
    BracketStops();
  }

  lemma ItemRead<V>(d: Dialect<V>, spell: map<Kind, string>, ts: seq<Token>, pos: nat, a: Ast, end: nat, next: nat, acc: seq<Ast>)
    requires Printable(d, a) && At(ts, pos, Print(spell, a, 16)) && end == pos + |Print(spell, a, 16)| && Stops(16, KindAt(ts, end))
    requires next == if KindAt(ts, end).COMMA? then end + 1 else end
    ensures pos <= |ts| && next <= |ts| && ParseItems(d, ts, pos, acc) == ParseItems(d, ts, next, acc + [a])
  {
    HeadOfItem(d, spell, ts, pos, a);
    ReadsExpr(d, spell, ts, pos, a);
    ItemStep(d, ts, pos, acc, a, end, next);
  }

  lemma FirstAgain<T>(acc: seq<T>, xs: seq<T>)
    requires xs != []
    ensures acc + xs == acc + [xs[0]] + xs[1..]
  {
  }

  /** The comma after an array item is optional, also after the last. */
  lemma {:induction false} CommasAreOptional<V>(d: Dialect<V>, spell: map<Kind, string>, ts: seq<Token>, pos: nat, asts: seq<Ast>, commas: seq<bool>, acc: seq<Ast>, last: nat)
    requires Bracketed(d, spell, ts, pos, asts, commas, last)
    ensures pos <= |ts| && ParseItems(d, ts, pos, acc) == ParsedList(acc + asts, last + 1)
    decreases |asts|
  {
    if asts == [] {
      assert acc + asts == acc;
      ItemsEnd(d, ts, pos, acc);
    } else {
      var end, next := ItemLayout(d, spell, ts, pos, asts, commas, last);
      ItemRead(d, spell, ts, pos, asts[0], end, next, acc);
      CommasAreOptional(d, spell, ts, next, asts[1..], commas[1..], acc + [asts[0]], last);
      FirstAgain(acc, asts);
    }
  }

  /** A comma before the closing parenthesis does not end a list of arguments: it goes on behind. */
  lemma {:induction false} TrailingCommaGoesOn<V>(d: Dialect<V>, spell: map<Kind, string>, ts: seq<Token>, pos: nat, asts: seq<Ast>, acc: seq<Ast>, end: nat)
    requires asts != [] && AllPrintable(d, asts) && At(ts, pos, PrintList(spell, asts)) && end == pos + |PrintList(spell, asts)|
    requires KindAt(ts, end).COMMA? && KindAt(ts, end + 1).RPAREN?
    ensures end + 2 <= |ts| && ParseArgs(d, ts, pos, acc) == ParseArgs(d, ts, end + 2, acc + asts)
    decreases |asts|
  {
    FirstAgain(acc, asts);
    if |asts| == 1 {
      ArgumentRead(d, spell, ts, pos, asts[0], end, acc);
      assert acc + asts == acc + [asts[0]];
      NothingMore(d, ts, end + 1, acc + asts);
    } else {
      AtList(spell, ts, pos, asts, Print(spell, asts[0], 16), PrintList(spell, asts[1..]));
      var next := pos + |Print(spell, asts[0], 16)|;
      ArgumentRead(d, spell, ts, pos, asts[0], next, acc);
      TrailingCommaGoesOn(d, spell, ts, next + 1, asts[1..], acc + [asts[0]], end);
    }
  }

  lemma ArgumentRead<V>(d: Dialect<V>, spell: map<Kind, string>, ts: seq<Token>, pos: nat, a: Ast, end: nat, acc: seq<Ast>)
    requires Printable(d, a) && At(ts, pos, Print(spell, a, 16)) && end == pos + |Print(spell, a, 16)| && KindAt(ts, end).COMMA?
    ensures pos <= |ts| && end < |ts| && ParseArgs(d, ts, pos, acc) == ParseArgs(d, ts, end + 1, acc + [a])
  {
    DelimitersStop(COMMA);
    ReadsExpr(d, spell, ts, pos, a);
    ArgStep(d, ts, pos, acc, a, end);
  }

  lemma NothingMore<V>(d: Dialect<V>, ts: seq<Token>, pos: nat, acc: seq<Ast>)
    requires KindAt(ts, pos).RPAREN?
    ensures pos < |ts| && ParseArgs(d, ts, pos, acc) == ParseArgs(d, ts, pos + 1, acc)
  {
    NothingToRead(d, ts, pos);
  }

  /** Empty parentheses are nothing, and both are consumed. */
  lemma EmptyParentheses<V>(d: Dialect<V>, ts: seq<Token>, pos: nat)
    requires KindAt(ts, pos).LPAREN? && KindAt(ts, pos + 1).RPAREN?
    ensures pos + 2 <= |ts| && ParsePrimary(d, ts, pos) == Parsed(Null, pos + 2)
  {
    NothingToRead(d, ts, pos + 1);
  }

  // ------------------------------------------------------------------ an if at the end

  /** An `if` without `else` is refused when nothing follows. */
  lemma IfCannotBeLast<V>(d: Dialect<V>, spell: map<Kind, string>, ts: seq<Token>, pos: nat, t: Tree, inLoop: bool)
    requires t.IfTree? && t.no.NoTree? && Writable(d, t) && TreeNested(t, inLoop) && !Open(t.yes)
    requires At(ts, pos, PrintTree(spell, t)) && pos + |PrintTree(spell, t)| == |ts|
    ensures pos < |ts| && ParseStatement(d, ts, inLoop, pos) == WrongTree(|ts|, UnexpectedEnd)
  {
    var xs, ys := Print(spell, t.cond, 16), PrintTree(spell, t.yes);
    assert PrintTree(spell, t) == Branches(xs, ys, PrintTree(spell, t.no), false);
    AtBranches(ts, pos, xs, ys, PrintTree(spell, t.no), false);
    var mid := pos + 1 + |xs|;
    CondEnds(d, spell, ts, pos + 1, t.cond, mid, t.yes);
    ReadingStatement(d, spell, ts, mid, t.yes, inLoop, |ts|);
    assert ParseIf(d, ts, inLoop, pos) == WrongTree(|ts|, UnexpectedEnd);
  }
}
