/** What a token list means: the tree every parsing routine yields from a position, and where it
    stops. These functions follow the routines' control flow on values; the parser itself, which
    advances a position through loops, is proved to agree with them. */
module Grammar {
  import opened Syntax
  import opened Ast

  datatype Token = Token(kind: Kind, lexeme: string)

  datatype Why =
    | NotAnExpressionPart | BadLiteral | ParenExpected | ColonExpected | BadArguments | BadCall | BadIndex | ItemExpected
    | UnexpectedEnd | InvalidStatement | ExpressionExpected | ConditionExpected | SemicolonExpected | NothingToThrow
    | CatchExpected | CatchParenExpected | CatchNameExpected | OutsideLoop | BadNameList | BadCellArguments

  datatype Parsed = Parsed(ast: Ast, pos: nat) | Wrong(at: nat, why: Why)
  datatype ParsedList = ParsedList(asts: seq<Ast>, pos: nat) | WrongList(at: nat, why: Why)

  /** Looking beyond the end sees the end-of-file token. */
  function TokenAt(ts: seq<Token>, i: nat): Token {
    if i < |ts| then ts[i] else Token(ENDOFFILE, "")
  }

  function KindAt(ts: seq<Token>, i: nat): Kind {
    TokenAt(ts, i).kind
  }

  const KEYWORDS: set<string> :=
    {"if", "else", "for", "while", "return", "break", "continue", "try", "catch", "throw", "function"}

  predicate ExpressionPart(word: string) {
    word !in KEYWORDS
  }

  /** A parenthesised type name. */
  predicate CastAt<V>(d: Dialect<V>, ts: seq<Token>, pos: nat) {
    && KindAt(ts, pos).LPAREN? && KindAt(ts, pos + 1).IDENTIFIER? && TokenAt(ts, pos + 1).lexeme in d.types
    && KindAt(ts, pos + 2).RPAREN?
  }

  function LiteralKind(k: Kind): LitKind {
    if k.FP_LITERAL? || k.FP_EXP_LITERAL? then FltLit
    else if k.HEX_LITERAL? then HexLit
    else if k.OCT_LITERAL? then OctLit
    else if k.BIN_LITERAL? then BinLit
    else if k.INT_LITERAL? then IntLit
    else if k.STRING_LITERAL? then StrLit
    else ChrLit
  }

  predicate IsLiteral(k: Kind) {
    || k.FP_LITERAL? || k.FP_EXP_LITERAL? || k.HEX_LITERAL? || k.OCT_LITERAL? || k.BIN_LITERAL?
    || k.INT_LITERAL? || k.STRING_LITERAL? || k.CHAR_LITERAL?
  }

  function WordAst(word: string): Ast {
    if word == "true" || word == "false" then Literal(BoolLit, word)
    else if word == "undefined" then Literal(UndefinedLit, word)
    else Ident(word)
  }

  /** Consumed tokens: the position advances, never past the end, and strictly if a tree was found. */
  predicate Advances(ts: seq<Token>, pos: nat, r: Parsed) {
    r.Parsed? ==> pos <= r.pos <= |ts| && (!r.ast.Null? ==> pos < r.pos)
  }

  predicate ListAdvances(ts: seq<Token>, pos: nat, r: ParsedList) {
    r.ParsedList? ==> pos < r.pos <= |ts|
  }

  /** Assignment and the conditional operator, right associative. */
  function ParseExpr<V>(d: Dialect<V>, ts: seq<Token>, pos: nat): (r: Parsed)
    requires pos <= |ts|
    ensures Advances(ts, pos, r)
    decreases |ts| - pos, 41
  {
    var l := ParseBinary(d, ts, 15, pos);
    if l.Wrong? then l
    else if IsAssign(KindAt(ts, l.pos)) then ParseAssigned(d, ts, l.ast, l.pos)
    else if KindAt(ts, l.pos).QUESTION? then ParseBranches(d, ts, l.ast, l.pos)
    else l
  }

  /** What follows an assignment operator at `pos`. */
  function ParseAssigned<V>(d: Dialect<V>, ts: seq<Token>, left: Ast, pos: nat): (r: Parsed)
    requires pos < |ts|
    ensures r.Parsed? ==> pos < r.pos <= |ts|
    decreases |ts| - pos, 40
  {
    var r := ParseExpr(d, ts, pos + 1);
    if r.Wrong? then r else Parsed(Binary(KindAt(ts, pos), left, r.ast), r.pos)
  }

  /** What follows the question mark at `pos`. */
  function ParseBranches<V>(d: Dialect<V>, ts: seq<Token>, cond: Ast, pos: nat): (r: Parsed)
    requires pos < |ts|
    ensures r.Parsed? ==> pos < r.pos <= |ts|
    decreases |ts| - pos, 40
  {
    var t := ParseExpr(d, ts, pos + 1);
    if t.Wrong? then t
    else if !KindAt(ts, t.pos).COLON? then Wrong(t.pos, ColonExpected)
    else
      var f := ParseExpr(d, ts, t.pos + 1);
      if f.Wrong? then f else Parsed(Ternary(QUESTION, cond, t.ast, f.ast), f.pos)
  }

  /** Priority levels 15 down to 5; level 4 is the prefix operators. */
  function ParseBinary<V>(d: Dialect<V>, ts: seq<Token>, k: nat, pos: nat): (r: Parsed)
    requires pos <= |ts| && 4 <= k <= 15
    ensures Advances(ts, pos, r)
    decreases |ts| - pos, 2 * k + 1
  {
    if k == 4 then ParsePrefix(d, ts, pos)
    else
      var l := ParseBinary(d, ts, k - 1, pos);
      if l.Wrong? then l else BinaryTail(d, ts, k, l.ast, l.pos)
  }

  /** The loop of a left-associative level, `left` being what has been read so far. */
  function BinaryTail<V>(d: Dialect<V>, ts: seq<Token>, k: nat, left: Ast, pos: nat): (r: Parsed)
    requires pos <= |ts| && 5 <= k <= 15
    ensures r.Parsed? ==> pos <= r.pos <= |ts| && (r.pos == pos && left.Null? ==> r.ast.Null?)
    decreases |ts| - pos, 2 * k
  {
    if BinaryLevel(KindAt(ts, pos)) != k then Parsed(left, pos)
    else
      var r := ParseBinary(d, ts, k - 1, pos + 1);
      if r.Wrong? then r else BinaryTail(d, ts, k, Binary(KindAt(ts, pos), left, r.ast), r.pos)
  }

  function ParsePrefix<V>(d: Dialect<V>, ts: seq<Token>, pos: nat): (r: Parsed)
    requires pos <= |ts|
    ensures Advances(ts, pos, r)
    decreases |ts| - pos, 8
  {
    if IsPrefix(KindAt(ts, pos)) then
      var x := ParsePrefix(d, ts, pos + 1);
      if x.Wrong? then x else Parsed(Unary(KindAt(ts, pos), "", x.ast), x.pos)
    else if CastAt(d, ts, pos) then
      var x := ParsePrefix(d, ts, pos + 3);
      if x.Wrong? then x else Parsed(Unary(TYPECAST, TokenAt(ts, pos + 1).lexeme, x.ast), x.pos)
    else ParsePostfix(d, ts, pos)
  }

  function ParsePostfix<V>(d: Dialect<V>, ts: seq<Token>, pos: nat): (r: Parsed)
    requires pos <= |ts|
    ensures Advances(ts, pos, r)
    decreases |ts| - pos, 7
  {
    var p := ParsePrimary(d, ts, pos);
    if p.Wrong? then p else ChainTail(d, ts, p.ast, p.pos)
  }

  /** Calls, indexing, members; an increment or decrement ends the chain. */
  function ChainTail<V>(d: Dialect<V>, ts: seq<Token>, left: Ast, pos: nat): (r: Parsed)
    requires pos <= |ts|
    ensures r.Parsed? ==> pos <= r.pos <= |ts| && (r.pos == pos && left.Null? ==> r.ast.Null?)
    decreases |ts| - pos, 6
  {
    var k := KindAt(ts, pos);
    if IsIncDec(k) then Parsed(Suffix(k, left), pos + 1)
    else if k.LPAREN? then ParseCall(d, ts, left, pos)
    else if k.LBRACKET? then ParseIndex(d, ts, left, pos)
    else if k.DOT? then ParseMember(d, ts, left, pos)
    else Parsed(left, pos)
  }

  function ParseCall<V>(d: Dialect<V>, ts: seq<Token>, left: Ast, pos: nat): (r: Parsed)
    requires pos < |ts|
    ensures r.Parsed? ==> pos < r.pos <= |ts|
    decreases |ts| - pos, 5
  {
    var args := if KindAt(ts, pos + 1).RPAREN? then ParsedList([], pos + 2) else ParseArgs(d, ts, pos + 1, []);
    if args.WrongList? then Wrong(args.at, args.why) else ChainTail(d, ts, Apply(left, args.asts), args.pos)
  }

  function ParseIndex<V>(d: Dialect<V>, ts: seq<Token>, left: Ast, pos: nat): (r: Parsed)
    requires pos < |ts|
    ensures r.Parsed? ==> pos < r.pos <= |ts|
    decreases |ts| - pos, 5
  {
    var i := ParseExpr(d, ts, pos + 1);
    if i.Wrong? then i
    else if i.ast.Null? || !KindAt(ts, i.pos).RBRACKET? then Wrong(i.pos, BadIndex)
    else ChainTail(d, ts, Binary(LBRACKET, left, i.ast), i.pos + 1)
  }

  function ParseMember<V>(d: Dialect<V>, ts: seq<Token>, left: Ast, pos: nat): (r: Parsed)
    requires pos < |ts|
    ensures r.Parsed? ==> pos < r.pos <= |ts|
    decreases |ts| - pos, 5
  {
    var m := ParsePrimary(d, ts, pos + 1);
    if m.Wrong? then m else ChainTail(d, ts, Binary(DOT, left, m.ast), m.pos)
  }

  /** Actual arguments. Where no expression is found the loop swallows a closing parenthesis and
      goes on: a trailing comma does not end the list. */
  function ParseArgs<V>(d: Dialect<V>, ts: seq<Token>, pos: nat, acc: seq<Ast>): (r: ParsedList)
    requires pos <= |ts|
    ensures ListAdvances(ts, pos, r)
    decreases |ts| - pos, 42
  {
    var e := ParseExpr(d, ts, pos);
    if e.Wrong? then WrongList(e.at, e.why)
    else if e.ast.Null? then
      if !KindAt(ts, e.pos).RPAREN? then WrongList(e.pos, BadCall) else ParseArgs(d, ts, e.pos + 1, acc)
    else if KindAt(ts, e.pos).RPAREN? then ParsedList(acc + [e.ast], e.pos + 1)
    else if !KindAt(ts, e.pos).COMMA? then WrongList(e.pos, BadArguments)
    else ParseArgs(d, ts, e.pos + 1, acc + [e.ast])
  }

  /** Array items; the comma after an item is optional. */
  function ParseItems<V>(d: Dialect<V>, ts: seq<Token>, pos: nat, acc: seq<Ast>): (r: ParsedList)
    requires pos <= |ts|
    ensures ListAdvances(ts, pos, r)
    decreases |ts| - pos, 42
  {
    if KindAt(ts, pos).RBRACKET? then ParsedList(acc, pos + 1)
    else
      var e := ParseExpr(d, ts, pos);
      if e.Wrong? then WrongList(e.at, e.why)
      else if e.ast.Null? then WrongList(e.pos, ItemExpected)
      else ParseItems(d, ts, if KindAt(ts, e.pos).COMMA? then e.pos + 1 else e.pos, acc + [e.ast])
  }

  function ParsePrimary<V>(d: Dialect<V>, ts: seq<Token>, pos: nat): (r: Parsed)
    requires pos <= |ts|
    ensures Advances(ts, pos, r)
    decreases |ts| - pos, 5
  {
    var tk := TokenAt(ts, pos);
    if IsLiteral(tk.kind) then
      var lit := LiteralKind(tk.kind);
      if (lit, tk.lexeme) in d.literals then Parsed(Literal(lit, tk.lexeme), pos + 1) else Wrong(pos, BadLiteral)
    else if tk.kind.IDENTIFIER? then
      if !ExpressionPart(tk.lexeme) then Wrong(pos, NotAnExpressionPart) else Parsed(WordAst(tk.lexeme), pos + 1)
    else if tk.kind.LPAREN? then
      var e := ParseExpr(d, ts, pos + 1);
      if e.Wrong? then e
      else if !KindAt(ts, e.pos).RPAREN? then Wrong(e.pos, ParenExpected)
      else Parsed(e.ast, e.pos + 1)
    else if tk.kind.LBRACKET? then
      var items := ParseItems(d, ts, pos + 1, []);
      if items.WrongList? then Wrong(items.at, items.why) else Parsed(Array(items.asts), items.pos)
    else Parsed(Null, pos)
  }
}
