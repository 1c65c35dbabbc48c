/** The recursive-descent parser: a token list, a position that every routine moves, and the stack
    of loops around the statement being read. Each routine is proved to yield what the grammar
    functions say, and to leave the position where they say. */
module Parser {
  import opened Syntax
  import opened Ast
  import opened Grammar
  import opened StatementGrammar

  /** The result of a routine, or the compilation error it throws. */
  datatype Found<T> = Found(value: T) | Failed(at: nat, why: Why)

  class TokenParser<V> {
    const dialect: Dialect<V>
    var tokens: seq<Token>
    var pos: nat
    var loopsNesting: seq<string>

    constructor (dialect: Dialect<V>)
      ensures this.dialect == dialect && tokens == [] && pos == 0 && loopsNesting == []
    {
      this.dialect, tokens, pos, loopsNesting := dialect, [], 0, [];
    }

    method AddToken(token: Token)
      modifies `tokens
      ensures tokens == old(tokens) + [token]
    {
      tokens := tokens + [token];
    }

    method Reset()
      modifies `tokens, `pos
      ensures tokens == [] && pos == 0
    {
      tokens, pos := [], 0;
    }

    function GetToken(offset: nat): Token
      reads `tokens, `pos
    {
      TokenAt(tokens, pos + offset)
    }

    // The outcome `r` and the position are those the grammar gives.

    ghost predicate Agrees(g: Parsed, r: Found<Ast>)
      reads `pos, `tokens
    {
      pos <= |tokens| && if g.Parsed? then r == Found(g.ast) && pos == g.pos else r == Failed(g.at, g.why)
    }

    ghost predicate AgreesOnList(g: ParsedList, r: Found<seq<Ast>>)
      reads `pos, `tokens
    {
      pos <= |tokens| && if g.ParsedList? then r == Found(g.asts) && pos == g.pos else r == Failed(g.at, g.why)
    }

    ghost predicate AgreesOnTree(g: ParsedTree, r: Found<Tree>)
      reads `pos, `tokens
    {
      pos <= |tokens| && if g.ParsedTree? then r == Found(g.tree) && pos == g.pos else r == Failed(g.at, g.why)
    }

    ghost predicate AgreesOnNames(g: ParsedNames, r: Found<seq<string>>)
      reads `pos, `tokens
    {
      pos <= |tokens| && if g.ParsedNames? then r == Found(g.names) && pos == g.pos else r == Failed(g.at, g.why)
    }

    ghost predicate AgreesOnTop(g: ParsedTop, r: Found<TopTree>)
      reads `pos, `tokens
    {
      pos <= |tokens| && if g.ParsedTop? then r == Found(g.top) && pos == g.pos else r == Failed(g.at, g.why)
    }

    // ---------------------------------------------------------------- expressions

    method GetExpr() returns (r: Found<Ast>)
      requires pos <= |tokens|
      modifies `pos
      ensures Agrees(ParseExpr(dialect, tokens, old(pos)), r)
      decreases |tokens| - pos, 41
    {
      r := GetBinary(15);
      if r.Failed? { return; }
      if IsAssign(GetToken(0).kind) {
        r := GetAssigned(r.value);
      } else if GetToken(0).kind.QUESTION? {
        r := GetBranches(r.value);
      }
    }

    method GetAssigned(left: Ast) returns (r: Found<Ast>)
      requires pos < |tokens|
      modifies `pos
      ensures Agrees(ParseAssigned(dialect, tokens, left, old(pos)), r)
      decreases |tokens| - pos, 40
    {
      var op := GetToken(0).kind;
      pos := pos + 1;
      r := GetExpr();
      if r.Failed? { return; }
      r := Found(Binary(op, left, r.value));
    }

    method GetBranches(condition: Ast) returns (r: Found<Ast>)
      requires pos < |tokens|
      modifies `pos
      ensures Agrees(ParseBranches(dialect, tokens, condition, old(pos)), r)
      decreases |tokens| - pos, 40
    {
      pos := pos + 1;
      r := GetExpr();
      if r.Failed? { return; }
      var trueExpr := r.value;
      if !GetToken(0).kind.COLON? { return Failed(pos, ColonExpected); }
      pos := pos + 1;
      r := GetExpr();
      if r.Failed? { return; }
      r := Found(Ternary(QUESTION, condition, trueExpr, r.value));
    }

    /** The routines of priority levels 15 down to 5, which differ in the operators they accept. */
    method GetBinary(k: nat) returns (r: Found<Ast>)
      requires pos <= |tokens| && 4 <= k <= 15
      modifies `pos
      ensures Agrees(ParseBinary(dialect, tokens, k, old(pos)), r)
      decreases |tokens| - pos, 2 * k + 1
    {
      if k == 4 {
        r := GetPrefix();
        return;
      }
      r := GetBinary(k - 1);
      if r.Failed? { return; }
      while BinaryLevel(GetToken(0).kind) == k
        invariant r.Found? && old(pos) <= pos <= |tokens|
        invariant ParseBinary(dialect, tokens, k, old(pos)) == BinaryTail(dialect, tokens, k, r.value, pos)
        decreases |tokens| - pos
      {
        var op, left := GetToken(0).kind, r.value;
        pos := pos + 1;
        r := GetBinary(k - 1);
        if r.Failed? { return; }
        r := Found(Binary(op, left, r.value));
      }
    }

    method GetPrefix() returns (r: Found<Ast>)
      requires pos <= |tokens|
      modifies `pos
      ensures Agrees(ParsePrefix(dialect, tokens, old(pos)), r)
      decreases |tokens| - pos, 8
    {
      if IsPrefix(GetToken(0).kind) {
        var op := GetToken(0).kind;
        pos := pos + 1;
        r := GetPrefix();
        if r.Failed? { return; }
        r := Found(Unary(op, "", r.value));
      } else if CastAt(dialect, tokens, pos) {
        var typeName := GetToken(1).lexeme;
        pos := pos + 3;
        r := GetPrefix();
        if r.Failed? { return; }
        r := Found(Unary(TYPECAST, typeName, r.value));
      } else {
        r := GetPostfix();
      }
    }

    method GetPostfix() returns (r: Found<Ast>)
      requires pos <= |tokens|
      modifies `pos
      ensures Agrees(ParsePostfix(dialect, tokens, old(pos)), r)
      decreases |tokens| - pos, 7
    {
      r := GetPrimary();
      if r.Failed? { return; }
      var cont := true;
      while cont
        invariant r.Found? && old(pos) <= pos <= |tokens|
        invariant ParsePostfix(dialect, tokens, old(pos))
          == if cont then ChainTail(dialect, tokens, r.value, pos) else Parsed(r.value, pos)
        decreases |tokens| - pos, cont
      {
        cont := false;
        var kind := GetToken(0).kind;
        if IsIncDec(kind) {
          r := Found(Suffix(kind, r.value));
          pos := pos + 1;
        } else if kind.LPAREN? || kind.LBRACKET? || kind.DOT? {
          cont := true;
          r := GetLink(r.value);
          if r.Failed? { return; }
        }
      }
    }

    /** One call, index or member at the current token. */
    method GetLink(left: Ast) returns (r: Found<Ast>)
      requires pos < |tokens|
      requires var kind := TokenAt(tokens, pos).kind; kind.LPAREN? || kind.LBRACKET? || kind.DOT?
      modifies `pos
      ensures r.Found? ==> old(pos) < pos <= |tokens|
      ensures r.Found? ==> ChainTail(dialect, tokens, left, old(pos)) == ChainTail(dialect, tokens, r.value, pos)
      ensures r.Failed? ==> pos <= |tokens| && ChainTail(dialect, tokens, left, old(pos)) == Wrong(r.at, r.why)
      decreases |tokens| - pos, 6
    {
      var kind := GetToken(0).kind;
      pos := pos + 1;
      if kind.LPAREN? {
        var args := [];
        if GetToken(0).kind.RPAREN? {
          pos := pos + 1;
        } else {
          var list := GetArgs();
          if list.Failed? { return Failed(list.at, list.why); }
          args := list.value;
        }
        r := Found(Apply(left, args));
      } else if kind.LBRACKET? {
        r := GetExpr();
        if r.Failed? { return; }
        if r.value.Null? || !GetToken(0).kind.RBRACKET? { return Failed(pos, BadIndex); }
        pos := pos + 1;
        r := Found(Binary(LBRACKET, left, r.value));
      } else {
        r := GetPrimary();
        if r.Failed? { return; }
        r := Found(Binary(DOT, left, r.value));
      }
    }

    method GetArgs() returns (r: Found<seq<Ast>>)
      requires pos <= |tokens|
      modifies `pos
      ensures AgreesOnList(ParseArgs(dialect, tokens, old(pos), []), r)
      ensures r.Found? ==> old(pos) < pos
      decreases |tokens| - pos, 42
    {
      var args := [];
      while true
        invariant old(pos) <= pos <= |tokens|
        invariant ParseArgs(dialect, tokens, old(pos), []) == ParseArgs(dialect, tokens, pos, args)
        decreases |tokens| - pos
      {
        var e := GetExpr();
        if e.Failed? { return Failed(e.at, e.why); }
        if !e.value.Null? {
          args := args + [e.value];
          if GetToken(0).kind.RPAREN? {
            pos := pos + 1;
            return Found(args);
          } else if !GetToken(0).kind.COMMA? {
            return Failed(pos, BadArguments);
          }
          pos := pos + 1;
        } else {
          if !GetToken(0).kind.RPAREN? { return Failed(pos, BadCall); }
          pos := pos + 1;
        }
      }
    }

    method GetPrimary() returns (r: Found<Ast>)
      requires pos <= |tokens|
      modifies `pos
      ensures Agrees(ParsePrimary(dialect, tokens, old(pos)), r)
      decreases |tokens| - pos, 5
    {
      var tk := GetToken(0);
      if IsLiteral(tk.kind) {
        var lit := LiteralKind(tk.kind);
        pos := pos + 1;
        if (lit, tk.lexeme) !in dialect.literals { return Failed(pos - 1, BadLiteral); }
        r := Found(Literal(lit, tk.lexeme));
      } else if tk.kind.IDENTIFIER? {
        if !ExpressionPart(tk.lexeme) { return Failed(pos, NotAnExpressionPart); }
        pos := pos + 1;
        r := Found(WordAst(tk.lexeme));
      } else if tk.kind.LPAREN? {
        pos := pos + 1;
        r := GetExpr();
        if r.Failed? { return; }
        if !GetToken(0).kind.RPAREN? { return Failed(pos, ParenExpected); }
        pos := pos + 1;
      } else if tk.kind.LBRACKET? {
        pos := pos + 1;
        var items := GetItems();
        if items.Failed? { return Failed(items.at, items.why); }
        r := Found(Array(items.value));
      } else {
        r := Found(Null);
      }
    }

    method GetItems() returns (r: Found<seq<Ast>>)
      requires pos <= |tokens|
      modifies `pos
      ensures AgreesOnList(ParseItems(dialect, tokens, old(pos), []), r)
      decreases |tokens| - pos, 42
    {
      var items := [];
      while !GetToken(0).kind.RBRACKET?
        invariant old(pos) <= pos <= |tokens|
        invariant ParseItems(dialect, tokens, old(pos), []) == ParseItems(dialect, tokens, pos, items)
        decreases |tokens| - pos
      {
        var e := GetExpr();
        if e.Failed? { return Failed(e.at, e.why); }
        if e.value.Null? { return Failed(pos, ItemExpected); }
        items := items + [e.value];
        if GetToken(0).kind.COMMA? {
          pos := pos + 1;
        }
      }
      pos := pos + 1;
      r := Found(items);
    }

    // ---------------------------------------------------------------- statements

    predicate WordHere(word: string)
      reads `tokens, `pos
    {
      Word(tokens, pos, word)
    }

    method GetStatement() returns (r: Found<Tree>)
      requires pos <= |tokens|
      modifies `pos, `loopsNesting
      ensures AgreesOnTree(ParseStatement(dialect, tokens, old(loopsNesting) != [], old(pos)), r)
      ensures loopsNesting == old(loopsNesting)
      decreases |tokens| - pos, 3
    {
      if GetToken(0).kind.SEMICOLON? {
        pos := pos + 1;
        r := Found(EmptyTree);
      } else if WordHere("if") {
        r := GetIf();
      } else if WordHere("throw") {
        r := GetThrow();
      } else if WordHere("try") {
        r := GetTry();
      } else if WordHere("while") {
        r := GetWhile();
      } else if WordHere("for") {
        r := GetFor();
      } else if GetToken(0).kind.LCURLY? {
        r := GetCompound();
      } else if WordHere("return") {
        r := GetReturn();
      } else if WordHere("break") {
        r := GetJump(BreakTree);
      } else if WordHere("continue") {
        r := GetJump(ContinueTree);
      } else {
        r := GetExprStatement();
      }
    }

    method GetIf() returns (r: Found<Tree>)
      requires pos < |tokens|
      modifies `pos, `loopsNesting
      ensures AgreesOnTree(ParseIf(dialect, tokens, old(loopsNesting) != [], old(pos)), r)
      ensures loopsNesting == old(loopsNesting)
      decreases |tokens| - pos, 2
    {
      pos := pos + 1;
      var cond := GetExpr();
      if cond.Failed? { return Failed(cond.at, cond.why); }
      if cond.value.Null? { return Failed(pos, ConditionExpected); }
      r := GetStatement();
      if r.Failed? { return; }
      var yes := r.value;
      if GetToken(0).kind.ENDOFFILE? { return Failed(pos, UnexpectedEnd); }
      if !WordHere("else") { return Found(IfTree(cond.value, yes, NoTree)); }
      pos := pos + 1;
      r := GetStatement();
      if r.Failed? { return; }
      r := Found(IfTree(cond.value, yes, r.value));
    }

    method GetThrow() returns (r: Found<Tree>)
      requires pos < |tokens|
      modifies `pos
      ensures AgreesOnTree(ParseThrow(dialect, tokens, old(pos)), r)
    {
      pos := pos + 1;
      var e := GetExpr();
      if e.Failed? { return Failed(e.at, e.why); }
      if e.value.Null? { return Failed(pos, NothingToThrow); }
      if !GetToken(0).kind.SEMICOLON? { return Failed(pos, Missing(tokens, pos, SemicolonExpected)); }
      pos := pos + 1;
      r := Found(ThrowTree(e.value));
    }

    method GetTry() returns (r: Found<Tree>)
      requires pos < |tokens|
      modifies `pos, `loopsNesting
      ensures AgreesOnTree(ParseTry(dialect, tokens, old(loopsNesting) != [], old(pos)), r)
      ensures loopsNesting == old(loopsNesting)
      decreases |tokens| - pos, 2
    {
      pos := pos + 1;
      r := GetStatement();
      if r.Failed? { return; }
      var body := r.value;
      if !WordHere("catch") { return Failed(pos, Missing(tokens, pos, CatchExpected)); }
      pos := pos + 1;
      var name := GetCatchName();
      if name.Failed? { return Failed(name.at, name.why); }
      r := GetStatement();
      if r.Failed? { return; }
      r := Found(TryTree(body, name.value, r.value));
    }

    method GetCatchName() returns (r: Found<Ast>)
      requires pos <= |tokens|
      modifies `pos
      ensures Agrees(ParseCatchName(dialect, tokens, old(pos)), r)
    {
      if GetToken(0).kind.ENDOFFILE? { return Failed(pos, UnexpectedEnd); }
      if GetToken(0).lexeme != "(" { return Failed(pos, CatchParenExpected); }
      pos := pos + 1;
      if GetToken(0).kind.ENDOFFILE? { return Failed(pos, UnexpectedEnd); }
      if GetToken(0).kind.IDENTIFIER? {
        r := GetExpr();
        if r.Failed? { return; }
        if !r.value.Ident? { return Failed(pos, CatchNameExpected); }
        if GetToken(0).kind.ENDOFFILE? { return Failed(pos, UnexpectedEnd); }
        if GetToken(0).lexeme != ")" { return Failed(pos, ParenExpected); }
        pos := pos + 1;
      } else if GetToken(0).lexeme == ")" {
        pos := pos + 1;
        r := Found(Null);
      } else {
        r := Failed(pos, CatchNameExpected);
      }
    }

    /** The loop is on the nesting stack while its parts are read, and off it however that ends. */
    method GetWhile() returns (r: Found<Tree>)
      requires pos < |tokens|
      modifies `pos, `loopsNesting
      ensures AgreesOnTree(ParseWhile(dialect, tokens, old(pos)), r)
      ensures loopsNesting == old(loopsNesting)
      decreases |tokens| - pos, 2
    {
      loopsNesting := ["while"] + loopsNesting;
      r := GetWhileParts();
      loopsNesting := loopsNesting[1..];
    }

    method GetWhileParts() returns (r: Found<Tree>)
      requires pos < |tokens| && loopsNesting != []
      modifies `pos, `loopsNesting
      ensures AgreesOnTree(ParseWhile(dialect, tokens, old(pos)), r)
      ensures loopsNesting == old(loopsNesting)
      decreases |tokens| - pos, 1
    {
      pos := pos + 1;
      if !GetToken(0).kind.LPAREN? { return Failed(pos, Missing(tokens, pos, ConditionExpected)); }
      pos := pos + 1;
      var cond := GetExpr();
      if cond.Failed? { return Failed(cond.at, cond.why); }
      if cond.value.Null? { return Failed(pos, ConditionExpected); }
      if !GetToken(0).kind.RPAREN? { return Failed(pos, Missing(tokens, pos, ConditionExpected)); }
      pos := pos + 1;
      r := GetStatement();
      if r.Failed? { return; }
      r := Found(WhileTree(cond.value, r.value));
    }

    method GetFor() returns (r: Found<Tree>)
      requires pos < |tokens|
      modifies `pos, `loopsNesting
      ensures AgreesOnTree(ParseFor(dialect, tokens, old(pos)), r)
      ensures loopsNesting == old(loopsNesting)
      decreases |tokens| - pos, 2
    {
      loopsNesting := ["for"] + loopsNesting;
      r := GetForParts();
      loopsNesting := loopsNesting[1..];
    }

    method GetForParts() returns (r: Found<Tree>)
      requires pos < |tokens| && loopsNesting != []
      modifies `pos, `loopsNesting
      ensures AgreesOnTree(ParseFor(dialect, tokens, old(pos)), r)
      ensures loopsNesting == old(loopsNesting)
      decreases |tokens| - pos, 1
    {
      pos := pos + 1;
      var head := GetForHead();
      if head.Failed? { return Failed(head.at, head.why); }
      r := GetStatement();
      if r.Failed? { return; }
      r := Found(ForTree(head.value[0], head.value[1], head.value[2], r.value));
    }

    method GetForHead() returns (r: Found<seq<Ast>>)
      requires pos <= |tokens|
      modifies `pos
      ensures AgreesOnList(ParseForHead(dialect, tokens, old(pos)), r)
    {
      if !GetToken(0).kind.LPAREN? { return Failed(pos, Missing(tokens, pos, ParenExpected)); }
      pos := pos + 1;
      var init := GetForPartThen("false", false);
      if init.Failed? { return Failed(init.at, init.why); }
      var cond := GetForPartThen("true", false);
      if cond.Failed? { return Failed(cond.at, cond.why); }
      var incr := GetForPartThen("false", true);
      if incr.Failed? { return Failed(incr.at, incr.why); }
      r := Found([init.value, cond.value, incr.value]);
    }

    method GetForPartThen(filler: string, last: bool) returns (r: Found<Ast>)
      requires pos <= |tokens|
      modifies `pos
      ensures Agrees(ParseForPartThen(dialect, tokens, old(pos), filler, last), r)
    {
      r := GetForPart(filler);
      if r.Failed? { return; }
      if last && !GetToken(0).kind.RPAREN? { return Failed(pos, Missing(tokens, pos, ParenExpected)); }
      if !last && !GetToken(0).kind.SEMICOLON? { return Failed(pos, Missing(tokens, pos, SemicolonExpected)); }
      pos := pos + 1;
    }

    method GetForPart(filler: string) returns (r: Found<Ast>)
      requires pos <= |tokens|
      modifies `pos
      ensures Agrees(ParseForPart(dialect, tokens, old(pos), filler), r)
    {
      if GetToken(0).kind.ENDOFFILE? { return Failed(pos, UnexpectedEnd); }
      if GetToken(0).kind.SEMICOLON? { return Found(Literal(BoolLit, filler)); }
      r := GetExpr();
      if r.Found? && r.value.Null? {
        r := Failed(pos, ExpressionExpected);
      }
    }

    method GetCompound() returns (r: Found<Tree>)
      requires pos < |tokens| && TokenAt(tokens, pos).kind.LCURLY?
      modifies `pos, `loopsNesting
      ensures AgreesOnTree(ParseStatement(dialect, tokens, old(loopsNesting) != [], old(pos)), r)
      ensures loopsNesting == old(loopsNesting)
      decreases |tokens| - pos, 2
    {
      pos := pos + 1;
      if GetToken(0).kind.ENDOFFILE? { return Failed(pos, UnexpectedEnd); }
      if GetToken(0).kind.RCURLY? {
        pos := pos + 1;
        return Found(BlockTree([]));
      }
      r := GetBlock();
    }

    /** The statements up to the closing brace. */
    method GetBlock() returns (r: Found<Tree>)
      requires pos <= |tokens|
      modifies `pos, `loopsNesting
      ensures AgreesOnTree(ParseBlock(dialect, tokens, old(loopsNesting) != [], old(pos), []), r)
      ensures loopsNesting == old(loopsNesting)
      decreases |tokens| - pos, 4
    {
      ghost var inLoop := loopsNesting != [];
      var stats := [];
      while true
        invariant old(pos) <= pos <= |tokens| && loopsNesting == old(loopsNesting)
        invariant forall i :: 0 <= i < |stats| ==> TreeNested(stats[i], inLoop)
        invariant ParseBlock(dialect, tokens, inLoop, old(pos), []) == ParseBlock(dialect, tokens, inLoop, pos, stats)
        decreases |tokens| - pos
      {
        r := GetStatement();
        if r.Failed? { return; }
        stats := stats + [r.value];
        if GetToken(0).kind.ENDOFFILE? { return Failed(pos, UnexpectedEnd); }
        if GetToken(0).kind.RCURLY? {
          pos := pos + 1;
          return Found(BlockTree(stats));
        }
      }
    }

    method GetReturn() returns (r: Found<Tree>)
      requires pos < |tokens|
      modifies `pos
      ensures AgreesOnTree(ParseReturn(dialect, tokens, old(pos)), r)
    {
      pos := pos + 1;
      var e := GetExpr();
      if e.Failed? { return Failed(e.at, e.why); }
      if !GetToken(0).kind.SEMICOLON? { return Failed(pos, Missing(tokens, pos, SemicolonExpected)); }
      pos := pos + 1;
      r := Found(ReturnTree(e.value));
    }

    method GetJump(jump: Tree) returns (r: Found<Tree>)
      requires pos < |tokens| && (jump.BreakTree? || jump.ContinueTree?)
      modifies `pos
      ensures AgreesOnTree(ParseJump(tokens, loopsNesting != [], old(pos), jump), r)
    {
      if loopsNesting == [] { return Failed(pos, OutsideLoop); }
      pos := pos + 1;
      if !GetToken(0).kind.SEMICOLON? { return Failed(pos, Missing(tokens, pos, SemicolonExpected)); }
      pos := pos + 1;
      r := Found(jump);
    }

    method GetExprStatement() returns (r: Found<Tree>)
      requires pos <= |tokens|
      modifies `pos
      ensures AgreesOnTree(ParseExprStatement(dialect, tokens, old(pos)), r)
    {
      var e := GetExpr();
      if e.Failed? { return Failed(e.at, e.why); }
      if e.value.Null? {
        if GetToken(0).kind.SEMICOLON? {
          pos := pos + 1;
        }
        return Failed(pos, InvalidStatement);
      }
      if !GetToken(0).kind.SEMICOLON? { return Failed(pos, Missing(tokens, pos, SemicolonExpected)); }
      pos := pos + 1;
      r := Found(ExprTree(e.value));
    }

    // ---------------------------------------------------------------- definitions and cell instances

    /** Function definitions check for the end of input between the names, cell definitions only
        after them; the outcome is the same. */
    method GetNames(checking: bool) returns (r: Found<seq<string>>)
      requires pos <= |tokens|
      modifies `pos
      ensures AgreesOnNames(ParseNames(tokens, old(pos), []), r)
    {
      var names := [];
      while GetToken(0).kind.IDENTIFIER?
        invariant old(pos) <= pos <= |tokens|
        invariant ParseNames(tokens, old(pos), []) == ParseNames(tokens, pos, names)
        decreases |tokens| - pos
      {
        names := names + [GetToken(0).lexeme];
        pos := pos + 1;
        if checking && GetToken(0).kind.ENDOFFILE? { return Failed(pos, UnexpectedEnd); }
        if !GetToken(0).kind.COMMA? {
          if !GetToken(0).kind.RPAREN? { return Failed(pos, Missing(tokens, pos, BadNameList)); }
          pos := pos + 1;
          return Found(names);
        }
        pos := pos + 1;
        if checking && GetToken(0).kind.ENDOFFILE? { return Failed(pos, UnexpectedEnd); }
      }
      if !GetToken(0).kind.RPAREN? { return Failed(pos, Missing(tokens, pos, BadNameList)); }
      pos := pos + 1;
      r := Found(names);
    }

    method GetCellArgs() returns (r: Found<seq<Ast>>)
      requires pos <= |tokens|
      modifies `pos
      ensures AgreesOnList(ParseCellArgs(dialect, tokens, old(pos), []), r)
    {
      var args := [];
      while !GetToken(0).kind.RPAREN?
        invariant old(pos) <= pos <= |tokens|
        invariant ParseCellArgs(dialect, tokens, old(pos), []) == ParseCellArgs(dialect, tokens, pos, args)
        decreases |tokens| - pos
      {
        var e := GetExpr();
        if e.Failed? { return Failed(e.at, e.why); }
        args := args + [e.value];
        if !GetToken(0).kind.COMMA? {
          if !GetToken(0).kind.RPAREN? { return Failed(pos, Missing(tokens, pos, BadCellArguments)); }
          pos := pos + 1;
          return Found(args);
        }
        pos := pos + 1;
      }
      pos := pos + 1;
      r := Found(args);
    }

    method GetTop() returns (r: Found<TopTree>)
      requires pos <= |tokens| && loopsNesting == []
      modifies `pos, `loopsNesting
      ensures AgreesOnTop(ParseTop(dialect, tokens, old(pos)), r) && loopsNesting == []
    {
      if GetToken(0).lexeme == "function" && GetToken(1).kind.IDENTIFIER? && GetToken(2).kind.LPAREN? {
        var name := GetToken(1).lexeme;
        pos := pos + 3;
        var names := GetNames(true);
        if names.Failed? { return Failed(names.at, names.why); }
        var body := GetStatement();
        if body.Failed? { return Failed(body.at, body.why); }
        r := Found(FunctionDef(name, names.value, body.value));
      } else if GetToken(0).kind.IDENTIFIER? && GetToken(1).kind.LPAREN? {
        var name := GetToken(0).lexeme;
        pos := pos + 2;
        var names := GetNames(false);
        if names.Failed? { return Failed(names.at, names.why); }
        var body := GetStatement();
        if body.Failed? { return Failed(body.at, body.why); }
        r := Found(CellDef(name, names.value, body.value));
      } else {
        r := GetInstance();
      }
    }

    method GetInstance() returns (r: Found<TopTree>)
      requires pos <= |tokens|
      modifies `pos
      ensures AgreesOnTop(ParseInstance(dialect, tokens, old(pos)), r)
    {
      var first, second := GetToken(0).lexeme, GetToken(1).lexeme;
      if GetToken(0).kind.IDENTIFIER? && GetToken(1).kind.IDENTIFIER? && GetToken(2).kind.LPAREN? {
        if GetToken(3).kind.ENDOFFILE? {
          pos := pos + 3;
          return Failed(pos, UnexpectedEnd);
        }
        pos := pos + 3;
        var args := GetCellArgs();
        if args.Failed? { return Failed(args.at, args.why); }
        var outlet := NoOutlet;
        if GetToken(0).kind.CHAR_LITERAL? {
          outlet := Outlet(GetToken(0).lexeme);
          pos := pos + 1;
        }
        r := GetEnd(CellInst(second, Regular(first, args.value, outlet)));
      } else if WordHere("extern") && GetToken(1).kind.CHAR_LITERAL? && GetToken(2).kind.IDENTIFIER? {
        var name := GetToken(2).lexeme;
        pos := pos + 3;
        r := GetEnd(CellInst(name, Extern(second)));
      } else if GetToken(0).kind.CHAR_LITERAL? && GetToken(1).kind.IDENTIFIER? {
        pos := pos + 2;
        r := GetEnd(CellInst(second, Input(first)));
      } else {
        r := Failed(pos, InvalidStatement);
      }
    }

    method GetEnd(top: TopTree) returns (r: Found<TopTree>)
      requires pos <= |tokens|
      modifies `pos
      ensures AgreesOnTop(Ended(tokens, top, old(pos)), r)
    {
      if !GetToken(0).kind.SEMICOLON? { return Failed(pos, Missing(tokens, pos, SemicolonExpected)); }
      pos := pos + 1;
      r := Found(top);
    }

    /** The script, from the first token. */
    method Parse() returns (r: Found<seq<TopTree>>)
      requires loopsNesting == []
      modifies `pos, `loopsNesting
      ensures loopsNesting == [] && pos <= |tokens|
      ensures match ParseScript(dialect, tokens, 0, [])
        case ParsedScript(tops) => r == Found(tops)
        case WrongScript(at, why) => r == Failed(at, why)
      ensures r.Found? ==> forall t :: t in r.value ==> TopNested(t)
    {
      pos := 0;
      var tops := [];
      while !GetToken(0).kind.ENDOFFILE?
        invariant pos <= |tokens| && loopsNesting == []
        invariant forall t :: t in tops ==> TopNested(t)
        invariant ParseScript(dialect, tokens, 0, []) == ParseScript(dialect, tokens, pos, tops)
        decreases |tokens| - pos
      {
        var top := GetTop();
        if top.Failed? { return Failed(top.at, top.why); }
        tops := tops + [top.value];
      }
      r := Found(tops);
    }
  }
}
