/** The code generator. Expressions are translated by a loop over an explicit stack of frames,
    each with a phase and two buffers, and one result register; it is proved equal to the plain
    recursive translation. Statements are translated by recursion. */
module Codegen {
  import opened Syntax
  import opened Ast
  import opened Semantics
  import BlockCollapse
  import opened Wrappers

  datatype ChopError = InvalidExpression(at: Ast) | InvalidCast(at: Ast) | InvalidCharacter(at: Ast)

  /** A node and the boxes its literals live in, or the first error. */
  datatype Chopped = Chopped(expr: Expr, boxes: seq<Val>) | Rejected(error: ChopError)
  datatype ChoppedArgs = ChoppedArgs(exprs: seq<Expr>, boxes: seq<Val>) | RejectedArgs(error: ChopError)

  // ------------------------------------------------------------------ the recursion

  /** A binary operator lacks an operand, and so on. */
  predicate Malformed(a: Ast) {
    match a
    case Binary(_, l, r) => l.Null? || r.Null?
    case Ternary(op, c, t, f) => c.Null? || t.Null? || f.Null? || !op.QUESTION?
    case Unary(_, _, x) => x.Null?
    case Suffix(_, x) => x.Null?
    case Apply(f, _) => f.Null?
    case _ => false
  }

  function FinishUnary(d: Dialect<Val>, a: Ast, e: Expr, boxes: seq<Val>): Chopped
    requires a.Unary?
  {
    if !a.op.TYPECAST? then Chopped(Prefix(a.op, e), boxes)
    else if a.typeName in d.forbiddenCasts then Rejected(InvalidCast(a))
    else Chopped(Cast(a.typeName, e), boxes)
  }

  function Chop(d: Dialect<Val>, a: Ast, boxes: seq<Val>): Chopped
    decreases a
  {
    if Malformed(a) then Rejected(InvalidExpression(a))
    else
      match a
      case Null => Chopped(Void, boxes)
      case Binary(op, left, right) =>
        var l := Chop(d, left, boxes);
        if l.Rejected? then l
        else
          var r := Chop(d, right, l.boxes);
          if r.Rejected? then r else Chopped(Binop(op, l.expr, r.expr), r.boxes)
      case Ternary(_, condition, trueExpr, falseExpr) =>
        var c := Chop(d, condition, boxes);
        if c.Rejected? then c
        else
          var t := Chop(d, trueExpr, c.boxes);
          if t.Rejected? then t
          else
            var f := Chop(d, falseExpr, t.boxes);
            if f.Rejected? then f else Chopped(Ternop(c.expr, t.expr, f.expr), f.boxes)
      case Unary(_, _, operand) =>
        var x := Chop(d, operand, boxes);
        if x.Rejected? then x else FinishUnary(d, a, x.expr, x.boxes)
      case Suffix(op, operand) =>
        var x := Chop(d, operand, boxes);
        if x.Rejected? then x else Chopped(Postfix(x.expr, op), x.boxes)
      case Ident(name) => Chopped(Sym(name), boxes)
      case Literal(kind, text) =>
        if kind.ChrLit? && text == "" then Rejected(InvalidCharacter(a))
        else if kind.UndefinedLit? then Chopped(Primary(Nothing), boxes)
        else Chopped(Primary(Just(|boxes|)), boxes + [d.literalValue(kind, text)])
      case Array(items) =>
        var xs := ChopAll(d, items, boxes);
        if xs.RejectedArgs? then Rejected(xs.error) else Chopped(Call(Sym("array"), xs.exprs), xs.boxes)
      case Apply(func, args) =>
        var f := Chop(d, func, boxes);
        if f.Rejected? then f
        else
          var xs := ChopAll(d, args, f.boxes);
          if xs.RejectedArgs? then Rejected(xs.error) else Chopped(Call(f.expr, xs.exprs), xs.boxes)
  }

  function ChopAll(d: Dialect<Val>, asts: seq<Ast>, boxes: seq<Val>): ChoppedArgs
    decreases asts
  {
    if asts == [] then ChoppedArgs([], boxes)
    else
      var x := Chop(d, asts[0], boxes);
      if x.Rejected? then RejectedArgs(x.error)
      else
        var xs := ChopAll(d, asts[1..], x.boxes);
        if xs.RejectedArgs? then xs else ChoppedArgs([x.expr] + xs.exprs, xs.boxes)
  }

  // ------------------------------------------------------------------ statements

  datatype ChoppedStmt = ChoppedStmt(stmt: Stmt, boxes: seq<Val>) | RejectedStmt(error: ChopError)
  datatype ChoppedStmts = ChoppedStmts(stmts: seq<Stmt>, boxes: seq<Val>) | RejectedStmts(error: ChopError)

  /** No statement is missing where one is needed. */
  predicate Whole(t: Tree) {
    match t
    case NoTree => false
    case TryTree(a, _, b) => Whole(a) && Whole(b)
    case IfTree(_, a, b) => Whole(a) && (b.NoTree? || Whole(b))
    case BlockTree(stats) => forall i :: 0 <= i < |stats| ==> Whole(stats[i])
    case WhileTree(_, body) => Whole(body)
    case ForTree(_, _, _, body) => Whole(body)
    case _ => true
  }

  /** The translation of a statement; `block` says what becomes of a block. */
  function ChopTree(d: Dialect<Val>, block: seq<Stmt> -> Stmt, t: Tree, boxes: seq<Val>): ChoppedStmt
    requires Whole(t)
    decreases t
  {
    match t
    case EmptyTree => ChoppedStmt(Empty, boxes)
    case ContinueTree => ChoppedStmt(Continue, boxes)
    case BreakTree => ChoppedStmt(Break, boxes)
    case ExprTree(e) =>
      var x := Chop(d, e, boxes);
      if x.Rejected? then RejectedStmt(x.error) else ChoppedStmt(Eval(x.expr), x.boxes)
    case ThrowTree(e) =>
      var x := Chop(d, e, boxes);
      if x.Rejected? then RejectedStmt(x.error) else ChoppedStmt(Throw(x.expr), x.boxes)
    case ReturnTree(e) =>
      var x := Chop(d, e, boxes);
      if x.Rejected? then RejectedStmt(x.error) else ChoppedStmt(Return(x.expr), x.boxes)
    case TryTree(body, e, handler) =>
      var a := ChopTree(d, block, body, boxes);
      if a.RejectedStmt? then a
      else
        var x := Chop(d, e, a.boxes);
        if x.Rejected? then RejectedStmt(x.error)
        else
          var b := ChopTree(d, block, handler, x.boxes);
          if b.RejectedStmt? then b
          else ChoppedStmt(TryCatch(SkipFrame(a.stmt), x.expr, SkipFrame(b.stmt)), b.boxes)
    case IfTree(cond, yes, no) =>
      var x := Chop(d, cond, boxes);
      if x.Rejected? then RejectedStmt(x.error)
      else
        var a := ChopTree(d, block, yes, x.boxes);
        if a.RejectedStmt? then a
        else if no.NoTree? then ChoppedStmt(IfElse(x.expr, SkipFrame(a.stmt), NoStmt), a.boxes)
        else
          var b := ChopTree(d, block, no, a.boxes);
          if b.RejectedStmt? then b
          else ChoppedStmt(IfElse(x.expr, SkipFrame(a.stmt), SomeStmt(SkipFrame(b.stmt))), b.boxes)
    case BlockTree(stats) =>
      var xs := ChopTrees(d, block, stats, boxes);
      if xs.RejectedStmts? then RejectedStmt(xs.error) else ChoppedStmt(block(xs.stmts), xs.boxes)
    case WhileTree(cond, body) =>
      var x := Chop(d, cond, boxes);
      if x.Rejected? then RejectedStmt(x.error)
      else
        var a := ChopTree(d, block, body, x.boxes);
        if a.RejectedStmt? then a else ChoppedStmt(While(x.expr, SkipFrame(a.stmt)), a.boxes)
    case ForTree(init, cond, incr, body) =>
      var xs := ChopAll(d, [init, cond, incr], boxes);
      if xs.RejectedArgs? then RejectedStmt(xs.error)
      else
        ChopAllLength(d, [init, cond, incr], boxes);
        var a := ChopTree(d, block, body, xs.boxes);
        if a.RejectedStmt? then a
        else ChoppedStmt(For(xs.exprs[0], xs.exprs[1], xs.exprs[2], SkipFrame(a.stmt)), a.boxes)
  }

  function ChopTrees(d: Dialect<Val>, block: seq<Stmt> -> Stmt, ts: seq<Tree>, boxes: seq<Val>): ChoppedStmts
    requires forall i :: 0 <= i < |ts| ==> Whole(ts[i])
    decreases ts
  {
    if ts == [] then ChoppedStmts([], boxes)
    else
      var x := ChopTree(d, block, ts[0], boxes);
      if x.RejectedStmt? then RejectedStmts(x.error)
      else
        var xs := ChopTrees(d, block, ts[1..], x.boxes);
        if xs.RejectedStmts? then xs else ChoppedStmts([x.stmt] + xs.stmts, xs.boxes)
  }

  lemma {:induction false} ChopAllLength(d: Dialect<Val>, asts: seq<Ast>, boxes: seq<Val>)
    ensures var xs := ChopAll(d, asts, boxes); xs.ChoppedArgs? ==> |xs.exprs| == |asts|
  {
    if asts != [] {
      var x := Chop(d, asts[0], boxes);
      if x.Chopped? {
        ChopAllLength(d, asts[1..], x.boxes);
      }
    }
  }

  /** Blocks kept as they are written. */
  function AsWritten(stats: seq<Stmt>): Stmt {
    Compound(stats, true)
  }

  /** `b` is outcome `a` with the blocks collapsed. */
  ghost predicate Collapses(a: ChoppedStmt, b: ChoppedStmt) {
    if a.RejectedStmt? then b == a else b == ChoppedStmt(BlockCollapse.Collapse(a.stmt), a.boxes)
  }

  /** The tree the generator builds is the collapse of the tree with all blocks kept. */
  lemma {:induction false} GeneratorCollapses(d: Dialect<Val>, t: Tree, boxes: seq<Val>)
    requires Whole(t)
    ensures Collapses(ChopTree(d, AsWritten, t, boxes), ChopTree(d, BlockOf, t, boxes))
    decreases t, 1
  {
    match t
    case TryTree(_, _, _) => GeneratorCollapsesTry(d, t, boxes);
    case IfTree(_, _, _) => GeneratorCollapsesIf(d, t, boxes);
    case BlockTree(stats) => GeneratorCollapsesAll(d, stats, boxes);
    case WhileTree(cond, body) =>
      var x := Chop(d, cond, boxes);
      if x.Chopped? {
        GeneratorCollapses(d, body, x.boxes);
      }
    case ForTree(init, cond, incr, body) =>
      var xs := ChopAll(d, [init, cond, incr], boxes);
      if xs.ChoppedArgs? {
        GeneratorCollapses(d, body, xs.boxes);
      }
    case _ =>
  }

  lemma {:induction false} GeneratorCollapsesTry(d: Dialect<Val>, t: Tree, boxes: seq<Val>)
    requires Whole(t) && t.TryTree?
    ensures Collapses(ChopTree(d, AsWritten, t, boxes), ChopTree(d, BlockOf, t, boxes))
    decreases t, 0
  {
    GeneratorCollapses(d, t.body, boxes);
    var a := ChopTree(d, AsWritten, t.body, boxes);
    if a.ChoppedStmt? {
      var x := Chop(d, t.catchExpr, a.boxes);
      if x.Chopped? {
        GeneratorCollapses(d, t.handler, x.boxes);
      }
    }
  }

  lemma {:induction false} GeneratorCollapsesIf(d: Dialect<Val>, t: Tree, boxes: seq<Val>)
    requires Whole(t) && t.IfTree?
    ensures Collapses(ChopTree(d, AsWritten, t, boxes), ChopTree(d, BlockOf, t, boxes))
    decreases t, 0
  {
    var x := Chop(d, t.cond, boxes);
    if x.Chopped? {
      GeneratorCollapses(d, t.yes, x.boxes);
      var a := ChopTree(d, AsWritten, t.yes, x.boxes);
      if a.ChoppedStmt? && !t.no.NoTree? {
        GeneratorCollapses(d, t.no, a.boxes);
      }
    }
  }

  lemma {:induction false} GeneratorCollapsesAll(d: Dialect<Val>, ts: seq<Tree>, boxes: seq<Val>)
    requires forall i :: 0 <= i < |ts| ==> Whole(ts[i])
    ensures var a, b := ChopTrees(d, AsWritten, ts, boxes), ChopTrees(d, BlockOf, ts, boxes);
      if a.RejectedStmts? then b == a else b == ChoppedStmts(BlockCollapse.CollapseAll(a.stmts), a.boxes)
    decreases ts, 0
  {
    if ts != [] {
      GeneratorCollapses(d, ts[0], boxes);
      var a := ChopTree(d, AsWritten, ts[0], boxes);
      if a.ChoppedStmt? {
        GeneratorCollapsesAll(d, ts[1..], a.boxes);
        var rest := ChopTrees(d, AsWritten, ts[1..], a.boxes);
        if rest.ChoppedStmts? {
          assert ([a.stmt] + rest.stmts)[1..] == rest.stmts;
        }
      }
    }
  }

  lemma NestedIsWhole(t: Tree, inLoop: bool)
    requires TreeNested(t, inLoop)
    ensures Whole(t)
  {
  }

  lemma SkipKeepsNesting(s: Stmt, inLoop: bool)
    ensures WellNested(SkipFrame(s), inLoop) == WellNested(s, inLoop)
  {
  }

  lemma BlockKeepsNesting(stats: seq<Stmt>, inLoop: bool)
    requires forall i :: 0 <= i < |stats| ==> WellNested(stats[i], inLoop)
    ensures WellNested(BlockOf(stats), inLoop) && WellNested(SkipFrame(BlockOf(stats)), inLoop)
  {
    SkipKeepsNesting(BlockOf(stats), inLoop);
  }

  ghost predicate Nests(a: ChoppedStmt, inLoop: bool) {
    a.ChoppedStmt? ==> WellNested(a.stmt, inLoop) && WellNested(SkipFrame(a.stmt), inLoop)
  }

  /** Trees in which break and continue stay inside loops are translated to such statements. */
  lemma {:induction false} ChopKeepsNesting(d: Dialect<Val>, t: Tree, inLoop: bool, boxes: seq<Val>)
    requires TreeNested(t, inLoop)
    ensures Whole(t) && Nests(ChopTree(d, BlockOf, t, boxes), inLoop)
    decreases t, 1
  {
    NestedIsWhole(t, inLoop);
    match t
    case TryTree(_, _, _) => ChopTryNesting(d, t, inLoop, boxes);
    case IfTree(_, _, _) => ChopIfNesting(d, t, inLoop, boxes);
    case BlockTree(_) => ChopBlockNesting(d, t, inLoop, boxes);
    case WhileTree(_, _) => ChopLoopNesting(d, t, inLoop, boxes);
    case ForTree(_, _, _, _) => ChopLoopNesting(d, t, inLoop, boxes);
    case _ =>
  }

  lemma {:induction false} ChopBlockNesting(d: Dialect<Val>, t: Tree, inLoop: bool, boxes: seq<Val>)
    requires TreeNested(t, inLoop) && Whole(t) && t.BlockTree?
    ensures Nests(ChopTree(d, BlockOf, t, boxes), inLoop)
    decreases t, 0
  {
    ChopAllKeepNesting(d, t.stats, inLoop, boxes);
    var xs := ChopTrees(d, BlockOf, t.stats, boxes);
    if xs.ChoppedStmts? {
      BlockKeepsNesting(xs.stmts, inLoop);
    }
  }

  lemma {:induction false} ChopLoopNesting(d: Dialect<Val>, t: Tree, inLoop: bool, boxes: seq<Val>)
    requires TreeNested(t, inLoop) && Whole(t) && (t.WhileTree? || t.ForTree?)
    ensures Nests(ChopTree(d, BlockOf, t, boxes), inLoop)
    decreases t, 0
  {
    if t.WhileTree? {
      var x := Chop(d, t.cond, boxes);
      if x.Chopped? {
        ChopKeepsNesting(d, t.body, true, x.boxes);
      }
    } else {
      var xs := ChopAll(d, [t.init, t.cond, t.incr], boxes);
      if xs.ChoppedArgs? {
        ChopKeepsNesting(d, t.body, true, xs.boxes);
      }
    }
  }

  lemma {:induction false} ChopTryNesting(d: Dialect<Val>, t: Tree, inLoop: bool, boxes: seq<Val>)
    requires TreeNested(t, inLoop) && Whole(t) && t.TryTree?
    ensures Nests(ChopTree(d, BlockOf, t, boxes), inLoop)
    decreases t, 0
  {
    ChopKeepsNesting(d, t.body, inLoop, boxes);
    var a := ChopTree(d, BlockOf, t.body, boxes);
    if a.ChoppedStmt? {
      var x := Chop(d, t.catchExpr, a.boxes);
      if x.Chopped? {
        ChopKeepsNesting(d, t.handler, inLoop, x.boxes);
      }
    }
  }

  lemma {:induction false} ChopIfNesting(d: Dialect<Val>, t: Tree, inLoop: bool, boxes: seq<Val>)
    requires TreeNested(t, inLoop) && Whole(t) && t.IfTree?
    ensures Nests(ChopTree(d, BlockOf, t, boxes), inLoop)
    decreases t, 0
  {
    var x := Chop(d, t.cond, boxes);
    if x.Chopped? {
      ChopKeepsNesting(d, t.yes, inLoop, x.boxes);
      var a := ChopTree(d, BlockOf, t.yes, x.boxes);
      if a.ChoppedStmt? && !t.no.NoTree? {
        ChopKeepsNesting(d, t.no, inLoop, a.boxes);
      }
    }
  }

  lemma {:induction false} ChopAllKeepNesting(d: Dialect<Val>, ts: seq<Tree>, inLoop: bool, boxes: seq<Val>)
    requires forall i :: 0 <= i < |ts| ==> TreeNested(ts[i], inLoop) && Whole(ts[i])
    ensures var a := ChopTrees(d, BlockOf, ts, boxes);
      a.ChoppedStmts? ==> forall i :: 0 <= i < |a.stmts| ==> WellNested(a.stmts[i], inLoop)
    decreases ts, 0
  {
    if ts != [] {
      ChopKeepsNesting(d, ts[0], inLoop, boxes);
      var a := ChopTree(d, BlockOf, ts[0], boxes);
      if a.ChoppedStmt? {
        ChopAllKeepNesting(d, ts[1..], inLoop, a.boxes);
        var xs := ChopTrees(d, BlockOf, ts, boxes);
        if xs.ChoppedStmts? {
          forall i | 0 <= i < |xs.stmts| ensures WellNested(xs.stmts[i], inLoop) {
            assert i > 0 ==> xs.stmts[i] == ChopTrees(d, BlockOf, ts[1..], a.boxes).stmts[i - 1];
          }
        }
      }
    }
  }

  // ------------------------------------------------------------------ the machine

  datatype Frame = Frame(ast: Ast, buf1: Expr, buf2: Expr, phase: nat)

  /** Phases that a frame of this kind of node goes through. */
  predicate Phased(f: Frame) {
    match f.ast
    case Binary(_, _, _) => f.phase <= 2
    case Ternary(_, _, _, _) => f.phase <= 3
    case Unary(_, _, _) => f.phase <= 1
    case Suffix(_, _) => f.phase <= 1
    case Apply(_, _) => f.phase <= 1
    case _ => f.phase == 0
  }

  /** Steps left for a node, and for a frame in its phase. */
  function Work(a: Ast): nat
    decreases a
  {
    match a
    case Binary(_, l, r) => 3 + Work(l) + Work(r)
    case Ternary(_, c, t, f) => 4 + Work(c) + Work(t) + Work(f)
    case Unary(_, _, x) => 2 + Work(x)
    case Suffix(_, x) => 2 + Work(x)
    case Array(items) => 1 + WorkAll(items)
    case Apply(f, args) => 2 + Work(f) + WorkAll(args)
    case _ => 1
  }

  function WorkAll(asts: seq<Ast>): nat
    decreases asts
  {
    if asts == [] then 0 else 1 + Work(asts[0]) + WorkAll(asts[1..])
  }

  function WorkLeft(f: Frame): nat {
    if f.phase == 0 then Work(f.ast)
    else
      match f.ast
      case Binary(_, _, r) => if f.phase == 1 then 2 + Work(r) else 1
      case Ternary(_, _, t, e) => if f.phase == 1 then 3 + Work(t) + Work(e) else if f.phase == 2 then 2 + Work(e) else 1
      case _ => 1
  }

  function StackWork(stack: seq<Frame>): nat {
    if stack == [] then 0 else StackWork(stack[..|stack| - 1]) + WorkLeft(stack[|stack| - 1])
  }

  /** What a frame will deliver, given the result register of the child it waited for. */
  function Deliver(d: Dialect<Val>, f: Frame, reg: Expr, boxes: seq<Val>): Chopped {
    if f.phase == 0 then Chop(d, f.ast, boxes)
    else
      match f.ast
      case Binary(op, _, right) =>
        if f.phase == 1 then
          var r := Chop(d, right, boxes);
          if r.Rejected? then r else Chopped(Binop(op, reg, r.expr), r.boxes)
        else Chopped(Binop(op, f.buf1, reg), boxes)
      case Ternary(_, _, trueExpr, falseExpr) =>
        if f.phase == 1 then
          var t := Chop(d, trueExpr, boxes);
          if t.Rejected? then t
          else
            var e := Chop(d, falseExpr, t.boxes);
            if e.Rejected? then e else Chopped(Ternop(reg, t.expr, e.expr), e.boxes)
        else if f.phase == 2 then
          var e := Chop(d, falseExpr, boxes);
          if e.Rejected? then e else Chopped(Ternop(f.buf1, reg, e.expr), e.boxes)
        else Chopped(Ternop(f.buf1, f.buf2, reg), boxes)
      case Unary(_, _, _) => FinishUnary(d, f.ast, reg, boxes)
      case Suffix(op, _) => Chopped(Postfix(reg, op), boxes)
      case Apply(_, args) =>
        var xs := ChopAll(d, args, boxes);
        if xs.RejectedArgs? then Rejected(xs.error) else Chopped(Call(reg, xs.exprs), xs.boxes)
      case _ => Chopped(reg, boxes)
  }

  ghost predicate InPhase(stack: seq<Frame>, bound: nat) {
    forall i :: 0 <= i < |stack| ==> Phased(stack[i]) && Work(stack[i].ast) <= bound
  }

  /** What a waiting frame makes of the outcome of its child. */
  function Handed(d: Dialect<Val>, f: Frame, v: Chopped): Chopped {
    if v.Rejected? then v else Deliver(d, f, v.expr, v.boxes)
  }

  /** What the whole stack will deliver: the top frame feeds the one below, and so on. */
  function Meaning(d: Dialect<Val>, stack: seq<Frame>, reg: Expr, boxes: seq<Val>): Chopped {
    if stack == [] then Chopped(reg, boxes)
    else
      var v := Deliver(d, stack[|stack| - 1], reg, boxes);
      if v.Rejected? then v else Meaning(d, stack[..|stack| - 1], v.expr, v.boxes)
  }

  lemma MeaningTop(d: Dialect<Val>, rest: seq<Frame>, f: Frame, reg: Expr, boxes: seq<Val>)
    ensures StackWork(rest + [f]) == StackWork(rest) + WorkLeft(f)
    ensures Meaning(d, rest + [f], reg, boxes) ==
      var v := Deliver(d, f, reg, boxes); if v.Rejected? then v else Meaning(d, rest, v.expr, v.boxes)
  {
    assert (rest + [f])[..|rest|] == rest;
  }

  /** A frame that moves to its next phase and pushes a child means what it meant before. */
  lemma MeaningPush(d: Dialect<Val>, rest: seq<Frame>, f: Frame, f': Frame, child: Ast, reg: Expr, boxes: seq<Val>)
    requires Deliver(d, f, reg, boxes) == Handed(d, f', Chop(d, child, boxes))
    requires WorkLeft(f') + Work(child) < WorkLeft(f)
    ensures var stack' := rest + [f', Frame(child, Void, Void, 0)];
      && StackWork(stack') < StackWork(rest + [f])
      && Meaning(d, stack', reg, boxes) == Meaning(d, rest + [f], reg, boxes)
  {
    var g := Frame(child, Void, Void, 0);
    assert rest + [f', g] == (rest + [f']) + [g];
    MeaningTop(d, rest, f, reg, boxes);
    MeaningTop(d, rest + [f'], g, reg, boxes);
    var v := Chop(d, child, boxes);
    if v.Chopped? {
      MeaningTop(d, rest, f', v.expr, v.boxes);
    }
    MeaningTop(d, rest, f', reg, boxes);
  }

  class Generator {
    const d: Dialect<Val>
    var boxes: seq<Val>

    constructor (d: Dialect<Val>)
      ensures this.d == d && boxes == []
    {
      this.d := d;
      boxes := [];
    }

    /** Translate an expression without recursion over its operands. */
    method ChopExpression(ast: Ast) returns (r: Chopped)
      modifies this`boxes
      ensures r == Chop(d, ast, old(boxes))
      ensures r.Chopped? ==> boxes == r.boxes
      decreases Work(ast), 2
    {
      var stack := [Frame(ast, Void, Void, 0)];
      var reg := Void;
      MeaningTop(d, [], stack[0], reg, boxes);
      assert [] + [stack[0]] == stack;
      while stack != []
        invariant Meaning(d, stack, reg, boxes) == Chop(d, ast, old(boxes)) && InPhase(stack, Work(ast))
        decreases StackWork(stack)
      {
        var failed: Maybe<ChopError>;
        stack, reg, failed := Turn(stack, reg, Work(ast));
        if failed.Just? {
          return Rejected(failed.value);
        }
      }
      return Chopped(reg, boxes);
    }

    /** One turn of the loop: look at the top frame; fail, push its next child, or complete it. */
    method Turn(stack: seq<Frame>, reg: Expr, ghost bound: nat) returns (stack': seq<Frame>, reg': Expr, failed: Maybe<ChopError>)
      requires stack != [] && InPhase(stack, bound)
      modifies this`boxes
      ensures failed.Just? ==> Meaning(d, stack, reg, old(boxes)) == Rejected(failed.value)
      ensures failed.Nothing? ==> Meaning(d, stack', reg', boxes) == Meaning(d, stack, reg, old(boxes))
      ensures failed.Nothing? ==> InPhase(stack', bound) && StackWork(stack') < StackWork(stack)
      decreases bound, 1
    {
      stack', reg', failed := stack, reg, Nothing;
      var rest, f := stack[..|stack| - 1], stack[|stack| - 1];
      assert stack == rest + [f];
      MeaningTop(d, rest, f, reg, boxes);
      if f.phase == 0 && Malformed(f.ast) {
        failed := Just(InvalidExpression(f.ast));
        return;
      }
      var next, child := Advance(f, reg);
      if next.Just? {
        MeaningPush(d, rest, f, next.value, child, reg, boxes);
        stack' := rest + [next.value, Frame(child, Void, Void, 0)];
      } else {
        var v := Complete(f, reg);
        if v.Rejected? {
          failed := Just(v.error);
        } else {
          stack', reg' := rest, v.expr;
        }
      }
    }

    /** Phases in which a frame keeps a result and asks for its next child. */
    method Advance(f: Frame, reg: Expr) returns (next: Maybe<Frame>, child: Ast)
      requires Phased(f) && (f.phase == 0 ==> !Malformed(f.ast))
      ensures next.Just? ==> Phased(next.value) && next.value.ast == f.ast && Work(child) < Work(f.ast)
      ensures next.Just? ==> WorkLeft(next.value) + Work(child) < WorkLeft(f)
      ensures next.Just? ==> Deliver(d, f, reg, boxes) == Handed(d, next.value, Chop(d, child, boxes))
      ensures next.Nothing? <==> f.phase == LastPhase(f.ast)
    {
      next, child := Nothing, Null;
      match f.ast
      case Binary(_, left, right) =>
        if f.phase == 0 {
          next, child := Just(f.(phase := 1)), left;
        } else if f.phase == 1 {
          next, child := Just(f.(buf1 := reg, phase := 2)), right;
        }
      case Ternary(_, condition, trueExpr, falseExpr) =>
        if f.phase == 0 {
          next, child := Just(f.(phase := 1)), condition;
        } else if f.phase == 1 {
          next, child := Just(f.(buf1 := reg, phase := 2)), trueExpr;
        } else if f.phase == 2 {
          next, child := Just(f.(buf2 := reg, phase := 3)), falseExpr;
        }
      case Unary(_, _, operand) =>
        if f.phase == 0 {
          next, child := Just(f.(phase := 1)), operand;
        }
      case Suffix(_, operand) =>
        if f.phase == 0 {
          next, child := Just(f.(phase := 1)), operand;
        }
      case Apply(func, _) =>
        if f.phase == 0 {
          next, child := Just(f.(phase := 1)), func;
        }
      case _ =>
    }

    /** Last phases: the frame's node is built from its buffers and the register. */
    method Complete(f: Frame, reg: Expr) returns (v: Chopped)
      requires Phased(f) && f.phase == LastPhase(f.ast) && !(f.phase == 0 && Malformed(f.ast))
      modifies this`boxes
      ensures v == Deliver(d, f, reg, old(boxes))
      ensures v.Chopped? ==> boxes == v.boxes
      decreases Work(f.ast), 0
    {
      match f.ast
      case Null => v := Chopped(Void, boxes);
      case Binary(op, _, _) => v := Chopped(Binop(op, f.buf1, reg), boxes);
      case Ternary(_, _, _, _) => v := Chopped(Ternop(f.buf1, f.buf2, reg), boxes);
      case Unary(_, _, _) => v := FinishUnary(d, f.ast, reg, boxes);
      case Suffix(op, _) => v := Chopped(Postfix(reg, op), boxes);
      case Ident(name) => v := Chopped(Sym(name), boxes);
      case Literal(kind, text) =>
        if kind.ChrLit? && text == "" {
          return Rejected(InvalidCharacter(f.ast));
        }
        if kind.UndefinedLit? {
          return Chopped(Primary(Nothing), boxes);
        }
        var box := Primary(Just(|boxes|));
        boxes := boxes + [d.literalValue(kind, text)];
        v := Chopped(box, boxes);
      case Array(items) =>
        var xs := FuncCallArgs(items);
        v := if xs.RejectedArgs? then Rejected(xs.error) else Chopped(Call(Sym("array"), xs.exprs), xs.boxes);
      case Apply(_, args) =>
        var xs := FuncCallArgs(args);
        v := if xs.RejectedArgs? then Rejected(xs.error) else Chopped(Call(reg, xs.exprs), xs.boxes);
    }

    /** Translate a statement by recursion. */
    method ChopStatement(t: Tree) returns (r: ChoppedStmt)
      requires Whole(t)
      modifies this`boxes
      ensures r == ChopTree(d, BlockOf, t, old(boxes))
      ensures r.ChoppedStmt? ==> boxes == r.boxes
      decreases t, 1
    {
      match t
      case EmptyTree => r := ChoppedStmt(Empty, boxes);
      case ContinueTree => r := ChoppedStmt(Continue, boxes);
      case BreakTree => r := ChoppedStmt(Break, boxes);
      case ExprTree(e) =>
        var x := ChopExpression(e);
        r := if x.Rejected? then RejectedStmt(x.error) else ChoppedStmt(Eval(x.expr), x.boxes);
      case ThrowTree(e) =>
        var x := ChopExpression(e);
        r := if x.Rejected? then RejectedStmt(x.error) else ChoppedStmt(Throw(x.expr), x.boxes);
      case ReturnTree(e) =>
        var x := ChopExpression(e);
        r := if x.Rejected? then RejectedStmt(x.error) else ChoppedStmt(Return(x.expr), x.boxes);
      case TryTree(_, _, _) => r := ChopTry(t);
      case IfTree(_, _, _) => r := ChopIf(t);
      case BlockTree(stats) => r := ChopCompoundStatement(stats);
      case WhileTree(cond, body) =>
        var x := ChopExpression(cond);
        if x.Rejected? {
          return RejectedStmt(x.error);
        }
        r := ChopStatement(body);
        if r.ChoppedStmt? {
          r := ChoppedStmt(While(x.expr, SkipFrame(r.stmt)), r.boxes);
        }
      case ForTree(init, cond, incr, body) =>
        ChopAllLength(d, [init, cond, incr], boxes);
        var xs := FuncCallArgs([init, cond, incr]);
        if xs.RejectedArgs? {
          return RejectedStmt(xs.error);
        }
        r := ChopStatement(body);
        if r.ChoppedStmt? {
          r := ChoppedStmt(For(xs.exprs[0], xs.exprs[1], xs.exprs[2], SkipFrame(r.stmt)), r.boxes);
        }
    }

    method ChopTry(t: Tree) returns (r: ChoppedStmt)
      requires Whole(t) && t.TryTree?
      modifies this`boxes
      ensures r == ChopTree(d, BlockOf, t, old(boxes))
      ensures r.ChoppedStmt? ==> boxes == r.boxes
      decreases t, 0
    {
      var a := ChopStatement(t.body);
      if a.RejectedStmt? {
        return a;
      }
      var x := ChopExpression(t.catchExpr);
      if x.Rejected? {
        return RejectedStmt(x.error);
      }
      r := ChopStatement(t.handler);
      if r.ChoppedStmt? {
        r := ChoppedStmt(TryCatch(SkipFrame(a.stmt), x.expr, SkipFrame(r.stmt)), r.boxes);
      }
    }

    method ChopIf(t: Tree) returns (r: ChoppedStmt)
      requires Whole(t) && t.IfTree?
      modifies this`boxes
      ensures r == ChopTree(d, BlockOf, t, old(boxes))
      ensures r.ChoppedStmt? ==> boxes == r.boxes
      decreases t, 0
    {
      var x := ChopExpression(t.cond);
      if x.Rejected? {
        return RejectedStmt(x.error);
      }
      var a := ChopStatement(t.yes);
      if a.RejectedStmt? {
        return a;
      }
      if t.no.NoTree? {
        return ChoppedStmt(IfElse(x.expr, SkipFrame(a.stmt), NoStmt), a.boxes);
      }
      r := ChopStatement(t.no);
      if r.ChoppedStmt? {
        r := ChoppedStmt(IfElse(x.expr, SkipFrame(a.stmt), SomeStmt(SkipFrame(r.stmt))), r.boxes);
      }
    }

    /** Translate a block and collapse it when it holds at most one statement. */
    method ChopCompoundStatement(stats: seq<Tree>) returns (r: ChoppedStmt)
      requires forall i :: 0 <= i < |stats| ==> Whole(stats[i])
      modifies this`boxes
      ensures r == var xs := ChopTrees(d, BlockOf, stats, old(boxes));
        if xs.RejectedStmts? then RejectedStmt(xs.error) else ChoppedStmt(BlockOf(xs.stmts), xs.boxes)
      ensures r.ChoppedStmt? ==> boxes == r.boxes
      decreases stats, 0
    {
      var got: seq<Stmt> := [];
      var i := 0;
      ghost var left := ChopTrees(d, BlockOf, stats, boxes);
      assert stats[0..] == stats;
      assert left.ChoppedStmts? ==> [] + left.stmts == left.stmts;
      while i < |stats|
        invariant 0 <= i <= |stats| && left == ChopTrees(d, BlockOf, stats[i..], boxes)
        invariant ChopTrees(d, BlockOf, stats, old(boxes)) ==
          if left.RejectedStmts? then left else ChoppedStmts(got + left.stmts, left.boxes)
      {
        assert stats[i..][0] == stats[i] && stats[i..][1..] == stats[i + 1..];
        var x := ChopStatement(stats[i]);
        if x.RejectedStmt? {
          return RejectedStmt(x.error);
        }
        left := ChopTrees(d, BlockOf, stats[i + 1..], boxes);
        assert left.ChoppedStmts? ==> got + ([x.stmt] + left.stmts) == (got + [x.stmt]) + left.stmts;
        got := got + [x.stmt];
        i := i + 1;
      }
      assert got + [] == got;
      return ChoppedStmt(BlockOf(got), boxes);
    }

    /** Translate actual arguments, left to right. */
    method FuncCallArgs(asts: seq<Ast>) returns (r: ChoppedArgs)
      modifies this`boxes
      ensures r == ChopAll(d, asts, old(boxes))
      ensures r.ChoppedArgs? ==> boxes == r.boxes
      decreases WorkAll(asts), 3
    {
      var got: seq<Expr> := [];
      var i := 0;
      ghost var left := ChopAll(d, asts, boxes);
      assert asts[0..] == asts;
      assert left.ChoppedArgs? ==> [] + left.exprs == left.exprs;
      while i < |asts|
        invariant 0 <= i <= |asts| && left == ChopAll(d, asts[i..], boxes)
        invariant ChopAll(d, asts, old(boxes)) == if left.RejectedArgs? then left else ChoppedArgs(got + left.exprs, left.boxes)
      {
        assert asts[i..][0] == asts[i] && asts[i..][1..] == asts[i + 1..];
        WorkElement(asts, i);
        var x := ChopExpression(asts[i]);
        if x.Rejected? {
          return RejectedArgs(x.error);
        }
        left := ChopAll(d, asts[i + 1..], boxes);
        assert left.ChoppedArgs? ==> got + ([x.expr] + left.exprs) == (got + [x.expr]) + left.exprs;
        got := got + [x.expr];
        i := i + 1;
      }
      assert got + [] == got;
      return ChoppedArgs(got, boxes);
    }
  }

  /** The phase in which a node is completed. */
  function LastPhase(a: Ast): nat {
    match a
    case Binary(_, _, _) => 2
    case Ternary(_, _, _, _) => 3
    case Unary(_, _, _) => 1
    case Suffix(_, _) => 1
    case Apply(_, _) => 1
    case _ => 0
  }

  lemma {:induction false} WorkElement(asts: seq<Ast>, i: nat)
    requires i < |asts|
    ensures Work(asts[i]) < WorkAll(asts)
    decreases i
  {
    if i > 0 {
      WorkElement(asts[1..], i - 1);
    }
  }
}
