/** The generator loses nothing: what it builds determines what was written. */
module CodegenInverse {
  import opened Syntax
  import opened Ast
  import opened Semantics
  import opened Codegen
  import opened CodegenLaws
  import opened Wrappers

  /** What an expression says: literals by value, an array as a call of `array`. */
  datatype Said =
    | Blank
    | Const(v: Val)
    | NoValue
    | Named(name: string)
    | Before(op: Kind, x: Said)
    | To(typeName: string, x: Said)
    | After(x: Said, op: Kind)
    | Between(left: Said, op: Kind, right: Said)
    | Choice(cond: Said, onTrue: Said, onFalse: Said)
    | Called(func: Said, args: seq<Said>)

  /** As written. */
  function Written(d: Dialect<Val>, a: Ast): Said
    decreases a
  {
    match a
    case Null => Blank
    case Binary(op, l, r) => Between(Written(d, l), op, Written(d, r))
    case Ternary(_, c, t, f) => Choice(Written(d, c), Written(d, t), Written(d, f))
    case Unary(op, ty, x) => if op.TYPECAST? then To(ty, Written(d, x)) else Before(op, Written(d, x))
    case Suffix(op, x) => After(Written(d, x), op)
    case Ident(name) => Named(name)
    case Literal(kind, text) => if kind.UndefinedLit? then NoValue else Const(d.literalValue(kind, text))
    case Array(items) => Called(Named("array"), AllWritten(d, items))
    case Apply(f, args) => Called(Written(d, f), AllWritten(d, args))
  }

  function AllWritten(d: Dialect<Val>, asts: seq<Ast>): seq<Said>
    decreases asts
  {
    if asts == [] then [] else [Written(d, asts[0])] + AllWritten(d, asts[1..])
  }

  /** As read off the node and the boxes its literals own. */
  function ReadOff(e: Expr, boxes: seq<Val>): Said
    decreases e
  {
    match e
    case Void => Blank
    case Primary(box) => if box.Nothing? then NoValue else Const(ValueOf(box, boxes))
    case Sym(name) => Named(name)
    case Prefix(op, x) => Before(op, ReadOff(x, boxes))
    case Cast(ty, x) => To(ty, ReadOff(x, boxes))
    case Postfix(x, op) => After(ReadOff(x, boxes), op)
    case Binop(op, l, r) => Between(ReadOff(l, boxes), op, ReadOff(r, boxes))
    case Ternop(c, t, f) => Choice(ReadOff(c, boxes), ReadOff(t, boxes), ReadOff(f, boxes))
    case Call(f, args) => Called(ReadOff(f, boxes), AllReadOff(args, boxes))
  }

  function AllReadOff(es: seq<Expr>, boxes: seq<Val>): seq<Said>
    decreases es
  {
    if es == [] then [] else [ReadOff(es[0], boxes)] + AllReadOff(es[1..], boxes)
  }

  lemma Gains(d: Dialect<Val>, a: Ast, boxes: seq<Val>)
    ensures var r := Chop(d, a, boxes); r.Chopped? ==> boxes <= r.boxes
  {
    ChopOwns(d, a, boxes);
  }

  lemma GainsAll(d: Dialect<Val>, asts: seq<Ast>, boxes: seq<Val>)
    ensures var r := ChopAll(d, asts, boxes); r.ChoppedArgs? ==> boxes <= r.boxes
  {
    ChopOwnsAll(d, asts, boxes);
  }

  /** Operators, names, operand order and literal values can be read off the node, in these boxes
      and in all that extend them. */
  lemma {:induction false} NodeSaysTheText(d: Dialect<Val>, a: Ast, boxes: seq<Val>, more: seq<Val>)
    requires var r := Chop(d, a, boxes); r.Chopped? && r.boxes <= more
    ensures ReadOff(Chop(d, a, boxes).expr, more) == Written(d, a)
    decreases a, 1
  {
    match a
    case Binary(_, _, _) => BinarySaysTheText(d, a, boxes, more);
    case Ternary(_, _, _, _) => TernarySaysTheText(d, a, boxes, more);
    case Unary(_, _, x) => NodeSaysTheText(d, x, boxes, more);
    case Suffix(_, x) => NodeSaysTheText(d, x, boxes, more);
    case Array(items) => NodesSayTheText(d, items, boxes, more);
    case Apply(_, _) => ApplySaysTheText(d, a, boxes, more);
    case _ =>
  }

  lemma {:induction false} BinarySaysTheText(d: Dialect<Val>, a: Ast, boxes: seq<Val>, more: seq<Val>)
    requires var r := Chop(d, a, boxes); a.Binary? && r.Chopped? && r.boxes <= more
    ensures ReadOff(Chop(d, a, boxes).expr, more) == Written(d, a)
    decreases a, 0
  {
    var l := Chop(d, a.left, boxes);
    Gains(d, a.right, l.boxes);
    NodeSaysTheText(d, a.left, boxes, more);
    NodeSaysTheText(d, a.right, l.boxes, more);
  }

  lemma {:induction false} TernarySaysTheText(d: Dialect<Val>, a: Ast, boxes: seq<Val>, more: seq<Val>)
    requires var r := Chop(d, a, boxes); a.Ternary? && r.Chopped? && r.boxes <= more
    ensures ReadOff(Chop(d, a, boxes).expr, more) == Written(d, a)
    decreases a, 0
  {
    var c := Chop(d, a.condition, boxes);
    var t := Chop(d, a.trueExpr, c.boxes);
    Gains(d, a.trueExpr, c.boxes);
    Gains(d, a.falseExpr, t.boxes);
    NodeSaysTheText(d, a.condition, boxes, more);
    NodeSaysTheText(d, a.trueExpr, c.boxes, more);
    NodeSaysTheText(d, a.falseExpr, t.boxes, more);
  }

  lemma {:induction false} ApplySaysTheText(d: Dialect<Val>, a: Ast, boxes: seq<Val>, more: seq<Val>)
    requires var r := Chop(d, a, boxes); a.Apply? && r.Chopped? && r.boxes <= more
    ensures ReadOff(Chop(d, a, boxes).expr, more) == Written(d, a)
    decreases a, 0
  {
    var f := Chop(d, a.func, boxes);
    GainsAll(d, a.args, f.boxes);
    NodeSaysTheText(d, a.func, boxes, more);
    NodesSayTheText(d, a.args, f.boxes, more);
  }

  lemma {:induction false} NodesSayTheText(d: Dialect<Val>, asts: seq<Ast>, boxes: seq<Val>, more: seq<Val>)
    requires var r := ChopAll(d, asts, boxes); r.ChoppedArgs? && r.boxes <= more
    ensures AllReadOff(ChopAll(d, asts, boxes).exprs, more) == AllWritten(d, asts)
    decreases asts, 0
  {
    if asts != [] {
      var x := Chop(d, asts[0], boxes);
      GainsAll(d, asts[1..], x.boxes);
      NodeSaysTheText(d, asts[0], boxes, more);
      NodesSayTheText(d, asts[1..], x.boxes, more);
      var xs := ChopAll(d, asts[1..], x.boxes);
      assert ([x.expr] + xs.exprs)[1..] == xs.exprs;
    }
  }

  /** So two texts that become the same nodes over the same boxes say the same. */
  lemma SameNodesSameText(d: Dialect<Val>, a: Ast, b: Ast, boxes: seq<Val>)
    requires Chop(d, a, boxes).Chopped? && Chop(d, a, boxes) == Chop(d, b, boxes)
    ensures Written(d, a) == Written(d, b)
  {
    NodeSaysTheText(d, a, boxes, Chop(d, a, boxes).boxes);
    NodeSaysTheText(d, b, boxes, Chop(d, b, boxes).boxes);
  }

  // ------------------------------------------------------------------ rejections

  predicate Within(x: Ast, a: Ast)
    decreases a
  {
    x == a ||
    match a
    case Binary(_, l, r) => Within(x, l) || Within(x, r)
    case Ternary(_, c, t, f) => Within(x, c) || Within(x, t) || Within(x, f)
    case Unary(_, _, y) => Within(x, y)
    case Suffix(_, y) => Within(x, y)
    case Array(items) => WithinAny(x, items)
    case Apply(f, args) => Within(x, f) || WithinAny(x, args)
    case _ => false
  }

  predicate WithinAny(x: Ast, asts: seq<Ast>)
    decreases asts
  {
    asts != [] && (Within(x, asts[0]) || WithinAny(x, asts[1..]))
  }

  /** The kind of error fits the tree it points to. */
  predicate AtFault(d: Dialect<Val>, error: ChopError) {
    match error
    case InvalidExpression(x) => Malformed(x)
    case InvalidCast(x) => x.Unary? && x.op.TYPECAST? && x.typeName in d.forbiddenCasts
    case InvalidCharacter(x) => x.Literal? && x.kind.ChrLit? && x.text == ""
  }

  /** A rejection points at a part of the expression that is at fault. */
  lemma {:induction false} RejectsAtFault(d: Dialect<Val>, a: Ast, boxes: seq<Val>)
    requires Chop(d, a, boxes).Rejected?
    ensures var error := Chop(d, a, boxes).error; AtFault(d, error) && Within(error.at, a)
    decreases a, 1
  {
    if !Malformed(a) {
      match a
      case Binary(_, l, r) =>
        var x := Chop(d, l, boxes);
        if x.Rejected? {
          RejectsAtFault(d, l, boxes);
        } else {
          RejectsAtFault(d, r, x.boxes);
        }
      case Ternary(_, _, _, _) => TernaryAtFault(d, a, boxes);
      case Unary(_, _, x) =>
        if Chop(d, x, boxes).Rejected? {
          RejectsAtFault(d, x, boxes);
        }
      case Suffix(_, x) => RejectsAtFault(d, x, boxes);
      case Array(items) => RejectsAtFaultAll(d, items, boxes);
      case Apply(f, args) =>
        var x := Chop(d, f, boxes);
        if x.Rejected? {
          RejectsAtFault(d, f, boxes);
        } else {
          RejectsAtFaultAll(d, args, x.boxes);
        }
      case _ =>
    }
  }

  lemma {:induction false} TernaryAtFault(d: Dialect<Val>, a: Ast, boxes: seq<Val>)
    requires a.Ternary? && !Malformed(a) && Chop(d, a, boxes).Rejected?
    ensures var error := Chop(d, a, boxes).error; AtFault(d, error) && Within(error.at, a)
    decreases a, 0
  {
    var c := Chop(d, a.condition, boxes);
    if c.Rejected? {
      RejectsAtFault(d, a.condition, boxes);
    } else {
      var t := Chop(d, a.trueExpr, c.boxes);
      if t.Rejected? {
        RejectsAtFault(d, a.trueExpr, c.boxes);
      } else {
        RejectsAtFault(d, a.falseExpr, t.boxes);
      }
    }
  }

  lemma {:induction false} RejectsAtFaultAll(d: Dialect<Val>, asts: seq<Ast>, boxes: seq<Val>)
    requires ChopAll(d, asts, boxes).RejectedArgs?
    ensures var error := ChopAll(d, asts, boxes).error; AtFault(d, error) && WithinAny(error.at, asts)
    decreases asts, 0
  {
    var x := Chop(d, asts[0], boxes);
    if x.Rejected? {
      RejectsAtFault(d, asts[0], boxes);
    } else {
      RejectsAtFaultAll(d, asts[1..], x.boxes);
    }
  }

  // ------------------------------------------------------------------ statements

  /** What a statement says; `own` tells a block that pushes a frame from one that runs in the frame
      of the statement around it. */
  datatype Told =
    | Absent
    | Idle
    | Do(e: Said)
    | Toss(e: Said)
    | Attempt(body: Told, caught: Said, handler: Told)
    | Either(cond: Said, yes: Told, no: Told)
    | Block(stats: seq<Told>, own: bool)
    | Loop(cond: Said, body: Told)
    | Count(init: Said, cond: Said, incr: Said, body: Told)
    | Next
    | Leave
    | Answer(e: Said)

  /** As written; the bodies of other statements bring no frame. If `squeeze`, a block of none or
      one statement is not a block. */
  function TreeWritten(d: Dialect<Val>, squeeze: bool, t: Tree, own: bool): Told
    decreases t
  {
    match t
    case NoTree => Absent
    case EmptyTree => Idle
    case ExprTree(e) => Do(Written(d, e))
    case ThrowTree(e) => Toss(Written(d, e))
    case ReturnTree(e) => Answer(Written(d, e))
    case TryTree(a, e, b) => Attempt(TreeWritten(d, squeeze, a, false), Written(d, e), TreeWritten(d, squeeze, b, false))
    case IfTree(c, a, b) => Either(Written(d, c), TreeWritten(d, squeeze, a, false), TreeWritten(d, squeeze, b, false))
    case BlockTree(stats) =>
      if squeeze && |stats| == 0 then Idle
      else if squeeze && |stats| == 1 then TreeWritten(d, squeeze, stats[0], own)
      else Block(TreesWritten(d, squeeze, stats), own)
    case WhileTree(c, body) => Loop(Written(d, c), TreeWritten(d, squeeze, body, false))
    case ForTree(i, c, n, body) => Count(Written(d, i), Written(d, c), Written(d, n), TreeWritten(d, squeeze, body, false))
    case ContinueTree => Next
    case BreakTree => Leave
  }

  function TreesWritten(d: Dialect<Val>, squeeze: bool, ts: seq<Tree>): seq<Told>
    decreases ts
  {
    if ts == [] then [] else [TreeWritten(d, squeeze, ts[0], true)] + TreesWritten(d, squeeze, ts[1..])
  }

  function StmtReadOff(s: Stmt, boxes: seq<Val>): Told
    decreases s
  {
    match s
    case Empty => Idle
    case Eval(e) => Do(ReadOff(e, boxes))
    case Throw(e) => Toss(ReadOff(e, boxes))
    case Return(e) => Answer(ReadOff(e, boxes))
    case TryCatch(a, e, b) => Attempt(StmtReadOff(a, boxes), ReadOff(e, boxes), StmtReadOff(b, boxes))
    case IfElse(c, a, b) => Either(ReadOff(c, boxes), StmtReadOff(a, boxes), if b.SomeStmt? then StmtReadOff(b.stmt, boxes) else Absent)
    case Compound(stats, own) => Block(StmtsReadOff(stats, boxes), own)
    case While(c, body) => Loop(ReadOff(c, boxes), StmtReadOff(body, boxes))
    case For(i, c, n, body) => Count(ReadOff(i, boxes), ReadOff(c, boxes), ReadOff(n, boxes), StmtReadOff(body, boxes))
    case Continue => Next
    case Break => Leave
  }

  function StmtsReadOff(stats: seq<Stmt>, boxes: seq<Val>): seq<Told>
    decreases stats
  {
    if stats == [] then [] else [StmtReadOff(stats[0], boxes)] + StmtsReadOff(stats[1..], boxes)
  }

  function Blocks(squeeze: bool): seq<Stmt> -> Stmt {
    if squeeze then BlockOf else AsWritten
  }

  /** Every expression in the statement is translatable. */
  predicate TreeTranslatable(d: Dialect<Val>, t: Tree)
    decreases t
  {
    match t
    case ExprTree(e) => Translatable(d, e)
    case ThrowTree(e) => Translatable(d, e)
    case ReturnTree(e) => Translatable(d, e)
    case TryTree(a, e, b) => TreeTranslatable(d, a) && Translatable(d, e) && TreeTranslatable(d, b)
    case IfTree(c, a, b) => Translatable(d, c) && TreeTranslatable(d, a) && TreeTranslatable(d, b)
    case BlockTree(stats) => TreesTranslatable(d, stats)
    case WhileTree(c, body) => Translatable(d, c) && TreeTranslatable(d, body)
    case ForTree(i, c, n, body) => Translatable(d, i) && Translatable(d, c) && Translatable(d, n) && TreeTranslatable(d, body)
    case _ => true
  }

  predicate TreesTranslatable(d: Dialect<Val>, ts: seq<Tree>)
    decreases ts
  {
    ts == [] || (TreeTranslatable(d, ts[0]) && TreesTranslatable(d, ts[1..]))
  }

  /** Accepted exactly when translatable; boxes are only added. */
  ghost predicate Accepts(d: Dialect<Val>, r: ChoppedStmt, t: Tree, boxes: seq<Val>) {
    && (r.ChoppedStmt? <==> TreeTranslatable(d, t))
    && (r.ChoppedStmt? ==> boxes <= r.boxes)
  }

  lemma {:induction false} TreeAccepted(d: Dialect<Val>, squeeze: bool, t: Tree, boxes: seq<Val>)
    requires Whole(t)
    ensures Accepts(d, ChopTree(d, Blocks(squeeze), t, boxes), t, boxes)
    decreases t, 1
  {
    match t
    case ExprTree(e) => ChopOwns(d, e, boxes);
    case ThrowTree(e) => ChopOwns(d, e, boxes);
    case ReturnTree(e) => ChopOwns(d, e, boxes);
    case TryTree(_, _, _) => TryAccepted(d, squeeze, t, boxes);
    case IfTree(_, _, _) => IfAccepted(d, squeeze, t, boxes);
    case BlockTree(stats) => TreesAccepted(d, squeeze, stats, boxes);
    case WhileTree(c, body) =>
      ChopOwns(d, c, boxes);
      var x := Chop(d, c, boxes);
      if x.Chopped? {
        TreeAccepted(d, squeeze, body, x.boxes);
      }
    case ForTree(_, _, _, _) => ForAccepted(d, squeeze, t, boxes);
    case _ =>
  }

  lemma {:induction false} TryAccepted(d: Dialect<Val>, squeeze: bool, t: Tree, boxes: seq<Val>)
    requires Whole(t) && t.TryTree?
    ensures Accepts(d, ChopTree(d, Blocks(squeeze), t, boxes), t, boxes)
    decreases t, 0
  {
    TreeAccepted(d, squeeze, t.body, boxes);
    var a := ChopTree(d, Blocks(squeeze), t.body, boxes);
    if a.ChoppedStmt? {
      ChopOwns(d, t.catchExpr, a.boxes);
      var x := Chop(d, t.catchExpr, a.boxes);
      if x.Chopped? {
        TreeAccepted(d, squeeze, t.handler, x.boxes);
      }
    }
  }

  lemma {:induction false} IfAccepted(d: Dialect<Val>, squeeze: bool, t: Tree, boxes: seq<Val>)
    requires Whole(t) && t.IfTree?
    ensures Accepts(d, ChopTree(d, Blocks(squeeze), t, boxes), t, boxes)
    decreases t, 0
  {
    ChopOwns(d, t.cond, boxes);
    var x := Chop(d, t.cond, boxes);
    if x.Chopped? {
      TreeAccepted(d, squeeze, t.yes, x.boxes);
      var a := ChopTree(d, Blocks(squeeze), t.yes, x.boxes);
      if a.ChoppedStmt? && !t.no.NoTree? {
        TreeAccepted(d, squeeze, t.no, a.boxes);
      }
    }
  }

  lemma {:induction false} ForAccepted(d: Dialect<Val>, squeeze: bool, t: Tree, boxes: seq<Val>)
    requires Whole(t) && t.ForTree?
    ensures Accepts(d, ChopTree(d, Blocks(squeeze), t, boxes), t, boxes)
    decreases t, 0
  {
    var heads := [t.init, t.cond, t.incr];
    ChopOwnsAll(d, heads, boxes);
    assert heads[0] == t.init && heads[1] == t.cond && heads[2] == t.incr;
    var xs := ChopAll(d, heads, boxes);
    if xs.ChoppedArgs? {
      TreeAccepted(d, squeeze, t.body, xs.boxes);
    }
  }

  lemma {:induction false} TreesAccepted(d: Dialect<Val>, squeeze: bool, ts: seq<Tree>, boxes: seq<Val>)
    requires forall i :: 0 <= i < |ts| ==> Whole(ts[i])
    ensures var r := ChopTrees(d, Blocks(squeeze), ts, boxes);
      (r.ChoppedStmts? <==> TreesTranslatable(d, ts)) && (r.ChoppedStmts? ==> boxes <= r.boxes)
    decreases ts, 0
  {
    if ts != [] {
      TreeAccepted(d, squeeze, ts[0], boxes);
      var x := ChopTree(d, Blocks(squeeze), ts[0], boxes);
      if x.ChoppedStmt? {
        TreesAccepted(d, squeeze, ts[1..], x.boxes);
      }
    }
  }

  /** Read off as written, standing free or as the body of another statement. */
  ghost predicate Says(d: Dialect<Val>, squeeze: bool, t: Tree, boxes: seq<Val>, more: seq<Val>)
    requires Whole(t)
  {
    var r := ChopTree(d, Blocks(squeeze), t, boxes);
    r.ChoppedStmt? && r.boxes <= more ==>
      && StmtReadOff(r.stmt, more) == TreeWritten(d, squeeze, t, true)
      && StmtReadOff(SkipFrame(r.stmt), more) == TreeWritten(d, squeeze, t, false)
  }

  lemma {:induction false} StatementSaysTheText(d: Dialect<Val>, squeeze: bool, t: Tree, boxes: seq<Val>, more: seq<Val>)
    requires Whole(t)
    ensures Says(d, squeeze, t, boxes, more)
    decreases t, 1
  {
    var r := ChopTree(d, Blocks(squeeze), t, boxes);
    if r.ChoppedStmt? && r.boxes <= more {
      match t
      case ExprTree(e) => NodeSaysTheText(d, e, boxes, more);
      case ThrowTree(e) => NodeSaysTheText(d, e, boxes, more);
      case ReturnTree(e) => NodeSaysTheText(d, e, boxes, more);
      case TryTree(_, _, _) => TrySaysTheText(d, squeeze, t, boxes, more);
      case IfTree(_, _, _) => IfSaysTheText(d, squeeze, t, boxes, more);
      case BlockTree(_) => BlockSaysTheText(d, squeeze, t, boxes, more);
      case WhileTree(_, _) => WhileSaysTheText(d, squeeze, t, boxes, more);
      case ForTree(_, _, _, _) => ForSaysTheText(d, squeeze, t, boxes, more);
      case _ =>
    }
  }

  lemma {:induction false} TrySaysTheText(d: Dialect<Val>, squeeze: bool, t: Tree, boxes: seq<Val>, more: seq<Val>)
    requires Whole(t) && t.TryTree?
    requires var r := ChopTree(d, Blocks(squeeze), t, boxes); r.ChoppedStmt? && r.boxes <= more
    ensures Says(d, squeeze, t, boxes, more)
    decreases t, 0
  {
    var a := ChopTree(d, Blocks(squeeze), t.body, boxes);
    var x := Chop(d, t.catchExpr, a.boxes);
    Gains(d, t.catchExpr, a.boxes);
    TreeAccepted(d, squeeze, t.handler, x.boxes);
    StatementSaysTheText(d, squeeze, t.body, boxes, more);
    NodeSaysTheText(d, t.catchExpr, a.boxes, more);
    StatementSaysTheText(d, squeeze, t.handler, x.boxes, more);
  }

  lemma {:induction false} IfSaysTheText(d: Dialect<Val>, squeeze: bool, t: Tree, boxes: seq<Val>, more: seq<Val>)
    requires Whole(t) && t.IfTree?
    requires var r := ChopTree(d, Blocks(squeeze), t, boxes); r.ChoppedStmt? && r.boxes <= more
    ensures Says(d, squeeze, t, boxes, more)
    decreases t, 0
  {
    var x := Chop(d, t.cond, boxes);
    var a := ChopTree(d, Blocks(squeeze), t.yes, x.boxes);
    TreeAccepted(d, squeeze, t.yes, x.boxes);
    if !t.no.NoTree? {
      TreeAccepted(d, squeeze, t.no, a.boxes);
      StatementSaysTheText(d, squeeze, t.no, a.boxes, more);
    }
    NodeSaysTheText(d, t.cond, boxes, more);
    StatementSaysTheText(d, squeeze, t.yes, x.boxes, more);
  }

  lemma {:induction false} WhileSaysTheText(d: Dialect<Val>, squeeze: bool, t: Tree, boxes: seq<Val>, more: seq<Val>)
    requires Whole(t) && t.WhileTree?
    requires var r := ChopTree(d, Blocks(squeeze), t, boxes); r.ChoppedStmt? && r.boxes <= more
    ensures Says(d, squeeze, t, boxes, more)
    decreases t, 0
  {
    var x := Chop(d, t.cond, boxes);
    TreeAccepted(d, squeeze, t.body, x.boxes);
    NodeSaysTheText(d, t.cond, boxes, more);
    StatementSaysTheText(d, squeeze, t.body, x.boxes, more);
  }

  lemma {:induction false} ForSaysTheText(d: Dialect<Val>, squeeze: bool, t: Tree, boxes: seq<Val>, more: seq<Val>)
    requires Whole(t) && t.ForTree?
    requires var r := ChopTree(d, Blocks(squeeze), t, boxes); r.ChoppedStmt? && r.boxes <= more
    ensures Says(d, squeeze, t, boxes, more)
    decreases t, 0
  {
    var heads := [t.init, t.cond, t.incr];
    var xs := ChopAll(d, heads, boxes);
    ChopAllLength(d, heads, boxes);
    TreeAccepted(d, squeeze, t.body, xs.boxes);
    NodesSayTheText(d, heads, boxes, more);
    ThreeWritten(d, t.init, t.cond, t.incr);
    ThreeReadOff(xs.exprs[0], xs.exprs[1], xs.exprs[2], more);
    assert xs.exprs == [xs.exprs[0], xs.exprs[1], xs.exprs[2]];
    StatementSaysTheText(d, squeeze, t.body, xs.boxes, more);
  }

  lemma ThreeWritten(d: Dialect<Val>, a: Ast, b: Ast, c: Ast)
    ensures AllWritten(d, [a, b, c]) == [Written(d, a), Written(d, b), Written(d, c)]
  {
    assert [a, b, c][1..] == [b, c] && [b, c][1..] == [c] && [c][1..] == [];
    assert AllWritten(d, [c]) == [Written(d, c)] + AllWritten(d, [c][1..]);
    assert AllWritten(d, [b, c]) == [Written(d, b)] + AllWritten(d, [b, c][1..]);
  }

  lemma ThreeReadOff(a: Expr, b: Expr, c: Expr, boxes: seq<Val>)
    ensures AllReadOff([a, b, c], boxes) == [ReadOff(a, boxes), ReadOff(b, boxes), ReadOff(c, boxes)]
  {
    assert [a, b, c][1..] == [b, c] && [b, c][1..] == [c] && [c][1..] == [];
    assert AllReadOff([c], boxes) == [ReadOff(c, boxes)] + AllReadOff([c][1..], boxes);
    assert AllReadOff([b, c], boxes) == [ReadOff(b, boxes)] + AllReadOff([b, c][1..], boxes);
  }

  lemma {:induction false} BlockSaysTheText(d: Dialect<Val>, squeeze: bool, t: Tree, boxes: seq<Val>, more: seq<Val>)
    requires Whole(t) && t.BlockTree?
    requires var r := ChopTree(d, Blocks(squeeze), t, boxes); r.ChoppedStmt? && r.boxes <= more
    ensures Says(d, squeeze, t, boxes, more)
    decreases t, 0
  {
    StatementsSayTheText(d, squeeze, t.stats, boxes, more);
    if squeeze && |t.stats| == 1 {
      StatementSaysTheText(d, squeeze, t.stats[0], boxes, more);
      assert t.stats[1..] == [];
    }
  }

  lemma {:induction false} StatementsSayTheText(d: Dialect<Val>, squeeze: bool, ts: seq<Tree>, boxes: seq<Val>, more: seq<Val>)
    requires forall i :: 0 <= i < |ts| ==> Whole(ts[i])
    requires var r := ChopTrees(d, Blocks(squeeze), ts, boxes); r.ChoppedStmts? && r.boxes <= more
    ensures var r := ChopTrees(d, Blocks(squeeze), ts, boxes);
      |r.stmts| == |ts| && StmtsReadOff(r.stmts, more) == TreesWritten(d, squeeze, ts)
    decreases ts, 0
  {
    if ts != [] {
      var x := ChopTree(d, Blocks(squeeze), ts[0], boxes);
      TreesAccepted(d, squeeze, ts[1..], x.boxes);
      StatementSaysTheText(d, squeeze, ts[0], boxes, more);
      StatementsSayTheText(d, squeeze, ts[1..], x.boxes, more);
      var xs := ChopTrees(d, Blocks(squeeze), ts[1..], x.boxes);
      assert ([x.stmt] + xs.stmts)[1..] == xs.stmts;
    }
  }
}
