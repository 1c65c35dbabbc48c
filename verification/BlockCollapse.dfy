/** The code generator replaces a block of one statement by that statement and an empty block by
    the empty statement. Here: when that keeps the meaning of a program, and when it does not. */
module BlockCollapse {
  import opened Syntax
  import opened Semantics
  import opened FrameMerging
  import opened Wrappers

  /** The tree the generator builds, given the tree with every block kept as written. */
  function Collapse(s: Stmt): Stmt
    decreases s, 0
  {
    match s
    case TryCatch(body, e, handler) => TryCatch(SkipFrame(Collapse(body)), e, SkipFrame(Collapse(handler)))
    case IfElse(c, yes, no) =>
      IfElse(c, SkipFrame(Collapse(yes)), if no.SomeStmt? then SomeStmt(SkipFrame(Collapse(no.stmt))) else NoStmt)
    case Compound(stats, _) => BlockOf(CollapseAll(stats))
    case While(c, body) => While(c, SkipFrame(Collapse(body)))
    case For(i, c, n, body) => For(i, c, n, SkipFrame(Collapse(body)))
    case _ => s
  }

  function CollapseAll(stats: seq<Stmt>): (r: seq<Stmt>)
    ensures |r| == |stats|
    decreases stats, 0
  {
    if stats == [] then [] else [Collapse(stats[0])] + CollapseAll(stats[1..])
  }

  function CollapseWorld(w: World): World {
    w.(userFuns := map f | f in w.userFuns :: w.userFuns[f].(body := Collapse(w.userFuns[f].body)))
  }

  /** Evaluating the expression may create a name: one that is assigned to, incremented or decremented. */
  predicate MayBind(e: Expr, create: bool)
    decreases e, 1
  {
    match e
    case Sym(_) => create
    case Prefix(op, operand) => MayBind(operand, IsIncDec(op))
    case Cast(_, operand) => MayBind(operand, false)
    case Postfix(operand, _) => MayBind(operand, true)
    case Binop(_, _, _) => MayBindBinop(e, create)
    case Ternop(cond, onTrue, onFalse) => MayBind(cond, create) || MayBind(onTrue, create) || MayBind(onFalse, create)
    case Call(func, args) => (!func.Sym? && MayBind(func, false)) || AnyMayBind(args)
    case _ => false
  }

  predicate MayBindBinop(e: Expr, create: bool)
    requires e.Binop?
    decreases e, 0
  {
    if e.op.ASSIGN? || IsCompoundAssign(e.op) then MayBind(e.left, true) || MayBind(e.right, create)
    else if IsThisMember(e) then false
    else if e.op.DOT? || e.op.LBRACKET? then MayBind(e.left, create) || MayBind(e.right, create)
    else MayBind(e.left, false) || MayBind(e.right, false)
  }

  predicate AnyMayBind(args: seq<Expr>)
    decreases args, 0
  {
    args != [] && (MayBind(args[0], false) || AnyMayBind(args[1..]))
  }

  /** Statements that create no name in the frame they run in. */
  predicate Framed(s: Stmt) {
    match s
    case Eval(e) => !MayBind(e, false)
    case Throw(e) => !MayBind(e, false)
    case Return(e) => !MayBind(e, false)
    case Compound(_, own) => own
    case _ => true
  }

  predicate AllFramed(stats: seq<Stmt>) {
    stats == [] || (Framed(stats[0]) && AllFramed(stats[1..]))
  }

  /** Blocks the generator collapses without changing the meaning. Where a free-standing block of
      one statement loses its frame, and where the body of a loop or of a try is a block within a
      block, no name must be created in that frame. Branches, handlers and function bodies are not
      restricted. */
  predicate Harmless(s: Stmt)
    decreases s, 1
  {
    match s
    case Compound(stats, own) => own && AllHarmless(stats) && (|stats| == 1 ==> Framed(Collapse(stats[0])))
    case _ => HarmlessInside(s)
  }

  predicate AllHarmless(stats: seq<Stmt>)
    decreases stats, 0
  {
    stats == [] || (Harmless(stats[0]) && AllHarmless(stats[1..]))
  }

  predicate HarmlessInside(s: Stmt)
    decreases s, 0
  {
    match s
    case TryCatch(body, _, handler) => HarmlessBody(body) && HarmlessBranch(handler)
    case IfElse(_, yes, no) => HarmlessBranch(yes) && (no.SomeStmt? ==> HarmlessBranch(no.stmt))
    case While(_, body) => HarmlessBody(body)
    case For(_, _, _, body) => HarmlessBody(body)
    case _ => true
  }

  /** A branch: its parent has told it to run in the parent's frame. */
  predicate HarmlessBranch(s: Stmt)
    decreases s, 1
  {
    match s
    case Compound(stats, own) => !own && AllHarmless(stats)
    case _ => HarmlessInside(s)
  }

  predicate Unnested(s: Stmt) {
    s.Compound? && s.own ==> AllFramed(s.stats)
  }

  predicate HarmlessBody(s: Stmt)
    decreases s, 2
  {
    HarmlessBranch(s) && (s.Compound? && |s.stats| == 1 ==> Unnested(Collapse(s.stats[0])))
  }

  /** A function body keeps its own frame. */
  predicate HarmlessFunction(s: Stmt) {
    match s
    case Compound(stats, own) => own && AllHarmless(stats)
    case _ => HarmlessInside(s)
  }

  ghost predicate HarmlessWorld(w: World) {
    forall f :: f in w.userFuns ==> HarmlessFunction(w.userFuns[f].body)
  }

  // ------------------------------------------------------------------ frames below the top

  /** Popping an empty frame that was never used. */
  lemma PopPush(m: Mem)
    ensures Pop(Push(m, map[])) == m
  {
  }

  /** With a fresh frame merged away nothing has been pushed. */
  lemma MergePushed(m: Mem)
    requires |m.frames| > 0
    ensures Merge(Push(m, map[]), |m.frames| - 1) == m
  {
    var k := |m.frames| - 1;
    assert m.frames[k] + map[] == m.frames[k];
    assert Merged(m.frames + [map[]], k) == m.frames;
  }

  /** Running `s` in a fresh frame that is popped afterwards, against running it in the frame
      below: same outcome, same memory except for names created in that frame. */
  lemma FreshFrame(w: World, f: nat, s: Stmt, m: Mem)
    requires |m.frames| > 0
    ensures var a, b := ExecStmt(w, f, s, Push(m, map[])), ExecStmt(w, f, s, m);
      a.0 == b.0 && Pop(Pop(a.1)) == Pop(b.1) && a.1.boxes == b.1.boxes && a.1.fields == b.1.fields
  {
    MergePushed(m);
    MergedStmt(w, f, s, Push(m, map[]), |m.frames| - 1);
    PopMerged(ExecStmt(w, f, s, Push(m, map[])).1, |m.frames| - 1);
  }

  lemma FreshFrameSeq(w: World, f: nat, stats: seq<Stmt>, m: Mem)
    requires |m.frames| > 0
    ensures var a, b := ExecSeq(w, f, stats, Push(m, map[])), ExecSeq(w, f, stats, m);
      a.0 == b.0 && Pop(Pop(a.1)) == Pop(b.1) && a.1.boxes == b.1.boxes && a.1.fields == b.1.fields
  {
    MergePushed(m);
    MergedSeq(w, f, stats, Push(m, map[]), |m.frames| - 1);
    PopMerged(ExecSeq(w, f, stats, Push(m, map[])).1, |m.frames| - 1);
  }

  /** A block can do without its frame if and only if its statements leave the frame below as they
      find it. */
  lemma BlockNeedlessIff(w: World, f: nat, stats: seq<Stmt>, m: Mem)
    requires |m.frames| > 0
    ensures ExecStmt(w, f, Compound(stats, true), m) == ExecStmt(w, f, Compound(stats, false), m)
      <==> ExecSeq(w, f, stats, m).1.frames == m.frames
  {
    FreshFrameSeq(w, f, stats, m);
    assert Pop(ExecSeq(w, f, stats, Push(m, map[])).1).frames == m.frames;
  }

  /** So the generator may replace a block of one statement by that statement exactly if it leaves
      the frame as it finds it. */
  lemma CollapsesIff(w: World, f: nat, s: Stmt, m: Mem)
    requires |m.frames| > 0
    ensures ExecStmt(w, f, Compound([s], true), m) == ExecStmt(w, f, s, m) <==> ExecStmt(w, f, s, m).1.frames == m.frames
  {
    BlockNeedlessIff(w, f, [s], m);
    Singleton(w, f, s, m);
  }

  lemma {:induction false} BindsNothing(w: World, f: nat, e: Expr, create: bool, m: Mem)
    requires |m.frames| > 0 && !MayBind(e, create)
    ensures EvalExpr(w, f, e, create, m).1.frames == m.frames
    decreases e, 1
  {
    match e
    case Prefix(op, operand) =>
      BindsNothing(w, f, operand, IsIncDec(op), m);
      assert EvalPrefix(w, f, e, m).1.frames == m.frames;
    case Cast(_, operand) => BindsNothing(w, f, operand, false, m);
    case Postfix(operand, _) =>
      BindsNothing(w, f, operand, true, m);
      assert EvalPostfix(w, f, e, m).1.frames == m.frames;
    case Binop(_, _, _) => BinopBindsNothing(w, f, e, create, m);
    case Ternop(cond, onTrue, onFalse) =>
      BindsNothing(w, f, cond, create, m);
      var m1 := EvalExpr(w, f, cond, create, m).1;
      BindsNothing(w, f, onTrue, create, m1);
      BindsNothing(w, f, onFalse, create, m1);
    case Call(_, _) => CallBindsNothing(w, f, e, m);
    case _ =>
  }

  lemma {:induction false} BinopBindsNothing(w: World, f: nat, e: Expr, create: bool, m: Mem)
    requires |m.frames| > 0 && e.Binop? && !MayBindBinop(e, create)
    ensures EvalExpr(w, f, e, create, m).1.frames == m.frames
    decreases e, 0, 1
  {
    if e.op.ASSIGN? || IsCompoundAssign(e.op) {
      AssignBindsNothing(w, f, e, create, m);
    } else if !IsThisMember(e) && !e.op.DOT? && !e.op.LBRACKET? {
      OperatorBindsNothing(w, f, e, m);
    }
  }

  lemma {:induction false} AssignBindsNothing(w: World, f: nat, e: Expr, create: bool, m: Mem)
    requires |m.frames| > 0 && e.Binop? && !MayBind(e.left, true) && !MayBind(e.right, create)
    ensures EvalAssign(w, f, e, create, m).1.frames == m.frames && EvalUpdate(w, f, e, create, m).1.frames == m.frames
    decreases e, 0, 0
  {
    BindsNothing(w, f, e.right, create, m);
    BindsNothing(w, f, e.left, true, EvalExpr(w, f, e.right, create, m).1);
    AssignKeepsFrames(w, f, e, create, m);
  }

  lemma {:induction false} OperatorBindsNothing(w: World, f: nat, e: Expr, m: Mem)
    requires |m.frames| > 0 && e.Binop? && !MayBind(e.left, false) && !MayBind(e.right, false)
    ensures EvalBinary(w, f, e, m).1.frames == m.frames && EvalShortCircuit(w, f, e, m).1.frames == m.frames
    decreases e, 0, 0
  {
    BindsNothing(w, f, e.left, false, m);
    BindsNothing(w, f, e.right, false, EvalExpr(w, f, e.left, false, m).1);
    BindsNothing(w, f, e.right, false, m);
    BindsNothing(w, f, e.left, false, EvalExpr(w, f, e.right, false, m).1);
    OperatorKeepsFrames(w, f, e, m);
  }

  /** Storing itself touches no frame. */
  lemma AssignKeepsFrames(w: World, f: nat, e: Expr, create: bool, m: Mem)
    requires |m.frames| > 0 && e.Binop?
    requires var m1 := EvalExpr(w, f, e.right, create, m).1;
      m1.frames == m.frames && EvalExpr(w, f, e.left, true, m1).1.frames == m.frames
    ensures EvalAssign(w, f, e, create, m).1.frames == m.frames && EvalUpdate(w, f, e, create, m).1.frames == m.frames
  {
  }

  lemma OperatorKeepsFrames(w: World, f: nat, e: Expr, m: Mem)
    requires |m.frames| > 0 && e.Binop?
    requires var m1 := EvalExpr(w, f, e.left, false, m).1;
      m1.frames == m.frames && EvalExpr(w, f, e.right, false, m1).1.frames == m.frames
    requires var m1 := EvalExpr(w, f, e.right, false, m).1;
      m1.frames == m.frames && EvalExpr(w, f, e.left, false, m1).1.frames == m.frames
    ensures EvalBinary(w, f, e, m).1.frames == m.frames && EvalShortCircuit(w, f, e, m).1.frames == m.frames
  {
  }

  lemma {:induction false} CallBindsNothing(w: World, f: nat, e: Expr, m: Mem)
    requires |m.frames| > 0 && e.Call? && !MayBind(e, false)
    ensures EvalCall(w, f, e, m).1.frames == m.frames
    decreases e, 0
  {
    if !e.func.Sym? {
      BindsNothing(w, f, e.func, false, m);
    }
    var m1 := EvalCallee(w, f, e.func, m).1;
    ArgsBindNothing(w, f, e.args, m1);
  }

  lemma {:induction false} ArgsBindNothing(w: World, f: nat, args: seq<Expr>, m: Mem)
    requires |m.frames| > 0 && !AnyMayBind(args)
    ensures EvalArgs(w, f, args, m).1.frames == m.frames
    decreases args, 0
  {
    if args != [] {
      BindsNothing(w, f, args[0], false, m);
      ArgsBindNothing(w, f, args[1..], EvalExpr(w, f, args[0], false, m).1);
    }
  }

  lemma FramedKeepsFrames(w: World, f: nat, s: Stmt, m: Mem)
    requires |m.frames| > 0 && Framed(s)
    ensures ExecStmt(w, f, s, m).1.frames == m.frames
  {
    match s
    case Eval(e) => BindsNothing(w, f, e, false, m);
    case Throw(e) => BindsNothing(w, f, e, false, m);
    case Return(e) => BindsNothing(w, f, e, false, m);
    case _ =>
  }

  lemma {:induction false} FramedSeqKeepsFrames(w: World, f: nat, stats: seq<Stmt>, m: Mem)
    requires |m.frames| > 0 && AllFramed(stats)
    ensures ExecSeq(w, f, stats, m).1.frames == m.frames
    decreases stats
  {
    if stats != [] {
      FramedKeepsFrames(w, f, stats[0], m);
      FramedSeqKeepsFrames(w, f, stats[1..], ExecStmt(w, f, stats[0], m).1);
    }
  }

  /** A statement that creates nothing in its frame does not need a frame of its own. */
  lemma FramedNeedsNoBlock(w: World, f: nat, s: Stmt, m: Mem)
    requires |m.frames| > 0 && Framed(s)
    ensures ExecStmt(w, f, Compound([s], true), m) == ExecStmt(w, f, s, m)
  {
    FramedKeepsFrames(w, f, s, m);
    CollapsesIff(w, f, s, m);
  }

  lemma Singleton(w: World, f: nat, s: Stmt, m: Mem)
    requires |m.frames| > 0
    ensures ExecSeq(w, f, [s], m) == ExecStmt(w, f, s, m)
  {
    assert [s][1..] == [];
    var (o, m1) := ExecStmt(w, f, s, m);
    assert ExecSeq(w, f, [s][1..], m1) == (Normal, m1);
  }

  // ------------------------------------------------------------------ the generator keeps the meaning

  lemma {:induction false} SameExpr(w: World, f: nat, e: Expr, create: bool, m: Mem)
    requires |m.frames| > 0 && HarmlessWorld(w)
    ensures EvalExpr(CollapseWorld(w), f, e, create, m) == EvalExpr(w, f, e, create, m)
    decreases f, e, 1
  {
    match e
    case Prefix(_, _) => SamePrefix(w, f, e, m);
    case Cast(_, operand) => SameExpr(w, f, operand, false, m);
    case Postfix(_, _) => SamePostfix(w, f, e, m);
    case Binop(_, _, _) => SameBinop(w, f, e, create, m);
    case Ternop(cond, onTrue, onFalse) =>
      SameExpr(w, f, cond, create, m);
      var m1 := EvalExpr(w, f, cond, create, m).1;
      SameExpr(w, f, onTrue, create, m1);
      SameExpr(w, f, onFalse, create, m1);
    case Call(_, _) => SameCall(w, f, e, m);
    case _ =>
  }

  lemma {:induction false} SamePrefix(w: World, f: nat, e: Expr, m: Mem)
    requires |m.frames| > 0 && HarmlessWorld(w) && e.Prefix?
    ensures EvalPrefix(CollapseWorld(w), f, e, m) == EvalPrefix(w, f, e, m)
    decreases f, e, 0
  {
    SameExpr(w, f, e.operand, IsIncDec(e.op), m);
  }

  lemma {:induction false} SamePostfix(w: World, f: nat, e: Expr, m: Mem)
    requires |m.frames| > 0 && HarmlessWorld(w) && e.Postfix?
    ensures EvalPostfix(CollapseWorld(w), f, e, m) == EvalPostfix(w, f, e, m)
    decreases f, e, 0
  {
    SameExpr(w, f, e.operand, true, m);
  }

  lemma {:induction false} SameBinop(w: World, f: nat, e: Expr, create: bool, m: Mem)
    requires |m.frames| > 0 && HarmlessWorld(w) && e.Binop?
    ensures var w' := CollapseWorld(w);
      && EvalAssign(w', f, e, create, m) == EvalAssign(w, f, e, create, m) && EvalUpdate(w', f, e, create, m) == EvalUpdate(w, f, e, create, m)
      && EvalBinary(w', f, e, m) == EvalBinary(w, f, e, m) && EvalShortCircuit(w', f, e, m) == EvalShortCircuit(w, f, e, m)
    decreases f, e, 0
  {
    SameExpr(w, f, e.right, create, m);
    SameExpr(w, f, e.left, true, EvalExpr(w, f, e.right, create, m).1);
    SameExpr(w, f, e.left, false, m);
    SameExpr(w, f, e.right, false, EvalExpr(w, f, e.left, false, m).1);
    SameExpr(w, f, e.right, false, m);
    SameExpr(w, f, e.left, false, EvalExpr(w, f, e.right, false, m).1);
  }

  lemma {:induction false} SameArgs(w: World, f: nat, args: seq<Expr>, m: Mem)
    requires |m.frames| > 0 && HarmlessWorld(w)
    ensures EvalArgs(CollapseWorld(w), f, args, m) == EvalArgs(w, f, args, m)
    decreases f, args, 0
  {
    if args != [] {
      SameExpr(w, f, args[0], false, m);
      SameArgs(w, f, args[1..], EvalExpr(w, f, args[0], false, m).1);
    }
  }

  lemma {:induction false} SameCall(w: World, f: nat, e: Expr, m: Mem)
    requires |m.frames| > 0 && HarmlessWorld(w) && e.Call?
    ensures EvalCall(CollapseWorld(w), f, e, m) == EvalCall(w, f, e, m)
    decreases f, e, 0
  {
    var w' := CollapseWorld(w);
    SameExpr(w, f, e.func, false, m);
    var (fn, m1) := EvalCallee(w, f, e.func, m);
    assert (fn, m1) == EvalCallee(w', f, e.func, m);
    SameArgs(w, f, e.args, m1);
    var (hs, m2) := EvalArgs(w, f, e.args, m1);
    if fn.Value? && ValueOf(fn.h, m1.boxes).Func? && hs.Args? {
      SameInvoke(w, f, e.func, ValueOf(fn.h, m1.boxes), hs.hs, m2);
    }
  }

  lemma {:induction false} SameInvoke(w: World, f: nat, func: Expr, fn: Val, args: seq<Handle>, m: Mem)
    requires |m.frames| > 0 && HarmlessWorld(w) && fn.Func?
    ensures Invoke(CollapseWorld(w), f, func, fn, args, m) == Invoke(w, f, func, fn, args, m)
    decreases f, func, 0
  {
    if f > 0 {
      SameFunction(w, f - 1, fn.name, if IsThisMember(func) then [Nothing] + args else args, m.boxes);
    }
  }

  /** Function bodies: the frame of the formals and the frame of the block count as one. */
  lemma {:induction false} SameFunction(w: World, f: nat, name: string, args: seq<Handle>, boxes: seq<Val>)
    requires HarmlessWorld(w)
    ensures CallUser(CollapseWorld(w), f, name, args, boxes) == CallUser(w, f, name, args, boxes)
    decreases f
  {
    if name in w.userFuns {
      var fd := w.userFuns[name];
      var frame := BindFormals(fd.formals, args, |fd.formals|);
      if frame.Just? {
        var m := Mem([frame.value], boxes, Nothing);
        SameBody(w, f, fd.body, m);
        var fd' := CollapseWorld(w).userFuns[name];
        assert BodyResult(CollapseWorld(w), f, fd', frame.value, boxes) == BodyResult(w, f, fd, frame.value, boxes);
      }
    }
  }

  /** Equal up to the innermost frame, which is about to be popped. */
  ghost predicate SameButTop(a: (Outcome, Mem), b: (Outcome, Mem))
    requires |a.1.frames| > 0 && |b.1.frames| > 0
  {
    a.0 == b.0 && Pop(a.1) == Pop(b.1)
  }

  lemma {:induction false} SameBody(w: World, f: nat, s: Stmt, m: Mem)
    requires |m.frames| > 0 && HarmlessWorld(w) && HarmlessFunction(s)
    ensures SameButTop(ExecStmt(CollapseWorld(w), f, Collapse(s), m), ExecStmt(w, f, s, m))
    decreases f, s, 4
  {
    var w' := CollapseWorld(w);
    match s
    case Compound(stats, _) =>
      var p := Push(m, map[]);
      SameSeq(w, f, stats, p);
      if |stats| == 1 {
        var t := CollapseAll(stats)[0];
        assert CollapseAll(stats) == [t];
        Singleton(w', f, t, p);
        FreshFrame(w', f, t, m);
      } else if stats == [] {
        PopPush(m);
      }
    case _ => SameInside(w, f, s, m);
  }

  /** Branches: the frame of the parent and the frame of an inner block count as one. */
  lemma {:induction false} SameBranch(w: World, f: nat, s: Stmt, m: Mem)
    requires |m.frames| > 0 && HarmlessWorld(w) && HarmlessBranch(s)
    ensures SameButTop(ExecStmt(CollapseWorld(w), f, SkipFrame(Collapse(s)), m), ExecStmt(w, f, s, m))
    decreases f, s, 4
  {
    var w' := CollapseWorld(w);
    match s
    case Compound(stats, _) =>
      SameSeq(w, f, stats, m);
      if |stats| == 1 {
        var t := CollapseAll(stats)[0];
        assert CollapseAll(stats) == [t];
        Singleton(w', f, t, m);
        if t.Compound? && t.own {
          FreshFrameSeq(w', f, t.stats, m);
        }
      }
    case _ => SameInside(w, f, s, m);
  }

  /** Loop and try bodies: their names stay visible, so nothing may move between frames. */
  lemma {:induction false} SameLoopBody(w: World, f: nat, s: Stmt, m: Mem)
    requires |m.frames| > 0 && HarmlessWorld(w) && HarmlessBody(s)
    ensures ExecStmt(CollapseWorld(w), f, SkipFrame(Collapse(s)), m) == ExecStmt(w, f, s, m)
    decreases f, s, 4
  {
    var w' := CollapseWorld(w);
    match s
    case Compound(stats, _) =>
      SameSeq(w, f, stats, m);
      if |stats| == 1 {
        var t := CollapseAll(stats)[0];
        assert CollapseAll(stats) == [t];
        Singleton(w', f, t, m);
        if t.Compound? && t.own {
          FramedSeqKeepsFrames(w', f, t.stats, m);
          BlockNeedlessIff(w', f, t.stats, m);
        }
      }
    case _ => SameInside(w, f, s, m);
  }

  /** A statement in a list of statements: equal in everything. */
  lemma {:induction false} SameStmt(w: World, f: nat, s: Stmt, m: Mem)
    requires |m.frames| > 0 && HarmlessWorld(w) && Harmless(s)
    ensures ExecStmt(CollapseWorld(w), f, Collapse(s), m) == ExecStmt(w, f, s, m)
    decreases f, s, 4
  {
    var w' := CollapseWorld(w);
    match s
    case Compound(stats, _) =>
      SameSeq(w, f, stats, Push(m, map[]));
      if |stats| == 1 {
        var t := CollapseAll(stats)[0];
        assert CollapseAll(stats) == [t];
        FramedNeedsNoBlock(w', f, t, m);
      } else if stats == [] {
        PopPush(m);
      }
    case _ => SameInside(w, f, s, m);
  }

  lemma {:induction false} SameSeq(w: World, f: nat, stats: seq<Stmt>, m: Mem)
    requires |m.frames| > 0 && HarmlessWorld(w) && AllHarmless(stats)
    ensures ExecSeq(CollapseWorld(w), f, CollapseAll(stats), m) == ExecSeq(w, f, stats, m)
    decreases f, stats, 0
  {
    if stats != [] {
      SameStmt(w, f, stats[0], m);
      SameSeq(w, f, stats[1..], ExecStmt(w, f, stats[0], m).1);
      assert CollapseAll(stats)[1..] == CollapseAll(stats[1..]);
    }
  }

  lemma {:induction false} SameInside(w: World, f: nat, s: Stmt, m: Mem)
    requires |m.frames| > 0 && HarmlessWorld(w) && HarmlessInside(s) && !s.Compound?
    ensures ExecStmt(CollapseWorld(w), f, Collapse(s), m) == ExecStmt(w, f, s, m)
    decreases f, s, 3
  {
    var m0 := Push(m, map[]);
    match s
    case Eval(e) => SameExpr(w, f, e, false, m);
    case Throw(e) => SameExpr(w, f, e, false, m);
    case Return(e) => SameExpr(w, f, e, false, m);
    case TryCatch(_, _, _) => SameTry(w, f, s, m0);
    case IfElse(_, _, _) => SameIf(w, f, s, m0);
    case While(_, _) => SameLoop(w, f, s, m0);
    case For(init, _, _, _) =>
      SameExpr(w, f, init, false, m0);
      SameLoop(w, f, s, EvalExpr(w, f, init, false, m0).1);
    case _ =>
  }

  lemma {:induction false} SameCond(w: World, f: nat, cond: Expr, m: Mem)
    requires |m.frames| > 0 && HarmlessWorld(w)
    ensures EvalCond(CollapseWorld(w), f, cond, m) == EvalCond(w, f, cond, m)
    decreases f, cond, 2
  {
    SameExpr(w, f, cond, false, m);
  }

  lemma {:induction false} SameIf(w: World, f: nat, s: Stmt, m: Mem)
    requires |m.frames| > 0 && HarmlessWorld(w) && s.IfElse? && HarmlessInside(s)
    ensures SameButTop(ExecIf(CollapseWorld(w), f, Collapse(s), m), ExecIf(w, f, s, m))
    decreases f, s, 2
  {
    SameCond(w, f, s.cond, m);
    var m1 := EvalCond(w, f, s.cond, m).1;
    SameBranch(w, f, s.yes, m1);
    if s.no.SomeStmt? {
      SameBranch(w, f, s.no.stmt, m1);
    }
  }

  lemma {:induction false} SameTry(w: World, f: nat, s: Stmt, m: Mem)
    requires |m.frames| > 0 && HarmlessWorld(w) && s.TryCatch? && HarmlessInside(s)
    ensures SameButTop(ExecTry(CollapseWorld(w), f, Collapse(s), m), ExecTry(w, f, s, m))
    decreases f, s, 2
  {
    var w', s' := CollapseWorld(w), Collapse(s);
    SameLoopBody(w, f, s.body, m);
    var (o, m1) := ExecStmt(w, f, s.body, m);
    SameBranch(w, f, s.handler, m1);
    if o.Raising? && s.catchExpr.Sym? {
      var m2 := Push(m1, map[]);
      var m3 := BindCaught(w, s.catchExpr.name, o.x, m2);
      assert m3 == BindCaught(w', s.catchExpr.name, o.x, m2);
      SameBranch(w, f, s.handler, m3);
      assert SameButTop(ExecHandler(w', f, s', o.x, m2), ExecHandler(w, f, s, o.x, m2));
    }
  }

  lemma {:induction false} SameLoop(w: World, f: nat, s: Stmt, m: Mem)
    requires |m.frames| > 0 && HarmlessWorld(w) && IsLoop(s) && HarmlessInside(s)
    ensures ExecLoop(CollapseWorld(w), f, Collapse(s), m) == ExecLoop(w, f, s, m)
    decreases f, s, 1
  {
    SameCond(w, f, s.cond, m);
    SameAgain(w, f, s, EvalCond(w, f, s.cond, m).1);
  }

  lemma {:induction false} SameAgain(w: World, f: nat, s: Stmt, m: Mem)
    requires |m.frames| > 0 && HarmlessWorld(w) && IsLoop(s) && HarmlessInside(s)
    ensures Again(CollapseWorld(w), f, Collapse(s), m) == Again(w, f, s, m)
    decreases f, s, 0
  {
    if f > 0 {
      SameRound(w, f - 1, s, m);
    }
  }

  lemma {:induction false} SameRound(w: World, f: nat, s: Stmt, m: Mem)
    requires |m.frames| > 0 && HarmlessWorld(w) && IsLoop(s) && HarmlessInside(s)
    ensures Round(CollapseWorld(w), f, Collapse(s), m) == Round(w, f, s, m)
    decreases f
  {
    SameLoopBody(w, f, s.body, m);
    var m1 := ExecStmt(w, f, s.body, m).1;
    SameAgain(w, f, s, m1);
    if s.For? {
      SameExpr(w, f, s.incr, false, m1);
    }
    assert Advance(CollapseWorld(w), f, Collapse(s), m1) == Advance(w, f, s, m1);
    SameLoop(w, f, s, Advance(w, f, s, m1).1);
  }

  // ------------------------------------------------------------------ where it does not

  /** `x = v;`, where v is what the first box holds. */
  function SetTo(x: string): Stmt {
    Eval(Binop(ASSIGN, Sym(x), Primary(Just(0))))
  }

  lemma AssignStores(w: World, x: string, f: nat, m: Mem)
    requires |m.frames| > 0
    ensures var (l, m1) := Lookup(w, x, true, m);
      l.Value? && ExecStmt(w, f, SetTo(x), m) == (Normal, Store(m1, l.h, ValueOf(Just(0), m1.boxes)).1)
  {
    var e := SetTo(x).expr;
    assert EvalExpr(w, f, e.right, false, m) == (Value(Just(0)), m);
    var (l, m1) := Lookup(w, x, true, m);
    assert EvalExpr(w, f, e.left, true, m) == (l, m1);
    var (h, m2) := Store(m1, l.h, ValueOf(Just(0), m1.boxes));
    assert EvalAssign(w, f, e, false, m) == (Value(h), m2);
    assert EvalExpr(w, f, e, false, m) == (Value(h), m2);
  }

  lemma AssignNew(w: World, x: string, f: nat, m: Mem)
    requires |m.frames| > 0 && |m.boxes| > 0 && FindVar(m.frames, x).Nothing?
    ensures var (o, m1) := ExecStmt(w, f, SetTo(x), m);
      var top := |m.frames| - 1;
      && o == Normal && m1.frames == m.frames[top := m.frames[top][x := Just(|m.boxes|)]]
      && m1.boxes == m.boxes + [m.boxes[0]] && m1.fields == m.fields
  {
    AssignStores(w, x, f, m);
  }

  /** `{ x = v; } x;` : the block hides x, the bare statement leaves it visible. */
  lemma FreeBlockLeaks(w: World, x: string)
    requires x !in w.consts && x !in w.hostFuns && x !in w.userFuns
    ensures var m := Mem([map[]], [Num(1)], Nothing);
      && ExecSeq(w, 0, [Compound([SetTo(x)], true), Eval(Sym(x))], m).0 == Raising(Failed(NotFound(x)))
      && ExecSeq(w, 0, CollapseAll([Compound([SetTo(x)], true), Eval(Sym(x))]), m).0 == Normal
  {
    var m := Mem([map[]], [Num(1)], Nothing);
    var use := Eval(Sym(x));
    AssignNew(w, x, 0, m);
    AssignNew(w, x, 0, Push(m, map[]));
    Singleton(w, 0, SetTo(x), Push(m, map[]));
    var m1 := ExecStmt(w, 0, Compound([SetTo(x)], true), m).1;
    assert m1.frames == [map[]];
    Singleton(w, 0, use, m1);
    assert [Compound([SetTo(x)], true), use][1..] == [use];
    assert CollapseAll([SetTo(x)]) == [SetTo(x)];
    assert CollapseAll([use]) == [use];
    assert CollapseAll([Compound([SetTo(x)], true), use]) == [SetTo(x), use];
    assert [SetTo(x), use][1..] == [use];
    Singleton(w, 0, use, ExecStmt(w, 0, SetTo(x), m).1);
  }

  /** `x = v;` followed by an empty statement, as a block within the body of `while (x)`. */
  function Switch(x: string): Stmt {
    While(Sym(x), Compound([Compound([SetTo(x), Empty], true)], false))
  }

  /** While the constant x is true, set a variable x to false: as written that is a new variable in
      every round, and the loop never ends, whatever the fuel; collapsed, the frame of the loop keeps
      the variable, and the second test ends it. */
  lemma LoopBodyLeaks(w: World, x: string, v: Val, f: nat)
    requires x in w.consts && w.truth(w.consts[x]) == Just(true) && w.truth(v) == Just(false)
    ensures var m := Mem([map[]], [v], Nothing);
      && ExecStmt(w, f, Switch(x), m).0 == Raising(OutOfFuel)
      && ExecStmt(w, f + 1, Collapse(Switch(x)), m).0 == Normal
  {
    var m := Mem([map[], map[]], [v], Nothing);
    assert Push(Mem([map[]], [v], Nothing), map[]) == m;
    assert FindVar(m.frames[..1][..0], x).Nothing?;
    assert FindVar(m.frames[..1], x).Nothing?;
    SwitchStaysOn(w, x, v, f, m);
    SwitchGoesOff(w, x, v, f, m);
  }

  lemma {:induction false} SwitchStaysOn(w: World, x: string, v: Val, f: nat, m: Mem)
    requires x in w.consts && w.truth(w.consts[x]) == Just(true)
    requires |m.frames| > 0 && |m.boxes| > 0 && FindVar(m.frames, x).Nothing?
    ensures ExecLoop(w, f, Switch(x), m).0 == Raising(OutOfFuel)
    decreases f
  {
    TestsConstant(w, x, f, m);
    var m1 := EvalCond(w, f, Sym(x), m).1;
    if f > 0 {
      SwitchBody(w, x, f - 1, m1);
      var m2 := ExecStmt(w, f - 1, Switch(x).body, m1).1;
      OneRound(w, f - 1, Switch(x), m1, m2);
      SwitchStaysOn(w, x, v, f - 1, m2);
    }
  }

  /** As written, a round ends normally and leaves no variable behind. */
  lemma SwitchBody(w: World, x: string, f: nat, m: Mem)
    requires |m.frames| > 0 && |m.boxes| > 0 && FindVar(m.frames, x).Nothing?
    ensures var (o, m1) := ExecStmt(w, f, Switch(x).body, m); o == Normal && m1.frames == m.frames && |m1.boxes| > 0
  {
    var inner := Compound([SetTo(x), Empty], true);
    Singleton(w, f, inner, m);
    assert Push(m, map[]).frames[..|m.frames|] == m.frames;
    SetAndSkip(w, x, f, Push(m, map[]));
    FramedKeepsFrames(w, f, inner, m);
  }

  lemma SwitchGoesOff(w: World, x: string, v: Val, f: nat, m: Mem)
    requires x in w.consts && w.truth(w.consts[x]) == Just(true) && w.truth(v) == Just(false)
    requires |m.frames| > 0 && |m.boxes| > 0 && m.boxes[0] == v && FindVar(m.frames, x).Nothing?
    ensures ExecLoop(w, f + 1, Collapse(Switch(x)), m).0 == Normal
  {
    CollapsedSwitch(x);
    TestsConstant(w, x, f + 1, m);
    var m1 := EvalCond(w, f + 1, Sym(x), m).1;
    SetAndSkip(w, x, f, m1);
    var m2 := ExecSeq(w, f, [SetTo(x), Empty], m1).1;
    assert EvalExpr(w, f, Sym(x), false, m2) == (Value(Just(|m1.boxes|)), m2);
    OneRound(w, f, Collapse(Switch(x)), m1, m2);
  }

  lemma OneRound(w: World, f: nat, s: Stmt, m: Mem, m': Mem)
    requires s.While? && |m.frames| > 0 && ExecStmt(w, f, s.body, m) == (Normal, m')
    ensures Again(w, f + 1, s, m) == ExecLoop(w, f, s, m')
  {
    assert Advance(w, f, s, m') == (Value(Nothing), m');
    assert Round(w, f, s, m) == ExecLoop(w, f, s, m');
  }

  lemma CollapsedSwitch(x: string)
    ensures Collapse(Switch(x)) == While(Sym(x), Compound([SetTo(x), Empty], false))
  {
    assert CollapseAll([Empty]) == [Empty];
    assert [SetTo(x), Empty][1..] == [Empty];
    assert CollapseAll([SetTo(x), Empty]) == [SetTo(x), Empty];
    assert CollapseAll([Compound([SetTo(x), Empty], true)]) == [Compound([SetTo(x), Empty], true)];
  }

  lemma TestsConstant(w: World, x: string, f: nat, m: Mem)
    requires x in w.consts && w.truth(w.consts[x]) == Just(true) && |m.frames| > 0 && FindVar(m.frames, x).Nothing?
    ensures EvalCond(w, f, Sym(x), m) == (Holds(true), Fresh(m, w.consts[x]).1)
  {
    assert EvalExpr(w, f, Sym(x), false, m) == (Value(Just(|m.boxes|)), Fresh(m, w.consts[x]).1);
  }

  lemma SetAndSkip(w: World, x: string, f: nat, m: Mem)
    requires |m.frames| > 0 && |m.boxes| > 0 && FindVar(m.frames, x).Nothing?
    ensures var (o, m1) := ExecSeq(w, f, [SetTo(x), Empty], m);
      && o == Normal && |m1.boxes| > 0 && m1.boxes[0] == m.boxes[0]
      && FindVar(m1.frames, x) == Just(Just(|m.boxes|)) && ValueOf(Just(|m.boxes|), m1.boxes) == m.boxes[0]
  {
    AssignNew(w, x, f, m);
    var m1 := ExecStmt(w, f, SetTo(x), m).1;
    assert [SetTo(x), Empty][1..] == [Empty];
    Singleton(w, f, Empty, m1);
    assert ExecStmt(w, f, Empty, m1) == (Normal, m1);
    assert x in m1.frames[|m1.frames| - 1];
  }
}
