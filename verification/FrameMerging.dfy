/** Two adjacent frames behave like one: running in a memory whose frames k and k + 1 were
    merged gives the same result and the merge of the resulting memory. Names are created in
    the innermost frame only and looked up from there outwards, so nothing can tell. The lemmas
    follow the semantics function by function; the code generator's shortcuts rest on them. */
module FrameMerging {
  import opened Syntax
  import opened Semantics
  import opened Wrappers

  ghost function Merged(frames: seq<Frame>, k: nat): seq<Frame>
    requires k + 1 < |frames|
  {
    frames[..k] + [frames[k] + frames[k + 1]] + frames[k + 2..]
  }

  ghost function Merge(m: Mem, k: nat): (m': Mem)
    requires k + 1 < |m.frames|
    ensures |m'.frames| == |m.frames| - 1
  {
    m.(frames := Merged(m.frames, k))
  }

  /** `b` is result `a` with the two frames merged. */
  ghost predicate Follows<R>(a: (R, Mem), b: (R, Mem), k: nat) {
    k + 1 < |a.1.frames| && b == (a.0, Merge(a.1, k))
  }

  lemma {:induction false} FindVarMerged(frames: seq<Frame>, k: nat, name: string)
    requires k + 1 < |frames|
    ensures FindVar(Merged(frames, k), name) == FindVar(frames, name)
  {
    var n := |frames| - 1;
    var merged := Merged(frames, k);
    if k + 1 < n {
      assert merged[..n - 1] == Merged(frames[..n], k);
      FindVarMerged(frames[..n], k, name);
    } else {
      assert merged[..k] == frames[..k] == frames[..n][..k];
      assert FindVar(frames[..n], name) == if name in frames[k] then Just(frames[k][name]) else FindVar(frames[..k], name);
    }
  }

  lemma MergedPush(m: Mem, k: nat, f: Frame)
    requires k + 1 < |m.frames|
    ensures Merge(Push(m, f), k) == Push(Merge(m, k), f)
  {
    assert Merged(m.frames + [f], k) == Merged(m.frames, k) + [f];
  }

  lemma MergedPop(m: Mem, k: nat)
    requires k + 2 < |m.frames|
    ensures Merge(Pop(m), k) == Pop(Merge(m, k))
  {
    var n := |m.frames| - 1;
    assert Merged(m.frames[..n], k) == Merged(m.frames, k)[..n - 1];
  }

  /** Popping the upper of the two frames, or the merged one, leaves the same memory. */
  lemma PopMerged(m: Mem, k: nat)
    requires k + 2 == |m.frames|
    ensures Pop(Merge(m, k)) == Pop(Pop(m))
  {
    assert Merged(m.frames, k)[..k] == m.frames[..k] == m.frames[..k + 1][..k];
  }

  lemma MergedLookup(w: World, name: string, create: bool, m: Mem, k: nat)
    requires k + 1 < |m.frames|
    ensures Follows(Lookup(w, name, create, m), Lookup(w, name, create, Merge(m, k)), k)
  {
    FindVarMerged(m.frames, k, name);
    if FindVar(m.frames, name).Nothing? && create {
      MergedCreate(m.frames, k, name, Fresh(m, Undefined).0);
    }
  }

  lemma MergedCreate(frames: seq<Frame>, k: nat, name: string, h: Handle)
    requires k + 1 < |frames|
    ensures var top := |frames| - 1;
      Merged(frames[top := frames[top][name := h]], k) ==
      Merged(frames, k)[top - 1 := Merged(frames, k)[top - 1][name := h]]
  {
    var top := |frames| - 1;
    if k + 1 == top {
      assert frames[k] + frames[top][name := h] == (frames[k] + frames[top])[name := h];
    } else {
      assert Merged(frames, k)[top - 1] == frames[top];
    }
  }

  lemma MergedCaught(w: World, name: string, x: Raise, m: Mem, k: nat)
    requires k + 1 < |m.frames|
    ensures BindCaught(w, name, x, Merge(m, k)) == Merge(BindCaught(w, name, x, m), k)
  {
    MergedLookup(w, name, true, m, k);
  }

  lemma {:induction false} MergedExpr(w: World, f: nat, e: Expr, create: bool, m: Mem, k: nat)
    requires k + 1 < |m.frames|
    ensures Follows(EvalExpr(w, f, e, create, m), EvalExpr(w, f, e, create, Merge(m, k)), k)
    decreases f, e, 2
  {
    match e
    case Sym(name) => MergedLookup(w, name, create, m, k);
    case Prefix(_, _) => MergedPrefix(w, f, e, m, k);
    case Cast(_, operand) => MergedExpr(w, f, operand, false, m, k);
    case Postfix(_, _) => MergedPostfix(w, f, e, m, k);
    case Binop(_, _, _) => MergedBinop(w, f, e, create, m, k);
    case Ternop(_, _, _) => MergedTernop(w, f, e, create, m, k);
    case Call(_, _) => MergedCall(w, f, e, m, k);
    case _ =>
  }

  lemma {:induction false} MergedBinop(w: World, f: nat, e: Expr, create: bool, m: Mem, k: nat)
    requires k + 1 < |m.frames| && e.Binop?
    ensures Follows(EvalExpr(w, f, e, create, m), EvalExpr(w, f, e, create, Merge(m, k)), k)
    decreases f, e, 1
  {
    if e.op.ASSIGN? {
      MergedAssign(w, f, e, create, m, k);
    } else if IsCompoundAssign(e.op) {
      MergedUpdate(w, f, e, create, m, k);
    } else if e.op.AND? || e.op.OR? {
      MergedShortCircuit(w, f, e, m, k);
    } else {
      MergedOperands(w, f, e, m, k);
    }
  }

  lemma {:induction false} MergedTernop(w: World, f: nat, e: Expr, create: bool, m: Mem, k: nat)
    requires k + 1 < |m.frames| && e.Ternop?
    ensures Follows(EvalExpr(w, f, e, create, m), EvalExpr(w, f, e, create, Merge(m, k)), k)
    decreases f, e, 0
  {
    MergedExpr(w, f, e.cond, create, m, k);
    var m1 := EvalExpr(w, f, e.cond, create, m).1;
    MergedExpr(w, f, e.onTrue, create, m1, k);
    MergedExpr(w, f, e.onFalse, create, m1, k);
  }

  lemma {:induction false} MergedPrefix(w: World, f: nat, e: Expr, m: Mem, k: nat)
    requires k + 1 < |m.frames| && e.Prefix?
    ensures Follows(EvalPrefix(w, f, e, m), EvalPrefix(w, f, e, Merge(m, k)), k)
    decreases f, e, 0
  {
    MergedExpr(w, f, e.operand, IsIncDec(e.op), m, k);
  }

  lemma {:induction false} MergedPostfix(w: World, f: nat, e: Expr, m: Mem, k: nat)
    requires k + 1 < |m.frames| && e.Postfix?
    ensures Follows(EvalPostfix(w, f, e, m), EvalPostfix(w, f, e, Merge(m, k)), k)
    decreases f, e, 0
  {
    MergedExpr(w, f, e.operand, true, m, k);
  }

  lemma {:induction false} MergedAssign(w: World, f: nat, e: Expr, create: bool, m: Mem, k: nat)
    requires k + 1 < |m.frames| && e.Binop?
    ensures Follows(EvalAssign(w, f, e, create, m), EvalAssign(w, f, e, create, Merge(m, k)), k)
    decreases f, e, 0
  {
    MergedExpr(w, f, e.right, create, m, k);
    MergedExpr(w, f, e.left, true, EvalExpr(w, f, e.right, create, m).1, k);
  }

  lemma {:induction false} MergedUpdate(w: World, f: nat, e: Expr, create: bool, m: Mem, k: nat)
    requires k + 1 < |m.frames| && e.Binop?
    ensures Follows(EvalUpdate(w, f, e, create, m), EvalUpdate(w, f, e, create, Merge(m, k)), k)
    decreases f, e, 0
  {
    MergedExpr(w, f, e.right, create, m, k);
    MergedExpr(w, f, e.left, true, EvalExpr(w, f, e.right, create, m).1, k);
  }

  lemma {:induction false} MergedOperands(w: World, f: nat, e: Expr, m: Mem, k: nat)
    requires k + 1 < |m.frames| && e.Binop?
    ensures Follows(EvalBinary(w, f, e, m), EvalBinary(w, f, e, Merge(m, k)), k)
    decreases f, e, 0
  {
    if RightFirst(e.op) {
      MergedExpr(w, f, e.right, false, m, k);
      MergedExpr(w, f, e.left, false, EvalExpr(w, f, e.right, false, m).1, k);
    } else {
      MergedExpr(w, f, e.left, false, m, k);
      MergedExpr(w, f, e.right, false, EvalExpr(w, f, e.left, false, m).1, k);
    }
  }

  lemma {:induction false} MergedShortCircuit(w: World, f: nat, e: Expr, m: Mem, k: nat)
    requires k + 1 < |m.frames| && e.Binop?
    ensures Follows(EvalShortCircuit(w, f, e, m), EvalShortCircuit(w, f, e, Merge(m, k)), k)
    decreases f, e, 0
  {
    MergedExpr(w, f, e.left, false, m, k);
    MergedExpr(w, f, e.right, false, EvalExpr(w, f, e.left, false, m).1, k);
  }

  lemma {:induction false} MergedArgs(w: World, f: nat, args: seq<Expr>, m: Mem, k: nat)
    requires k + 1 < |m.frames|
    ensures Follows(EvalArgs(w, f, args, m), EvalArgs(w, f, args, Merge(m, k)), k)
    decreases f, args, 0
  {
    if args != [] {
      MergedExpr(w, f, args[0], false, m, k);
      MergedArgs(w, f, args[1..], EvalExpr(w, f, args[0], false, m).1, k);
    }
  }

  lemma {:induction false} MergedCallee(w: World, f: nat, func: Expr, m: Mem, k: nat)
    requires k + 1 < |m.frames|
    ensures Follows(EvalCallee(w, f, func, m), EvalCallee(w, f, func, Merge(m, k)), k)
    decreases f, func, 3
  {
    if func.Sym? {
      MergedLookup(w, func.name, false, m, k);
    } else {
      MergedExpr(w, f, func, false, m, k);
    }
  }

  lemma {:induction false} MergedCall(w: World, f: nat, e: Expr, m: Mem, k: nat)
    requires k + 1 < |m.frames| && e.Call?
    ensures Follows(EvalCall(w, f, e, m), EvalCall(w, f, e, Merge(m, k)), k)
    decreases f, e, 0
  {
    MergedCallee(w, f, e.func, m, k);
    var (fn, m1) := EvalCallee(w, f, e.func, m);
    MergedArgs(w, f, e.args, m1, k);
    var (hs, m2) := EvalArgs(w, f, e.args, m1);
    if fn.Value? && ValueOf(fn.h, m1.boxes).Func? && hs.Args? {
      var v := ValueOf(fn.h, m1.boxes);
      assert Follows(Invoke(w, f, e.func, v, hs.hs, m2), Invoke(w, f, e.func, v, hs.hs, Merge(m2, k)), k);
    }
  }

  lemma {:induction false} MergedStmt(w: World, f: nat, s: Stmt, m: Mem, k: nat)
    requires k + 1 < |m.frames|
    ensures Follows(ExecStmt(w, f, s, m), ExecStmt(w, f, s, Merge(m, k)), k)
    decreases f, s, 2
  {
    MergedPush(m, k, map[]);
    var m0 := Push(m, map[]);
    match s
    case Eval(e) => MergedExpr(w, f, e, false, m, k);
    case Throw(e) => MergedExpr(w, f, e, false, m, k);
    case Return(e) => MergedExpr(w, f, e, false, m, k);
    case TryCatch(_, _, _) =>
      MergedTry(w, f, s, m0, k);
      MergedPop(ExecTry(w, f, s, m0).1, k);
    case IfElse(_, _, _) =>
      MergedIf(w, f, s, m0, k);
      MergedPop(ExecIf(w, f, s, m0).1, k);
    case Compound(stats, own) =>
      if own {
        MergedSeq(w, f, stats, m0, k);
        MergedPop(ExecSeq(w, f, stats, m0).1, k);
      } else {
        MergedSeq(w, f, stats, m, k);
      }
    case While(_, _) =>
      MergedLoop(w, f, s, m0, k);
      MergedPop(ExecLoop(w, f, s, m0).1, k);
    case For(init, _, _, _) =>
      MergedExpr(w, f, init, false, m0, k);
      var m1 := EvalExpr(w, f, init, false, m0).1;
      MergedPop(m1, k);
      MergedLoop(w, f, s, m1, k);
      MergedPop(ExecLoop(w, f, s, m1).1, k);
    case _ =>
  }

  lemma {:induction false} MergedSeq(w: World, f: nat, stats: seq<Stmt>, m: Mem, k: nat)
    requires k + 1 < |m.frames|
    ensures Follows(ExecSeq(w, f, stats, m), ExecSeq(w, f, stats, Merge(m, k)), k)
    decreases f, stats, 0
  {
    if stats != [] {
      MergedStmt(w, f, stats[0], m, k);
      MergedSeq(w, f, stats[1..], ExecStmt(w, f, stats[0], m).1, k);
    }
  }

  lemma {:induction false} MergedCond(w: World, f: nat, cond: Expr, m: Mem, k: nat)
    requires k + 1 < |m.frames|
    ensures Follows(EvalCond(w, f, cond, m), EvalCond(w, f, cond, Merge(m, k)), k)
    decreases f, cond, 2
  {
    MergedExpr(w, f, cond, false, m, k);
  }

  lemma {:induction false} MergedIf(w: World, f: nat, s: Stmt, m: Mem, k: nat)
    requires k + 1 < |m.frames| && s.IfElse?
    ensures Follows(ExecIf(w, f, s, m), ExecIf(w, f, s, Merge(m, k)), k)
    decreases f, s, 1
  {
    MergedCond(w, f, s.cond, m, k);
    var m1 := EvalCond(w, f, s.cond, m).1;
    MergedStmt(w, f, s.yes, m1, k);
    if s.no.SomeStmt? {
      MergedStmt(w, f, s.no.stmt, m1, k);
    }
  }

  lemma {:induction false} MergedTry(w: World, f: nat, s: Stmt, m: Mem, k: nat)
    requires k + 1 < |m.frames| && s.TryCatch?
    ensures Follows(ExecTry(w, f, s, m), ExecTry(w, f, s, Merge(m, k)), k)
    decreases f, s, 1
  {
    MergedStmt(w, f, s.body, m, k);
    var (o, m1) := ExecStmt(w, f, s.body, m);
    MergedStmt(w, f, s.handler, m1, k);
    if o.Raising? && s.catchExpr.Sym? {
      MergedPush(m1, k, map[]);
      var m2 := Push(m1, map[]);
      MergedCaught(w, s.catchExpr.name, o.x, m2, k);
      MergedStmt(w, f, s.handler, BindCaught(w, s.catchExpr.name, o.x, m2), k);
      assert Follows(ExecHandler(w, f, s, o.x, m2), ExecHandler(w, f, s, o.x, Merge(m2, k)), k);
      MergedPop(ExecHandler(w, f, s, o.x, m2).1, k);
    }
  }

  lemma {:induction false} MergedLoop(w: World, f: nat, s: Stmt, m: Mem, k: nat)
    requires k + 1 < |m.frames| && IsLoop(s)
    ensures Follows(ExecLoop(w, f, s, m), ExecLoop(w, f, s, Merge(m, k)), k)
    decreases f, s, 1
  {
    MergedCond(w, f, s.cond, m, k);
    MergedAgain(w, f, s, EvalCond(w, f, s.cond, m).1, k);
  }

  lemma {:induction false} MergedAgain(w: World, f: nat, s: Stmt, m: Mem, k: nat)
    requires k + 1 < |m.frames| && IsLoop(s)
    ensures Follows(Again(w, f, s, m), Again(w, f, s, Merge(m, k)), k)
    decreases f, s, 0
  {
    if f > 0 {
      MergedRound(w, f - 1, s, m, k);
    }
  }

  lemma {:induction false} MergedRound(w: World, f: nat, s: Stmt, m: Mem, k: nat)
    requires k + 1 < |m.frames| && IsLoop(s)
    ensures Follows(Round(w, f, s, m), Round(w, f, s, Merge(m, k)), k)
    decreases f
  {
    MergedStmt(w, f, s.body, m, k);
    var m1 := ExecStmt(w, f, s.body, m).1;
    MergedAgain(w, f, s, m1, k);
    if s.For? {
      MergedExpr(w, f, s.incr, false, m1, k);
    }
    assert Follows(Advance(w, f, s, m1), Advance(w, f, s, Merge(m1, k)), k);
    MergedLoop(w, f, s, Advance(w, f, s, m1).1, k);
  }
}
