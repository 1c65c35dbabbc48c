/** Fuel only bounds how long we are willing to look: a result that is not "out of fuel" stays
    the same with more fuel, so the semantics is a partial function of the program alone. */
module FuelLaws {
  import opened Syntax
  import opened Semantics
  import opened Wrappers

  ghost predicate Done(r: EvalResult) {
    r != Raised(OutOfFuel)
  }

  ghost predicate Ended(o: Outcome) {
    o != Raising(OutOfFuel)
  }

  lemma {:induction false} MoreFuelExpr(w: World, f: nat, g: nat, e: Expr, create: bool, m: Mem)
    requires |m.frames| > 0 && f <= g
    ensures Done(EvalExpr(w, f, e, create, m).0) ==> EvalExpr(w, g, e, create, m) == EvalExpr(w, f, e, create, m)
    decreases f, e, 1
  {
    match e
    case Prefix(_, operand) =>
      MoreFuelExpr(w, f, g, operand, IsIncDec(e.op), m);
      assert Done(EvalPrefix(w, f, e, m).0) ==> EvalPrefix(w, g, e, m) == EvalPrefix(w, f, e, m);
    case Cast(_, operand) => MoreFuelExpr(w, f, g, operand, false, m);
    case Postfix(operand, _) =>
      MoreFuelExpr(w, f, g, operand, true, m);
      assert Done(EvalPostfix(w, f, e, m).0) ==> EvalPostfix(w, g, e, m) == EvalPostfix(w, f, e, m);
    case Binop(_, _, _) =>
      MoreFuelAssign(w, f, g, e, create, m);
      MoreFuelOperands(w, f, g, e, m);
    case Ternop(cond, onTrue, onFalse) =>
      MoreFuelExpr(w, f, g, cond, create, m);
      var m1 := EvalExpr(w, f, cond, create, m).1;
      MoreFuelExpr(w, f, g, onTrue, create, m1);
      MoreFuelExpr(w, f, g, onFalse, create, m1);
    case Call(_, _) => MoreFuelCall(w, f, g, e, m);
    case _ =>
  }

  lemma {:induction false} MoreFuelAssign(w: World, f: nat, g: nat, e: Expr, create: bool, m: Mem)
    requires |m.frames| > 0 && f <= g && e.Binop?
    ensures Done(EvalAssign(w, f, e, create, m).0) ==> EvalAssign(w, g, e, create, m) == EvalAssign(w, f, e, create, m)
    ensures Done(EvalUpdate(w, f, e, create, m).0) ==> EvalUpdate(w, g, e, create, m) == EvalUpdate(w, f, e, create, m)
    decreases f, e, 0
  {
    MoreFuelExpr(w, f, g, e.right, create, m);
    MoreFuelExpr(w, f, g, e.left, true, EvalExpr(w, f, e.right, create, m).1);
  }

  lemma {:induction false} MoreFuelOperands(w: World, f: nat, g: nat, e: Expr, m: Mem)
    requires |m.frames| > 0 && f <= g && e.Binop?
    ensures Done(EvalBinary(w, f, e, m).0) ==> EvalBinary(w, g, e, m) == EvalBinary(w, f, e, m)
    ensures Done(EvalShortCircuit(w, f, e, m).0) ==> EvalShortCircuit(w, g, e, m) == EvalShortCircuit(w, f, e, m)
    decreases f, e, 0
  {
    MoreFuelExpr(w, f, g, e.left, false, m);
    MoreFuelExpr(w, f, g, e.right, false, EvalExpr(w, f, e.left, false, m).1);
    if RightFirst(e.op) {
      MoreFuelExpr(w, f, g, e.right, false, m);
      MoreFuelExpr(w, f, g, e.left, false, EvalExpr(w, f, e.right, false, m).1);
    }
  }

  lemma {:induction false} MoreFuelArgs(w: World, f: nat, g: nat, args: seq<Expr>, m: Mem)
    requires |m.frames| > 0 && f <= g
    ensures EvalArgs(w, f, args, m).0 != ArgsRaised(OutOfFuel) ==> EvalArgs(w, g, args, m) == EvalArgs(w, f, args, m)
    decreases f, args, 0
  {
    if args != [] {
      MoreFuelExpr(w, f, g, args[0], false, m);
      MoreFuelArgs(w, f, g, args[1..], EvalExpr(w, f, args[0], false, m).1);
    }
  }

  lemma {:induction false} MoreFuelCall(w: World, f: nat, g: nat, e: Expr, m: Mem)
    requires |m.frames| > 0 && f <= g && e.Call?
    ensures Done(EvalCall(w, f, e, m).0) ==> EvalCall(w, g, e, m) == EvalCall(w, f, e, m)
    decreases f, e, 0
  {
    MoreFuelExpr(w, f, g, e.func, false, m);
    var (fn, m1) := EvalCallee(w, f, e.func, m);
    MoreFuelArgs(w, f, g, e.args, m1);
    var (hs, m2) := EvalArgs(w, f, e.args, m1);
    if fn.Value? && ValueOf(fn.h, m1.boxes).Func? && hs.Args? {
      MoreFuelInvoke(w, f, g, e.func, ValueOf(fn.h, m1.boxes), hs.hs, m2);
    }
  }

  lemma {:induction false} MoreFuelInvoke(w: World, f: nat, g: nat, func: Expr, fn: Val, args: seq<Handle>, m: Mem)
    requires |m.frames| > 0 && f <= g && fn.Func?
    ensures Done(Invoke(w, f, func, fn, args, m).0) ==> Invoke(w, g, func, fn, args, m) == Invoke(w, f, func, fn, args, m)
    decreases f, func, 0
  {
    if f > 0 {
      MoreFuelFunction(w, f - 1, g - 1, fn.name, if IsThisMember(func) then [Nothing] + args else args, m.boxes);
    }
  }

  lemma {:induction false} MoreFuelFunction(w: World, f: nat, g: nat, name: string, args: seq<Handle>, boxes: seq<Val>)
    requires f <= g
    ensures Done(CallUser(w, f, name, args, boxes).0) ==> CallUser(w, g, name, args, boxes) == CallUser(w, f, name, args, boxes)
    decreases f
  {
    if name in w.userFuns {
      var fd := w.userFuns[name];
      var frame := BindFormals(fd.formals, args, |fd.formals|);
      if frame.Just? {
        MoreFuelStmt(w, f, g, fd.body, Mem([frame.value], boxes, Nothing));
        assert Done(BodyResult(w, f, fd, frame.value, boxes).0) ==>
          BodyResult(w, g, fd, frame.value, boxes) == BodyResult(w, f, fd, frame.value, boxes);
      }
    }
  }

  lemma {:induction false} MoreFuelStmt(w: World, f: nat, g: nat, s: Stmt, m: Mem)
    requires |m.frames| > 0 && f <= g
    ensures Ended(ExecStmt(w, f, s, m).0) ==> ExecStmt(w, g, s, m) == ExecStmt(w, f, s, m)
    decreases f, s, 2
  {
    match s
    case Eval(e) => MoreFuelExpr(w, f, g, e, false, m);
    case Throw(e) => MoreFuelExpr(w, f, g, e, false, m);
    case Return(e) => MoreFuelExpr(w, f, g, e, false, m);
    case TryCatch(_, _, _) => MoreFuelTry(w, f, g, s, Push(m, map[]));
    case IfElse(_, _, _) => MoreFuelIf(w, f, g, s, Push(m, map[]));
    case Compound(stats, own) => MoreFuelSeq(w, f, g, stats, if own then Push(m, map[]) else m);
    case While(_, _) => MoreFuelLoop(w, f, g, s, Push(m, map[]));
    case For(init, _, _, _) =>
      MoreFuelExpr(w, f, g, init, false, Push(m, map[]));
      MoreFuelLoop(w, f, g, s, EvalExpr(w, f, init, false, Push(m, map[])).1);
    case _ =>
  }

  lemma {:induction false} MoreFuelIf(w: World, f: nat, g: nat, s: Stmt, m: Mem)
    requires |m.frames| > 0 && f <= g && s.IfElse?
    ensures Ended(ExecIf(w, f, s, m).0) ==> ExecIf(w, g, s, m) == ExecIf(w, f, s, m)
    decreases f, s, 1
  {
    MoreFuelCond(w, f, g, s.cond, m);
    var m1 := EvalCond(w, f, s.cond, m).1;
    MoreFuelStmt(w, f, g, s.yes, m1);
    if s.no.SomeStmt? {
      MoreFuelStmt(w, f, g, s.no.stmt, m1);
    }
  }

  lemma {:induction false} MoreFuelSeq(w: World, f: nat, g: nat, stats: seq<Stmt>, m: Mem)
    requires |m.frames| > 0 && f <= g
    ensures Ended(ExecSeq(w, f, stats, m).0) ==> ExecSeq(w, g, stats, m) == ExecSeq(w, f, stats, m)
    decreases f, stats, 0
  {
    if stats != [] {
      MoreFuelStmt(w, f, g, stats[0], m);
      MoreFuelSeq(w, f, g, stats[1..], ExecStmt(w, f, stats[0], m).1);
    }
  }

  lemma {:induction false} MoreFuelCond(w: World, f: nat, g: nat, cond: Expr, m: Mem)
    requires |m.frames| > 0 && f <= g
    ensures EvalCond(w, f, cond, m).0 != CondRaised(OutOfFuel) ==> EvalCond(w, g, cond, m) == EvalCond(w, f, cond, m)
    decreases f, cond, 2
  {
    MoreFuelExpr(w, f, g, cond, false, m);
  }

  lemma {:induction false} MoreFuelTry(w: World, f: nat, g: nat, s: Stmt, m: Mem)
    requires |m.frames| > 0 && f <= g && s.TryCatch?
    ensures Ended(ExecTry(w, f, s, m).0) ==> ExecTry(w, g, s, m) == ExecTry(w, f, s, m)
    decreases f, s, 1
  {
    MoreFuelStmt(w, f, g, s.body, m);
    var (o, m1) := ExecStmt(w, f, s.body, m);
    MoreFuelStmt(w, f, g, s.handler, m1);
    if o.Raising? && s.catchExpr.Sym? {
      var m2 := Push(m1, map[]);
      MoreFuelStmt(w, f, g, s.handler, BindCaught(w, s.catchExpr.name, o.x, m2));
      assert Ended(ExecHandler(w, f, s, o.x, m2).0) ==> ExecHandler(w, g, s, o.x, m2) == ExecHandler(w, f, s, o.x, m2);
    }
  }

  lemma {:induction false} MoreFuelLoop(w: World, f: nat, g: nat, s: Stmt, m: Mem)
    requires |m.frames| > 0 && f <= g && IsLoop(s)
    ensures Ended(ExecLoop(w, f, s, m).0) ==> ExecLoop(w, g, s, m) == ExecLoop(w, f, s, m)
    decreases f, s, 1
  {
    MoreFuelCond(w, f, g, s.cond, m);
    MoreFuelAgain(w, f, g, s, EvalCond(w, f, s.cond, m).1);
  }

  lemma {:induction false} MoreFuelAgain(w: World, f: nat, g: nat, s: Stmt, m: Mem)
    requires |m.frames| > 0 && f <= g && IsLoop(s)
    ensures Ended(Again(w, f, s, m).0) ==> Again(w, g, s, m) == Again(w, f, s, m)
    decreases f, s, 0
  {
    if f > 0 {
      MoreFuelRound(w, f - 1, g - 1, s, m);
    }
  }

  lemma {:induction false} MoreFuelRound(w: World, f: nat, g: nat, s: Stmt, m: Mem)
    requires |m.frames| > 0 && f <= g && IsLoop(s)
    ensures Ended(Round(w, f, s, m).0) ==> Round(w, g, s, m) == Round(w, f, s, m)
    decreases f
  {
    MoreFuelStmt(w, f, g, s.body, m);
    var m1 := ExecStmt(w, f, s.body, m).1;
    MoreFuelAgain(w, f, g, s, m1);
    if s.For? {
      MoreFuelExpr(w, f, g, s.incr, false, m1);
    }
    assert Done(Advance(w, f, s, m1).0) ==> Advance(w, g, s, m1) == Advance(w, f, s, m1);
    MoreFuelLoop(w, f, g, s, Advance(w, f, s, m1).1);
  }

  // ------------------------------------------------------------------ continue

  /** A body that, from memory `m`, ends in `continue` and leaves the memory as it was. */
  ghost predicate Spins(w: World, s: Stmt, m: Mem)
    requires |m.frames| > 0 && IsLoop(s)
  {
    forall f: nat :: ExecStmt(w, f, s.body, m) == (Continued, m)
  }

  /** After `continue` neither the increment nor the condition is evaluated: such a loop, once
      entered, never ends, whatever its condition and increment say. */
  lemma {:induction false} ContinueSkipsTest(w: World, fuel: nat, s: Stmt, m: Mem)
    requires |m.frames| > 0 && IsLoop(s) && Spins(w, s, m)
    ensures Again(w, fuel, s, m).0 == Raising(OutOfFuel)
  {
    if fuel > 0 {
      assert ExecStmt(w, fuel - 1, s.body, m) == (Continued, m);
      ContinueSkipsTest(w, fuel - 1, s, m);
    }
  }

  /** In particular `for (init; cond; incr) continue;` never ends when the condition holds once. */
  lemma ForContinueDiverges(w: World, fuel: nat, init: Expr, cond: Expr, incr: Expr, m: Mem)
    requires |m.frames| > 0
    requires var (r, m1) := EvalExpr(w, fuel, init, false, Push(m, map[]));
      r.Value? && EvalCond(w, fuel, cond, m1).0 == Holds(true)
    ensures ExecStmt(w, fuel, For(init, cond, incr, Continue), m).0 == Raising(OutOfFuel)
  {
    var (r, m1) := EvalExpr(w, fuel, init, false, Push(m, map[]));
    ContinueSkipsTest(w, fuel, For(init, cond, incr, Continue), EvalCond(w, fuel, cond, m1).1);
  }

  // ------------------------------------------------------------------ creation on demand

  /** Names, choices between them and assignments of them to each other. */
  predicate Place(e: Expr) {
    match e
    case Sym(_) => true
    case Primary(_) => true
    case Ternop(c, t, f) => Place(c) && Place(t) && Place(f)
    case Binop(op, l, r) => op.ASSIGN? && Place(l) && Place(r)
    case _ => false
  }

  /** Evaluated with the creation flag, such an expression misses no name: the flag reaches the branches
      of a choice and both sides of an assignment, as in `(a = b)++` for new names. */
  lemma {:induction false} CreationReachesPlaces(w: World, fuel: nat, e: Expr, m: Mem)
    requires |m.frames| > 0 && Place(e)
    ensures var r := EvalExpr(w, fuel, e, true, m).0; r.Raised? ==> r.x == Failed(BadCondition)
    decreases e
  {
    match e
    case Ternop(c, t, f) =>
      CreationReachesPlaces(w, fuel, c, m);
      var m1 := EvalExpr(w, fuel, c, true, m).1;
      CreationReachesPlaces(w, fuel, t, m1);
      CreationReachesPlaces(w, fuel, f, m1);
    case Binop(_, l, r) =>
      CreationReachesPlaces(w, fuel, r, m);
      CreationReachesPlaces(w, fuel, l, EvalExpr(w, fuel, r, true, m).1);
      assert EvalExpr(w, fuel, e, true, m) == EvalAssign(w, fuel, e, true, m);
    case _ =>
  }
}
