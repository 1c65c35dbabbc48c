/** The tree-walking executor: statements and expressions run against the mutable context and
    report returns, breaks and continues through its flags. Every method is proved to agree
    with the structured semantics and to restore the context on every exit. */
module Interpreter {
  import opened Syntax
  import opened Semantics
  import opened ExecutionContext
  import opened Wrappers

  /** No function body can end in a stray break or continue (the parser sees to that). */
  ghost predicate SoundWorld(w: World) {
    forall f :: f in w.userFuns ==> WellNested(w.userFuns[f].body, false)
  }

  /** What an expression may do to the context. */
  ghost predicate Tidy(a: Snapshot, b: Snapshot) {
    Restored(a, b) && Quiet(b)
  }

  /** The flags and the exception in flight encode exactly the outcome `o`. */
  ghost predicate Encodes(c: Snapshot, x: Maybe<Raise>, o: Outcome) {
    && c.returning == o.Returned? && c.breaking == o.Broke? && c.continuing == o.Continued?
    && (o.Returned? ==> c.result == o.h)
    && x == if o.Raising? then Just(o.x) else Nothing
  }

  /** A well-nested statement outside loops never ends in break or continue. */
  lemma {:induction false} NoStrayJump(w: World, fuel: nat, s: Stmt, inLoop: bool, m: Mem)
    requires |m.frames| > 0 && WellNested(s, inLoop)
    ensures var o := ExecStmt(w, fuel, s, m).0; (o.Broke? || o.Continued?) ==> inLoop
    decreases fuel, s, 2
  {
    match s
    case TryCatch(body, catchExpr, handler) =>
      var m0 := Push(m, map[]);
      NoStrayJump(w, fuel, body, inLoop, m0);
      var (o, m1) := ExecStmt(w, fuel, body, m0);
      if o.Raising? && Catchable(o.x) {
        if catchExpr.Sym? {
          var m2 := BindCaught(w, catchExpr.name, o.x, Push(m1, map[]));
          NoStrayJump(w, fuel, handler, inLoop, m2);
          assert ExecHandler(w, fuel, s, o.x, Push(m1, map[])) == ExecStmt(w, fuel, handler, m2);
        } else {
          NoStrayJump(w, fuel, handler, inLoop, m1);
        }
      }
    case IfElse(cond, yes, no) =>
      var (c, m1) := EvalCond(w, fuel, cond, Push(m, map[]));
      NoStrayJump(w, fuel, yes, inLoop, m1);
      if no.SomeStmt? {
        NoStrayJump(w, fuel, no.stmt, inLoop, m1);
      }
    case Compound(stats, own) =>
      NoStrayJumpSeq(w, fuel, stats, inLoop, if own then Push(m, map[]) else m);
    case While(_, _) => NoJumpOutOfLoop(w, fuel, s, Push(m, map[]));
    case For(init, _, _, _) =>
      var (r, m0) := EvalExpr(w, fuel, init, false, Push(m, map[]));
      NoJumpOutOfLoop(w, fuel, s, m0);
    case _ =>
  }

  lemma {:induction false} NoStrayJumpSeq(w: World, fuel: nat, stats: seq<Stmt>, inLoop: bool, m: Mem)
    requires |m.frames| > 0 && forall i :: 0 <= i < |stats| ==> WellNested(stats[i], inLoop)
    ensures var o := ExecSeq(w, fuel, stats, m).0; (o.Broke? || o.Continued?) ==> inLoop
    decreases fuel, stats, 0
  {
    if stats != [] {
      NoStrayJump(w, fuel, stats[0], inLoop, m);
      NoStrayJumpSeq(w, fuel, stats[1..], inLoop, ExecStmt(w, fuel, stats[0], m).1);
    }
  }

  /** Break and continue never leave the loop they belong to. */
  lemma {:induction false} NoJumpOutOfLoop(w: World, fuel: nat, s: Stmt, m: Mem)
    requires |m.frames| > 0 && IsLoop(s)
    ensures var o := ExecLoop(w, fuel, s, m).0; !o.Broke? && !o.Continued?
    decreases fuel, s, 1
  {
    var (c, m1) := EvalCond(w, fuel, s.cond, m);
    if c.Holds? && c.b {
      NoJumpOutOfRound(w, fuel, s, m1);
    }
  }

  lemma {:induction false} NoJumpOutOfRound(w: World, fuel: nat, s: Stmt, m: Mem)
    requires |m.frames| > 0 && IsLoop(s)
    ensures var o := Again(w, fuel, s, m).0; !o.Broke? && !o.Continued?
    decreases fuel, s, 0
  {
    if fuel > 0 {
      var (o, m1) := ExecStmt(w, fuel - 1, s.body, m);
      if o.Continued? {
        NoJumpOutOfRound(w, fuel - 1, s, m1);
      } else if o.Normal? {
        NoJumpOutOfLoop(w, fuel - 1, s, Advance(w, fuel - 1, s, m1).1);
      }
    }
  }

  // ------------------------------------------------------------------ expressions

  method RunExpr(ctx: Context, w: World, fuel: nat, e: Expr) returns (r: EvalResult)
    requires Consistent(ctx.Snap()) && Quiet(ctx.Snap()) && SoundWorld(w)
    modifies ctx
    ensures Tidy(old(ctx.Snap()), ctx.Snap())
    ensures (r, MemOf(ctx.Snap())) == EvalExpr(w, fuel, e, old(ctx.create), old(MemOf(ctx.Snap())))
    decreases fuel, e, 2
  {
    match e
    case Void => r := Value(Nothing);
    case Primary(box) => r := Value(box);
    case Sym(name) => r := ctx.FindValBySymName(w, name);
    case Prefix(_, _) => r := RunPrefix(ctx, w, fuel, e);
    case Cast(_, _) => r := RunCast(ctx, w, fuel, e);
    case Postfix(_, _) => r := RunPostfix(ctx, w, fuel, e);
    case Ternop(_, _, _) => r := RunTernop(ctx, w, fuel, e);
    case Call(_, _) => r := RunCall(ctx, w, fuel, e);
    case Binop(_, _, _) => r := RunBinop(ctx, w, fuel, e);
  }

  method RunBinop(ctx: Context, w: World, fuel: nat, e: Expr) returns (r: EvalResult)
    requires Consistent(ctx.Snap()) && Quiet(ctx.Snap()) && SoundWorld(w) && e.Binop?
    modifies ctx
    ensures Tidy(old(ctx.Snap()), ctx.Snap())
    ensures (r, MemOf(ctx.Snap())) == EvalExpr(w, fuel, e, old(ctx.create), old(MemOf(ctx.Snap())))
    decreases fuel, e, 1
  {
    if e.op.ASSIGN? {
      r := RunAssign(ctx, w, fuel, e);
    } else if IsCompoundAssign(e.op) {
      r := RunUpdate(ctx, w, fuel, e);
    } else if e.op.AND? || e.op.OR? {
      r := RunShortCircuit(ctx, w, fuel, e);
    } else if IsThisMember(e) {
      r := ctx.FindField(SymbolOf(e.right));
    } else if e.op.DOT? || e.op.LBRACKET? || BinaryLevel(e.op) == 0 {
      r := Raised(Failed(Unsupported));
    } else {
      r := RunBinary(ctx, w, fuel, e);
    }
  }

  /** Evaluate with the creation flag set to `create`, putting the flag back afterwards. */
  method RunFlagged(ctx: Context, w: World, fuel: nat, e: Expr, create: bool) returns (r: EvalResult)
    requires Consistent(ctx.Snap()) && Quiet(ctx.Snap()) && SoundWorld(w)
    modifies ctx
    ensures Tidy(old(ctx.Snap()), ctx.Snap())
    ensures (r, MemOf(ctx.Snap())) == EvalExpr(w, fuel, e, create, old(MemOf(ctx.Snap())))
    decreases fuel, e, 3
  {
    var before := ctx.SetCreateIfNotExists(create);
    FlagIsNoMemory(old(ctx.Snap()), ctx.Snap());
    r := RunExpr(ctx, w, fuel, e);
    ghost var end := ctx.Snap();
    var _ := ctx.SetCreateIfNotExists(before);
    FlagIsNoMemory(end, ctx.Snap());
  }

  /** Nothing but evaluation looks at the creation flag. */
  lemma FlagIsNoMemory(a: Snapshot, b: Snapshot)
    requires Consistent(a) && b == a.(create := b.create)
    ensures Consistent(b) && MemOf(b) == MemOf(a) && Quiet(b) == Quiet(a) && Base(b) == Base(a)
  {
  }

  method Box(ctx: Context, v: Maybe<Val>) returns (r: EvalResult)
    requires Consistent(ctx.Snap()) && Quiet(ctx.Snap())
    modifies ctx`boxes
    ensures Tidy(old(ctx.Snap()), ctx.Snap())
    ensures (r, MemOf(ctx.Snap())) == FromOp(v, old(MemOf(ctx.Snap())))
  {
    if v.Nothing? {
      return Raised(Failed(BadOperation));
    }
    var h := ctx.NewBox(v.value);
    return Value(h);
  }

  method RunCast(ctx: Context, w: World, fuel: nat, e: Expr) returns (r: EvalResult)
    requires Consistent(ctx.Snap()) && Quiet(ctx.Snap()) && SoundWorld(w) && e.Cast?
    modifies ctx
    ensures Tidy(old(ctx.Snap()), ctx.Snap())
    ensures (r, MemOf(ctx.Snap())) == EvalExpr(w, fuel, e, old(ctx.create), old(MemOf(ctx.Snap())))
    decreases fuel, e, 1
  {
    r := RunFlagged(ctx, w, fuel, e.operand, false);
    if r.Raised? {
      return Raised(Wrapped(r.x));
    }
    r := Box(ctx, w.cast(e.typeName, ValueOf(r.h, ctx.boxes)));
  }

  method RunPrefix(ctx: Context, w: World, fuel: nat, e: Expr) returns (r: EvalResult)
    requires Consistent(ctx.Snap()) && Quiet(ctx.Snap()) && SoundWorld(w) && e.Prefix?
    modifies ctx
    ensures Tidy(old(ctx.Snap()), ctx.Snap())
    ensures (r, MemOf(ctx.Snap())) == EvalPrefix(w, fuel, e, old(MemOf(ctx.Snap())))
    decreases fuel, e, 1
  {
    if !IsPrefix(e.op) {
      return Raised(Failed(Unsupported));
    }
    r := RunFlagged(ctx, w, fuel, e.operand, IsIncDec(e.op));
    if r.Raised? {
      return Raised(if e.op == NOT then r.x else Wrapped(r.x));
    }
    if e.op == PLUS {
      return r;
    }
    var v := w.unop(e.op, ValueOf(r.h, ctx.boxes));
    if !IsIncDec(e.op) || v.Nothing? {
      r := Box(ctx, v);
    } else {
      var h := ctx.Assign(r.h, v.value);
      r := Value(h);
    }
  }

  method RunPostfix(ctx: Context, w: World, fuel: nat, e: Expr) returns (r: EvalResult)
    requires Consistent(ctx.Snap()) && Quiet(ctx.Snap()) && SoundWorld(w) && e.Postfix?
    modifies ctx
    ensures Tidy(old(ctx.Snap()), ctx.Snap())
    ensures (r, MemOf(ctx.Snap())) == EvalPostfix(w, fuel, e, old(MemOf(ctx.Snap())))
    decreases fuel, e, 1
  {
    if !IsIncDec(e.op) {
      return Raised(Failed(Unsupported));
    }
    r := RunFlagged(ctx, w, fuel, e.operand, true);
    if r.Raised? {
      return r;
    }
    var before := ValueOf(r.h, ctx.boxes);
    var v := w.unop(e.op, before);
    if v.Nothing? {
      return Raised(Failed(BadOperation));
    }
    var _ := ctx.Assign(r.h, v.value);
    r := Box(ctx, Just(before));
  }

  method RunAssign(ctx: Context, w: World, fuel: nat, e: Expr) returns (r: EvalResult)
    requires Consistent(ctx.Snap()) && Quiet(ctx.Snap()) && SoundWorld(w) && e.Binop?
    modifies ctx
    ensures Tidy(old(ctx.Snap()), ctx.Snap())
    ensures (r, MemOf(ctx.Snap())) == EvalAssign(w, fuel, e, old(ctx.create), old(MemOf(ctx.Snap())))
    decreases fuel, e, 0
  {
    r := RunExpr(ctx, w, fuel, e.right);
    if r.Raised? {
      return r;
    }
    var l := RunFlagged(ctx, w, fuel, e.left, true);
    if l.Raised? {
      return l;
    }
    var h := ctx.Assign(l.h, ValueOf(r.h, ctx.boxes));
    return Value(h);
  }

  method RunUpdate(ctx: Context, w: World, fuel: nat, e: Expr) returns (r: EvalResult)
    requires Consistent(ctx.Snap()) && Quiet(ctx.Snap()) && SoundWorld(w) && e.Binop?
    modifies ctx
    ensures Tidy(old(ctx.Snap()), ctx.Snap())
    ensures (r, MemOf(ctx.Snap())) == EvalUpdate(w, fuel, e, old(ctx.create), old(MemOf(ctx.Snap())))
    decreases fuel, e, 0
  {
    r := RunExpr(ctx, w, fuel, e.right);
    if r.Raised? {
      return r;
    }
    var l := RunFlagged(ctx, w, fuel, e.left, true);
    if l.Raised? {
      return l;
    }
    match Combine(w, e.op, ValueOf(l.h, ctx.boxes), ValueOf(r.h, ctx.boxes)) {
      case Keep => return l;
      case Throws => return Raised(Failed(BadOperation));
      case Put(v) =>
        var h := ctx.Assign(l.h, v);
        return Value(h);
    }
  }

  method RunShortCircuit(ctx: Context, w: World, fuel: nat, e: Expr) returns (r: EvalResult)
    requires Consistent(ctx.Snap()) && Quiet(ctx.Snap()) && SoundWorld(w) && e.Binop?
    modifies ctx
    ensures Tidy(old(ctx.Snap()), ctx.Snap())
    ensures (r, MemOf(ctx.Snap())) == EvalShortCircuit(w, fuel, e, old(MemOf(ctx.Snap())))
    decreases fuel, e, 0
  {
    r := RunFlagged(ctx, w, fuel, e.left, false);
    if r.Raised? {
      return r;
    }
    var b := w.truth(ValueOf(r.h, ctx.boxes));
    if b.Nothing? {
      return Raised(Failed(BadCondition));
    }
    if b.value != e.op.OR? {
      r := RunFlagged(ctx, w, fuel, e.right, false);
      if r.Raised? {
        return r;
      }
      b := w.truth(ValueOf(r.h, ctx.boxes));
      if b.Nothing? {
        return Raised(Failed(BadCondition));
      }
    }
    r := Box(ctx, Just(Flag(b.value)));
  }

  method RunBinary(ctx: Context, w: World, fuel: nat, e: Expr) returns (r: EvalResult)
    requires Consistent(ctx.Snap()) && Quiet(ctx.Snap()) && SoundWorld(w) && e.Binop?
    modifies ctx
    ensures Tidy(old(ctx.Snap()), ctx.Snap())
    ensures (r, MemOf(ctx.Snap())) == EvalBinary(w, fuel, e, old(MemOf(ctx.Snap())))
    decreases fuel, e, 0
  {
    var a := RunFlagged(ctx, w, fuel, if RightFirst(e.op) then e.right else e.left, false);
    if a.Raised? {
      return a;
    }
    var b := RunFlagged(ctx, w, fuel, if RightFirst(e.op) then e.left else e.right, false);
    if b.Raised? {
      return b;
    }
    var x, y := ValueOf(a.h, ctx.boxes), ValueOf(b.h, ctx.boxes);
    r := Box(ctx, if RightFirst(e.op) then w.binop(e.op, y, x) else w.binop(e.op, x, y));
  }

  method RunTernop(ctx: Context, w: World, fuel: nat, e: Expr) returns (r: EvalResult)
    requires Consistent(ctx.Snap()) && Quiet(ctx.Snap()) && SoundWorld(w) && e.Ternop?
    modifies ctx
    ensures Tidy(old(ctx.Snap()), ctx.Snap())
    ensures (r, MemOf(ctx.Snap())) == EvalExpr(w, fuel, e, old(ctx.create), old(MemOf(ctx.Snap())))
    decreases fuel, e, 1
  {
    r := RunExpr(ctx, w, fuel, e.cond);
    if r.Raised? {
      return r;
    }
    var b := w.truth(ValueOf(r.h, ctx.boxes));
    if b.Nothing? {
      return Raised(Failed(BadCondition));
    }
    if b.value {
      r := RunExpr(ctx, w, fuel, e.onTrue);
    } else {
      r := RunExpr(ctx, w, fuel, e.onFalse);
    }
  }

  method RunArgs(ctx: Context, w: World, fuel: nat, args: seq<Expr>) returns (r: ArgsResult)
    requires Consistent(ctx.Snap()) && Quiet(ctx.Snap()) && SoundWorld(w)
    modifies ctx
    ensures Tidy(old(ctx.Snap()), ctx.Snap())
    ensures (r, MemOf(ctx.Snap())) == EvalArgs(w, fuel, args, old(MemOf(ctx.Snap())))
    decreases fuel, args, 0
  {
    var got: seq<Handle> := [];
    var i := 0;
    ghost var rest := EvalArgs(w, fuel, args, MemOf(ctx.Snap()));
    assert rest.0.Args? ==> [] + rest.0.hs == rest.0.hs;
    assert args[0..] == args;
    while i < |args|
      invariant 0 <= i <= |args| && Tidy(old(ctx.Snap()), ctx.Snap())
      invariant rest == EvalArgs(w, fuel, args[i..], MemOf(ctx.Snap()))
      invariant EvalArgs(w, fuel, args, old(MemOf(ctx.Snap()))) ==
        (if rest.0.Args? then Args(got + rest.0.hs) else rest.0, rest.1)
    {
      assert args[i..][0] == args[i] && args[i..][1..] == args[i + 1..];
      var v := RunFlagged(ctx, w, fuel, args[i], false);
      if v.Raised? {
        return ArgsRaised(v.x);
      }
      rest := EvalArgs(w, fuel, args[i + 1..], MemOf(ctx.Snap()));
      assert rest.0.Args? ==> got + ([v.h] + rest.0.hs) == (got + [v.h]) + rest.0.hs;
      got := got + [v.h];
      i := i + 1;
    }
    assert got + [] == got;
    return Args(got);
  }

  method RunCallee(ctx: Context, w: World, fuel: nat, func: Expr) returns (r: EvalResult)
    requires Consistent(ctx.Snap()) && Quiet(ctx.Snap()) && SoundWorld(w) && !ctx.create
    modifies ctx
    ensures Tidy(old(ctx.Snap()), ctx.Snap())
    ensures (r, MemOf(ctx.Snap())) == EvalCallee(w, fuel, func, old(MemOf(ctx.Snap())))
    decreases fuel, func, 4
  {
    if func.Sym? {
      r := ctx.FindFunc(w, func.name);
    } else {
      r := RunExpr(ctx, w, fuel, func);
    }
  }

  method RunCall(ctx: Context, w: World, fuel: nat, e: Expr) returns (r: EvalResult)
    requires Consistent(ctx.Snap()) && Quiet(ctx.Snap()) && SoundWorld(w) && e.Call?
    modifies ctx
    ensures Tidy(old(ctx.Snap()), ctx.Snap())
    ensures (r, MemOf(ctx.Snap())) == EvalCall(w, fuel, e, old(MemOf(ctx.Snap())))
    decreases fuel, e, 1
  {
    var before := ctx.SetCreateIfNotExists(false);
    FlagIsNoMemory(old(ctx.Snap()), ctx.Snap());
    r := RunCallUnflagged(ctx, w, fuel, e);
    ghost var end := ctx.Snap();
    var _ := ctx.SetCreateIfNotExists(before);
    FlagIsNoMemory(end, ctx.Snap());
  }

  method RunCallUnflagged(ctx: Context, w: World, fuel: nat, e: Expr) returns (r: EvalResult)
    requires Consistent(ctx.Snap()) && Quiet(ctx.Snap()) && SoundWorld(w) && e.Call? && !ctx.create
    modifies ctx
    ensures Tidy(old(ctx.Snap()), ctx.Snap())
    ensures (r, MemOf(ctx.Snap())) == EvalCall(w, fuel, e, old(MemOf(ctx.Snap())))
    decreases fuel, e, 0
  {
    var f := RunCallee(ctx, w, fuel, e.func);
    if f.Raised? {
      return f;
    }
    var fn := ValueOf(f.h, ctx.boxes);
    if !fn.Func? {
      return Raised(Failed(NotAFunction));
    }
    var args := RunArgs(ctx, w, fuel, e.args);
    if args.ArgsRaised? {
      return Raised(args.x);
    }
    r := RunInvoke(ctx, w, fuel, e.func, fn, args.hs);
  }

  method RunInvoke(ctx: Context, w: World, fuel: nat, func: Expr, fn: Val, args: seq<Handle>) returns (r: EvalResult)
    requires Consistent(ctx.Snap()) && Quiet(ctx.Snap()) && SoundWorld(w) && !ctx.create && fn.Func?
    modifies ctx
    ensures Tidy(old(ctx.Snap()), ctx.Snap())
    ensures (r, MemOf(ctx.Snap())) == Invoke(w, fuel, func, fn, args, old(MemOf(ctx.Snap())))
    decreases fuel, func, 1
  {
    var actuals := if IsThisMember(func) then [Nothing] + args else args;
    if fn.user {
      if fuel == 0 {
        return Raised(OutOfFuel);
      }
      r := RunUserCall(ctx, w, fuel, func, fn.name, actuals);
    } else if fn.name in w.hostFuns {
      var v := w.hostFuns[fn.name](ValuesOf(actuals, ctx.boxes));
      if v.Nothing? {
        return Raised(Failed(HostFailed));
      }
      r := Box(ctx, v);
    } else {
      return Raised(Failed(HostFailed));
    }
  }

  /** The barrier hides the caller's frames while the function runs, and is cleared on every exit. */
  method RunUserCall(ctx: Context, w: World, fuel: nat, ghost func: Expr, name: string, actuals: seq<Handle>) returns (r: EvalResult)
    requires Consistent(ctx.Snap()) && Quiet(ctx.Snap()) && SoundWorld(w) && !ctx.create && fuel > 0
    modifies ctx
    ensures Tidy(old(ctx.Snap()), ctx.Snap())
    ensures var (r', boxes) := CallUser(w, fuel - 1, name, actuals, old(ctx.boxes));
      r == r' && MemOf(ctx.Snap()) == old(MemOf(ctx.Snap())).(boxes := boxes)
    decreases fuel, func, 0
  {
    ctx.SetStackBarrier();
    r := SelectUserFunction(ctx, w, fuel - 1, name, actuals);
    ctx.ClearStackBarrier();
    BackFromCall(old(ctx.Snap()), ctx.Snap());
  }

  /** Back from a call: everything up to the caller's top frame is as it was. */
  lemma BackFromCall(a: Snapshot, b: Snapshot)
    requires Consistent(a) && b.ptr == a.ptr < |b.stack| && b.barriers == a.barriers && b.depth == a.depth
    requires b.create == a.create && b.fields == a.fields && b.stack[..a.ptr + 1] == a.stack[..a.ptr + 1]
    requires forall i :: b.ptr < i < |b.stack| ==> b.stack[i] == map[]
    ensures Restored(a, b) && MemOf(b) == MemOf(a).(boxes := b.boxes)
  {
    SlicesAgree(b.stack, a.stack, Base(a), a.ptr + 1);
  }

  /** Two callers with the same boxes get the same result from a function, whatever their frames
      and instance fields are, and find both as they left them. */
  lemma CallsAreIsolated(w: World, fuel: nat, func: Expr, fn: Val, args: seq<Handle>, a: Mem, b: Mem)
    requires |a.frames| > 0 && |b.frames| > 0 && a.boxes == b.boxes && fn.Func?
    ensures var (r, m), (r', m') := Invoke(w, fuel, func, fn, args, a), Invoke(w, fuel, func, fn, args, b);
      r == r' && m == a.(boxes := m.boxes) && m' == b.(boxes := m.boxes)
  {
  }

  /** The user function selector: count the depth, push a frame, bind the formals, run the body,
      and undo all of it whichever way the body ends. The caller has set the barrier. */
  method SelectUserFunction(ctx: Context, w: World, fuel: nat, name: string, args: seq<Handle>) returns (r: EvalResult)
    requires ctx.StackOk() && 0 <= ctx.ptr && Quiet(ctx.Snap()) && SoundWorld(w) && !ctx.create && ctx.depth >= 0
    requires |ctx.barriers| > 0 && ctx.barriers[|ctx.barriers| - 1] == ctx.ptr
    modifies ctx
    ensures ctx.StackOk() && Quiet(ctx.Snap())
    ensures unchanged(ctx`ptr) && unchanged(ctx`barriers) && unchanged(ctx`depth) && unchanged(ctx`create) && unchanged(ctx`fields)
    ensures ctx.stack[..ctx.ptr + 1] == old(ctx.stack[..ctx.ptr + 1])
    ensures (r, ctx.boxes) == CallUser(w, fuel, name, args, old(ctx.boxes))
    decreases fuel
  {
    if name !in w.userFuns {
      return Raised(Failed(NoSuchFunction));
    }
    var f := w.userFuns[name];
    ctx.depth := ctx.depth + 1;
    ctx.NewStackFrame();
    var bound := BindActuals(ctx, f.formals, args);
    if !bound {
      r := Raised(Fault);
    } else {
      r := RunBody(ctx, w, fuel, f);
    }
    ctx.returning := false;
    ctx.DelStackFrame();
    ctx.depth := ctx.depth - 1;
  }

  /** Run the body in the frame that holds the bound formals. */
  method RunBody(ctx: Context, w: World, fuel: nat, f: FunDef) returns (r: EvalResult)
    requires Consistent(ctx.Snap()) && Quiet(ctx.Snap()) && SoundWorld(w) && !ctx.create && ctx.depth > 0
    requires Base(ctx.Snap()) == ctx.ptr && WellNested(f.body, false)
    modifies ctx
    ensures Restored(old(ctx.Snap()), ctx.Snap()) && !ctx.breaking && !ctx.continuing
    ensures (r, ctx.boxes) == BodyResult(w, fuel, f, old(ctx.stack[ctx.ptr]), old(ctx.boxes))
    decreases fuel, f.body, 6
  {
    assert MemOf(ctx.Snap()).frames == [ctx.stack[ctx.ptr]];
    NoStrayJump(w, fuel, f.body, false, MemOf(ctx.Snap()));
    var x := RunStmt(ctx, w, fuel, f.body);
    if x.Just? {
      r := Raised(x.value);
    } else if ctx.returning {
      r := Value(ctx.result);
    } else {
      r := Value(Nothing);
    }
  }

  method BindActuals(ctx: Context, formals: seq<string>, args: seq<Handle>) returns (bound: bool)
    requires ctx.StackOk() && 0 <= ctx.ptr && ctx.stack[ctx.ptr] == map[]
    modifies ctx`stack
    ensures ctx.StackOk() && |ctx.stack| == old(|ctx.stack|) && ctx.stack[..ctx.ptr] == old(ctx.stack[..ctx.ptr])
    ensures bound == BindFormals(formals, args, |formals|).Just?
    ensures bound ==> ctx.stack[ctx.ptr] == BindFormals(formals, args, |formals|).value
  {
    var i := 0;
    while i < |formals|
      invariant 0 <= i <= |formals| && ctx.StackOk() && |ctx.stack| == old(|ctx.stack|) && ctx.stack[..ctx.ptr] == old(ctx.stack[..ctx.ptr])
      invariant BindFormals(formals, args, i) == Just(ctx.stack[ctx.ptr])
    {
      if i >= |args| + 2 {
        ctx.SetLocalValue(formals[i], Nothing);
      } else if i < |args| {
        ctx.SetLocalValue(formals[i], args[i]);
      } else {
        BindFails(formals, args, i + 1);
        return false;
      }
      i := i + 1;
    }
    return true;
  }

  lemma {:induction false} BindFails(formals: seq<string>, args: seq<Handle>, i: nat)
    requires i <= |formals| && BindFormals(formals, args, i).Nothing?
    ensures BindFormals(formals, args, |formals|).Nothing?
    decreases |formals| - i
  {
    if i < |formals| {
      BindFails(formals, args, i + 1);
    }
  }

  // ------------------------------------------------------------------ statements

  method RunStmt(ctx: Context, w: World, fuel: nat, s: Stmt) returns (x: Maybe<Raise>)
    requires Consistent(ctx.Snap()) && Quiet(ctx.Snap()) && SoundWorld(w) && !ctx.create
    modifies ctx
    ensures Restored(old(ctx.Snap()), ctx.Snap())
    ensures Encodes(ctx.Snap(), x, ExecStmt(w, fuel, s, old(MemOf(ctx.Snap()))).0)
    ensures MemOf(ctx.Snap()) == ExecStmt(w, fuel, s, old(MemOf(ctx.Snap()))).1
    decreases fuel, s, 5
  {
    x := Nothing;
    if ctx.SomeJumpRequested() {
      return;
    }
    match s
    case Empty =>
    case Eval(_) => x := RunEvaluating(ctx, w, fuel, s);
    case Throw(_) => x := RunEvaluating(ctx, w, fuel, s);
    case Return(_) => x := RunEvaluating(ctx, w, fuel, s);
    case TryCatch(_, _, _) => x := RunTry(ctx, w, fuel, s);
    case IfElse(_, _, _) => x := RunIf(ctx, w, fuel, s);
    case Compound(_, _) => x := RunCompound(ctx, w, fuel, s);
    case While(_, _) => x := RunLoop(ctx, w, fuel, s);
    case For(_, _, _, _) => x := RunLoop(ctx, w, fuel, s);
    case Continue => ctx.continuing := true;
    case Break => ctx.breaking := true;
  }

  /** Expression, throw and return statements. */
  method RunEvaluating(ctx: Context, w: World, fuel: nat, s: Stmt) returns (x: Maybe<Raise>)
    requires Consistent(ctx.Snap()) && Quiet(ctx.Snap()) && SoundWorld(w) && !ctx.create && (s.Eval? || s.Throw? || s.Return?)
    modifies ctx
    ensures Restored(old(ctx.Snap()), ctx.Snap())
    ensures Encodes(ctx.Snap(), x, ExecStmt(w, fuel, s, old(MemOf(ctx.Snap()))).0)
    ensures MemOf(ctx.Snap()) == ExecStmt(w, fuel, s, old(MemOf(ctx.Snap()))).1
    decreases fuel, s, 4
  {
    var r := RunExpr(ctx, w, fuel, s.expr);
    if r.Raised? {
      return Just(r.x);
    }
    x := Nothing;
    if s.Throw? {
      x := Just(Thrown(r.h));
    } else if s.Return? {
      RequestReturn(ctx, r.h);
    }
  }

  /** The value to return and the flag that says so. */
  method RequestReturn(ctx: Context, h: Handle)
    requires Consistent(ctx.Snap())
    modifies ctx`result, ctx`returning
    ensures ctx.Snap() == old(ctx.Snap()).(result := h, returning := true)
    ensures Restored(old(ctx.Snap()), ctx.Snap()) && MemOf(ctx.Snap()) == old(MemOf(ctx.Snap()))
  {
    ctx.result := h;
    ctx.returning := true;
  }

  method RunCompound(ctx: Context, w: World, fuel: nat, s: Stmt) returns (x: Maybe<Raise>)
    requires Consistent(ctx.Snap()) && Quiet(ctx.Snap()) && SoundWorld(w) && !ctx.create && s.Compound?
    modifies ctx
    ensures Restored(old(ctx.Snap()), ctx.Snap())
    ensures Encodes(ctx.Snap(), x, ExecStmt(w, fuel, s, old(MemOf(ctx.Snap()))).0)
    ensures MemOf(ctx.Snap()) == ExecStmt(w, fuel, s, old(MemOf(ctx.Snap()))).1
    decreases fuel, s, 4
  {
    if s.stats == [] {
      ghost var m := MemOf(ctx.Snap());
      assert Pop(Push(m, map[])) == m;
      return Nothing;
    }
    if s.own {
      ctx.NewStackFrame();
      Pushed(old(ctx.Snap()), ctx.Snap());
      ghost var mid := ctx.Snap();
      x := Process(ctx, w, fuel, s.stats);
      ghost var end := ctx.Snap();
      ctx.DelStackFrame();
      Popped(old(ctx.Snap()), mid, end, ctx.Snap());
    } else {
      x := Process(ctx, w, fuel, s.stats);
    }
  }

  /** After a push the visible frames are the old ones and an empty one. */
  lemma Pushed(a: Snapshot, b: Snapshot)
    requires Consistent(a) && b.ptr == a.ptr + 1 < |b.stack| && b.barriers == a.barriers
    requires b.stack[..b.ptr] == a.stack[..a.ptr + 1] && b.stack[b.ptr] == map[]
    requires forall i :: b.ptr < i < |b.stack| ==> b.stack[i] == map[]
    requires b.boxes == a.boxes && b.fields == a.fields && b.depth == a.depth
    ensures Consistent(b) && MemOf(b) == Push(MemOf(a), map[])
    ensures b.stack[..Base(a)] == a.stack[..Base(a)]
  {
    assert b.stack[..b.ptr][..Base(a)] == b.stack[..Base(a)];
    assert b.stack[Base(a)..b.ptr] == b.stack[..b.ptr][Base(a)..] == a.stack[..a.ptr + 1][Base(a)..];
  }

  /** Popping after a balanced run restores the frames below. */
  lemma Popped(a: Snapshot, mid: Snapshot, end: Snapshot, b: Snapshot)
    requires Consistent(a) && Consistent(mid) && Restored(mid, end)
    requires mid.ptr == a.ptr + 1 && mid.barriers == a.barriers && mid.depth == a.depth && mid.create == a.create
    requires mid.stack[..Base(a)] == a.stack[..Base(a)] && mid.fields == a.fields
    requires b.ptr == end.ptr - 1 && |b.stack| == |end.stack| && b.stack[..end.ptr] == end.stack[..end.ptr]
    requires forall i :: b.ptr < i < |b.stack| ==> b.stack[i] == map[]
    requires b.barriers == end.barriers && b.depth == end.depth && b.create == end.create
    requires b.fields == end.fields && b.boxes == end.boxes
    ensures Restored(a, b) && MemOf(b) == Pop(MemOf(end))
  {
    SlicesAgree(b.stack, end.stack, Base(a), end.ptr);
    SlicesAgree(mid.stack, end.stack, Base(a), Base(a));
    DropsLast(end.stack, Base(a), end.ptr);
  }

  lemma SlicesAgree<T>(a: seq<T>, b: seq<T>, k: nat, n: nat)
    requires k <= n <= |a| && n <= |b| && a[..n] == b[..n]
    ensures a[..k] == b[..k] && a[k..n] == b[k..n]
  {
    assert a[..k] == a[..n][..k] && b[..k] == b[..n][..k];
    assert a[k..n] == a[..n][k..] && b[k..n] == b[..n][k..];
  }

  lemma DropsLast<T>(a: seq<T>, k: nat, n: nat)
    requires k <= n < |a|
    ensures a[k..n + 1][..n - k] == a[k..n]
  {
  }

  /** Run statements one after another until a jump is requested or something is thrown. */
  method Process(ctx: Context, w: World, fuel: nat, stats: seq<Stmt>) returns (x: Maybe<Raise>)
    requires Consistent(ctx.Snap()) && Quiet(ctx.Snap()) && SoundWorld(w) && !ctx.create
    modifies ctx
    ensures Restored(old(ctx.Snap()), ctx.Snap())
    ensures Encodes(ctx.Snap(), x, ExecSeq(w, fuel, stats, old(MemOf(ctx.Snap()))).0)
    ensures MemOf(ctx.Snap()) == ExecSeq(w, fuel, stats, old(MemOf(ctx.Snap()))).1
    decreases fuel, stats, 0
  {
    var i := 0;
    while i < |stats|
      invariant 0 <= i <= |stats| && Restored(old(ctx.Snap()), ctx.Snap()) && Quiet(ctx.Snap())
      invariant ExecSeq(w, fuel, stats, old(MemOf(ctx.Snap()))) == ExecSeq(w, fuel, stats[i..], MemOf(ctx.Snap()))
    {
      assert stats[i..][0] == stats[i] && stats[i..][1..] == stats[i + 1..];
      x := RunStmt(ctx, w, fuel, stats[i]);
      if x.Just? || ctx.SomeJumpRequested() {
        return;
      }
      i := i + 1;
    }
    return Nothing;
  }

  method RunCond(ctx: Context, w: World, fuel: nat, cond: Expr) returns (c: Cond)
    requires Consistent(ctx.Snap()) && Quiet(ctx.Snap()) && SoundWorld(w) && !ctx.create
    modifies ctx
    ensures Tidy(old(ctx.Snap()), ctx.Snap())
    ensures (c, MemOf(ctx.Snap())) == EvalCond(w, fuel, cond, old(MemOf(ctx.Snap())))
    decreases fuel, cond, 4
  {
    var r := RunExpr(ctx, w, fuel, cond);
    if r.Raised? {
      return CondRaised(r.x);
    }
    var b := w.truth(ValueOf(r.h, ctx.boxes));
    return if b.Nothing? then CondRaised(Failed(BadCondition)) else Holds(b.value);
  }

  method RunIf(ctx: Context, w: World, fuel: nat, s: Stmt) returns (x: Maybe<Raise>)
    requires Consistent(ctx.Snap()) && Quiet(ctx.Snap()) && SoundWorld(w) && !ctx.create && s.IfElse?
    modifies ctx
    ensures Restored(old(ctx.Snap()), ctx.Snap())
    ensures Encodes(ctx.Snap(), x, ExecStmt(w, fuel, s, old(MemOf(ctx.Snap()))).0)
    ensures MemOf(ctx.Snap()) == ExecStmt(w, fuel, s, old(MemOf(ctx.Snap()))).1
    decreases fuel, s, 4
  {
    ctx.NewStackFrame();
    Pushed(old(ctx.Snap()), ctx.Snap());
    ghost var mid := ctx.Snap();
    x := RunBranches(ctx, w, fuel, s);
    ghost var end := ctx.Snap();
    ctx.DelStackFrame();
    Popped(old(ctx.Snap()), mid, end, ctx.Snap());
  }

  method RunBranches(ctx: Context, w: World, fuel: nat, s: Stmt) returns (x: Maybe<Raise>)
    requires Consistent(ctx.Snap()) && Quiet(ctx.Snap()) && SoundWorld(w) && !ctx.create && s.IfElse?
    modifies ctx
    ensures Restored(old(ctx.Snap()), ctx.Snap())
    ensures Encodes(ctx.Snap(), x, ExecIf(w, fuel, s, old(MemOf(ctx.Snap()))).0)
    ensures MemOf(ctx.Snap()) == ExecIf(w, fuel, s, old(MemOf(ctx.Snap()))).1
    decreases fuel, s, 3
  {
    var c := RunCond(ctx, w, fuel, s.cond);
    if c.CondRaised? {
      return Just(c.x);
    }
    x := Nothing;
    if c.b {
      x := RunStmt(ctx, w, fuel, s.yes);
    } else if s.no.SomeStmt? {
      x := RunStmt(ctx, w, fuel, s.no.stmt);
    }
  }

  method RunTry(ctx: Context, w: World, fuel: nat, s: Stmt) returns (x: Maybe<Raise>)
    requires Consistent(ctx.Snap()) && Quiet(ctx.Snap()) && SoundWorld(w) && !ctx.create && s.TryCatch?
    modifies ctx
    ensures Restored(old(ctx.Snap()), ctx.Snap())
    ensures Encodes(ctx.Snap(), x, ExecStmt(w, fuel, s, old(MemOf(ctx.Snap()))).0)
    ensures MemOf(ctx.Snap()) == ExecStmt(w, fuel, s, old(MemOf(ctx.Snap()))).1
    decreases fuel, s, 4
  {
    ctx.NewStackFrame();
    Pushed(old(ctx.Snap()), ctx.Snap());
    ghost var mid := ctx.Snap();
    x := RunGuarded(ctx, w, fuel, s);
    ghost var end := ctx.Snap();
    ctx.DelStackFrame();
    Popped(old(ctx.Snap()), mid, end, ctx.Snap());
  }

  method RunGuarded(ctx: Context, w: World, fuel: nat, s: Stmt) returns (x: Maybe<Raise>)
    requires Consistent(ctx.Snap()) && Quiet(ctx.Snap()) && SoundWorld(w) && !ctx.create && s.TryCatch?
    modifies ctx
    ensures Restored(old(ctx.Snap()), ctx.Snap())
    ensures Encodes(ctx.Snap(), x, ExecTry(w, fuel, s, old(MemOf(ctx.Snap()))).0)
    ensures MemOf(ctx.Snap()) == ExecTry(w, fuel, s, old(MemOf(ctx.Snap()))).1
    decreases fuel, s, 3
  {
    x := RunStmt(ctx, w, fuel, s.body);
    if x.Just? && Catchable(x.value) {
      if s.catchExpr.Sym? {
        x := RunCatch(ctx, w, fuel, s, x.value);
      } else {
        x := RunStmt(ctx, w, fuel, s.handler);
      }
    }
  }

  method RunCatch(ctx: Context, w: World, fuel: nat, s: Stmt, caught: Raise) returns (x: Maybe<Raise>)
    requires Consistent(ctx.Snap()) && Quiet(ctx.Snap()) && SoundWorld(w) && !ctx.create && s.TryCatch? && s.catchExpr.Sym?
    modifies ctx
    ensures Restored(old(ctx.Snap()), ctx.Snap())
    ensures Encodes(ctx.Snap(), x, ExecHandler(w, fuel, s, caught, Push(old(MemOf(ctx.Snap())), map[])).0)
    ensures MemOf(ctx.Snap()) == Pop(ExecHandler(w, fuel, s, caught, Push(old(MemOf(ctx.Snap())), map[])).1)
    decreases fuel, s, 2
  {
    ctx.NewStackFrame();
    Pushed(old(ctx.Snap()), ctx.Snap());
    ghost var mid := ctx.Snap();
    x := RunHandler(ctx, w, fuel, s, caught);
    ghost var end := ctx.Snap();
    ctx.DelStackFrame();
    Popped(old(ctx.Snap()), mid, end, ctx.Snap());
  }

  method RunHandler(ctx: Context, w: World, fuel: nat, s: Stmt, caught: Raise) returns (x: Maybe<Raise>)
    requires Consistent(ctx.Snap()) && Quiet(ctx.Snap()) && SoundWorld(w) && !ctx.create && s.TryCatch? && s.catchExpr.Sym?
    modifies ctx
    ensures Restored(old(ctx.Snap()), ctx.Snap())
    ensures Encodes(ctx.Snap(), x, ExecHandler(w, fuel, s, caught, old(MemOf(ctx.Snap()))).0)
    ensures MemOf(ctx.Snap()) == ExecHandler(w, fuel, s, caught, old(MemOf(ctx.Snap()))).1
    decreases fuel, s, 1
  {
    AssignCaught(ctx, w, s.catchExpr.name, caught);
    x := RunStmt(ctx, w, fuel, s.handler);
  }

  method AssignCaught(ctx: Context, w: World, name: string, caught: Raise)
    requires Consistent(ctx.Snap()) && Quiet(ctx.Snap())
    modifies ctx
    ensures Tidy(old(ctx.Snap()), ctx.Snap())
    ensures MemOf(ctx.Snap()) == BindCaught(w, name, caught, old(MemOf(ctx.Snap())))
  {
    var ce := FindOrCreate(ctx, w, name);
    var _ := ctx.Assign(ce.h, Caught(w, caught, ctx.boxes));
  }

  method FindOrCreate(ctx: Context, w: World, name: string) returns (r: EvalResult)
    requires Consistent(ctx.Snap()) && Quiet(ctx.Snap())
    modifies ctx
    ensures Tidy(old(ctx.Snap()), ctx.Snap()) && r.Value?
    ensures (r, MemOf(ctx.Snap())) == Lookup(w, name, true, old(MemOf(ctx.Snap())))
  {
    var before := ctx.SetCreateIfNotExists(true);
    FlagIsNoMemory(old(ctx.Snap()), ctx.Snap());
    r := ctx.FindValBySymName(w, name);
    ghost var end := ctx.Snap();
    var _ := ctx.SetCreateIfNotExists(before);
    FlagIsNoMemory(end, ctx.Snap());
  }

  /** While and for statements: one frame for the whole statement. */
  method RunLoop(ctx: Context, w: World, fuel: nat, s: Stmt) returns (x: Maybe<Raise>)
    requires Consistent(ctx.Snap()) && Quiet(ctx.Snap()) && SoundWorld(w) && !ctx.create && IsLoop(s)
    modifies ctx
    ensures Restored(old(ctx.Snap()), ctx.Snap())
    ensures Encodes(ctx.Snap(), x, ExecStmt(w, fuel, s, old(MemOf(ctx.Snap()))).0)
    ensures MemOf(ctx.Snap()) == ExecStmt(w, fuel, s, old(MemOf(ctx.Snap()))).1
    decreases fuel, s, 4
  {
    ctx.NewStackFrame();
    Pushed(old(ctx.Snap()), ctx.Snap());
    ghost var mid := ctx.Snap();
    LoopInItsFrame(w, fuel, s, old(MemOf(ctx.Snap())));
    x := RunEntered(ctx, w, fuel, s);
    ghost var end := ctx.Snap();
    ctx.DelStackFrame();
    Popped(old(ctx.Snap()), mid, end, ctx.Snap());
  }

  /** A loop in the frame that was pushed for it: initialisation, then the rounds. */
  ghost function Entered(w: World, fuel: nat, s: Stmt, m: Mem): (r: (Outcome, Mem))
    requires |m.frames| > 0 && IsLoop(s)
    ensures |r.1.frames| == |m.frames|
  {
    if s.While? then ExecLoop(w, fuel, s, m)
    else
      var (r, m0) := EvalExpr(w, fuel, s.init, false, m);
      if r.Raised? then (Raising(r.x), m0) else ExecLoop(w, fuel, s, m0)
  }

  lemma LoopInItsFrame(w: World, fuel: nat, s: Stmt, m: Mem)
    requires |m.frames| > 0 && IsLoop(s)
    ensures var (o, m1) := Entered(w, fuel, s, Push(m, map[])); ExecStmt(w, fuel, s, m) == (o, Pop(m1))
  {
  }

  method RunEntered(ctx: Context, w: World, fuel: nat, s: Stmt) returns (x: Maybe<Raise>)
    requires Consistent(ctx.Snap()) && Quiet(ctx.Snap()) && SoundWorld(w) && !ctx.create && IsLoop(s)
    modifies ctx
    ensures Restored(old(ctx.Snap()), ctx.Snap())
    ensures Encodes(ctx.Snap(), x, Entered(w, fuel, s, old(MemOf(ctx.Snap()))).0)
    ensures MemOf(ctx.Snap()) == Entered(w, fuel, s, old(MemOf(ctx.Snap()))).1
    decreases fuel, s, 3, 1
  {
    if s.For? {
      var r := RunExpr(ctx, w, fuel, s.init);
      if r.Raised? {
        return Just(r.x);
      }
    }
    x := RunRounds(ctx, w, fuel, s);
  }

  method RunAdvance(ctx: Context, w: World, fuel: nat, s: Stmt) returns (r: EvalResult)
    requires Consistent(ctx.Snap()) && Quiet(ctx.Snap()) && SoundWorld(w) && !ctx.create && IsLoop(s)
    modifies ctx
    ensures Tidy(old(ctx.Snap()), ctx.Snap())
    ensures (r, MemOf(ctx.Snap())) == Advance(w, fuel, s, old(MemOf(ctx.Snap())))
    decreases fuel, s, 1
  {
    if s.While? {
      return Value(Nothing);
    }
    r := RunExpr(ctx, w, fuel, s.incr);
  }

  /** The loop itself: test, then body, flags, increment and test again. */
  method RunRounds(ctx: Context, w: World, fuel: nat, s: Stmt) returns (x: Maybe<Raise>)
    requires Consistent(ctx.Snap()) && Quiet(ctx.Snap()) && SoundWorld(w) && !ctx.create && IsLoop(s)
    modifies ctx
    ensures Restored(old(ctx.Snap()), ctx.Snap())
    ensures Encodes(ctx.Snap(), x, ExecLoop(w, fuel, s, old(MemOf(ctx.Snap()))).0)
    ensures MemOf(ctx.Snap()) == ExecLoop(w, fuel, s, old(MemOf(ctx.Snap()))).1
    decreases fuel, s, 3, 0
  {
    var c := RunCond(ctx, w, fuel, s.cond);
    if c.CondRaised? {
      return Just(c.x);
    }
    var bcond := c.b;
    var left: nat := fuel;
    while bcond
      invariant left <= fuel && Restored(old(ctx.Snap()), ctx.Snap()) && Quiet(ctx.Snap())
      invariant ExecLoop(w, fuel, s, old(MemOf(ctx.Snap()))) ==
        if bcond then Again(w, left, s, MemOf(ctx.Snap())) else (Normal, MemOf(ctx.Snap()))
      decreases left, bcond
    {
      if left == 0 {
        return Just(OutOfFuel);
      }
      left := left - 1;
      x, bcond := RunRound(ctx, w, left, s);
      if x.Just? || ctx.returning {
        return;
      }
    }
    return Nothing;
  }

  /** One round: body, flags, then increment and test unless the body asked to continue, which
      goes round again at once, or to break. */
  method RunRound(ctx: Context, w: World, fuel: nat, s: Stmt) returns (x: Maybe<Raise>, again: bool)
    requires Consistent(ctx.Snap()) && Quiet(ctx.Snap()) && SoundWorld(w) && !ctx.create && IsLoop(s)
    modifies ctx
    ensures Restored(old(ctx.Snap()), ctx.Snap()) && !ctx.breaking && !ctx.continuing && (x.Just? ==> !ctx.returning)
    ensures Round(w, fuel, s, old(MemOf(ctx.Snap()))) ==
      if x.Just? then (Raising(x.value), MemOf(ctx.Snap()))
      else if ctx.returning then (Returned(ctx.result), MemOf(ctx.Snap()))
      else if again then Again(w, fuel, s, MemOf(ctx.Snap()))
      else (Normal, MemOf(ctx.Snap()))
    decreases fuel
  {
    again := false;
    x := RunStmt(ctx, w, fuel, s.body);
    if x.Just? || ctx.returning {
      return;
    }
    if ctx.continuing {
      ctx.continuing := false;
      again := true;
      return;
    }
    if ctx.breaking {
      ctx.breaking := false;
      return;
    }
    x, again := RunOnward(ctx, w, fuel, s);
  }

  /** After a body that ended normally: the increment, then the loop from its test on. */
  ghost function Onward(w: World, fuel: nat, s: Stmt, m: Mem): (r: (Outcome, Mem))
    requires |m.frames| > 0 && IsLoop(s)
  {
    var (r, m1) := Advance(w, fuel, s, m);
    if r.Raised? then (Raising(r.x), m1) else ExecLoop(w, fuel, s, m1)
  }

  method RunOnward(ctx: Context, w: World, fuel: nat, s: Stmt) returns (x: Maybe<Raise>, again: bool)
    requires Consistent(ctx.Snap()) && Quiet(ctx.Snap()) && SoundWorld(w) && !ctx.create && IsLoop(s)
    modifies ctx
    ensures Tidy(old(ctx.Snap()), ctx.Snap())
    ensures Onward(w, fuel, s, old(MemOf(ctx.Snap()))) ==
      if x.Just? then (Raising(x.value), MemOf(ctx.Snap()))
      else if again then Again(w, fuel, s, MemOf(ctx.Snap()))
      else (Normal, MemOf(ctx.Snap()))
    decreases fuel, s, 2
  {
    var r := RunAdvance(ctx, w, fuel, s);
    if r.Raised? {
      return Just(r.x), false;
    }
    var c := RunCond(ctx, w, fuel, s.cond);
    if c.CondRaised? {
      return Just(c.x), false;
    }
    return Nothing, c.b;
  }

  // ------------------------------------------------------------------ cells

  datatype CellEnd = Gave(h: Handle) | GaveNothing | CellThrew(x: Raise)

  /** Empty the stack, point at the fields of the cell and push a frame with its arguments. */
  method EnterCell(ctx: Context, formals: seq<string>, args: seq<Handle>, fields: map<string, Handle>)
    requires ctx.StackOk() && |formals| == |args|
    modifies ctx`fields, ctx`stack, ctx`ptr, ctx`barriers, ctx`depth
    ensures Consistent(ctx.Snap()) && BindFormals(formals, args, |formals|).Just?
    ensures MemOf(ctx.Snap()) == Mem([BindFormals(formals, args, |formals|).value], ctx.boxes, Just(fields))
  {
    ctx.fields := fields;
    ctx.ClearStackSoft();
    ctx.NewStackFrame();
    AllBind(formals, args, |formals|);
    var _ := BindActuals(ctx, formals, args);
    assert MemOf(ctx.Snap()).frames == [ctx.stack[ctx.ptr]];
  }

  /** One execution of a cell body: reset the stack, push a frame with the arguments, run the
      body, and read the return flag. A body the parser accepts cannot end in a stray break or
      continue, so the flag tells everything. */
  method RunCell(ctx: Context, w: World, fuel: nat, formals: seq<string>, args: seq<Handle>, body: Stmt, fields: map<string, Handle>)
    returns (end: CellEnd)
    requires ctx.StackOk() && Quiet(ctx.Snap()) && !ctx.create && SoundWorld(w)
    requires WellNested(body, false) && |formals| == |args|
    modifies ctx
    ensures ctx.StackOk() && Quiet(ctx.Snap())
    ensures BindFormals(formals, args, |formals|).Just?
    ensures var (o, m) := ExecStmt(w, fuel, body, Mem([BindFormals(formals, args, |formals|).value], old(ctx.boxes), Just(fields)));
      && end == (match o case Returned(h) => Gave(h) case Raising(x) => CellThrew(x) case _ => GaveNothing)
      && (end == GaveNothing ==> o == Normal)
      && ctx.boxes == m.boxes && m.fields == Just(ctx.fields)
  {
    EnterCell(ctx, formals, args, fields);
    NoStrayJump(w, fuel, body, false, MemOf(ctx.Snap()));
    var x := RunStmt(ctx, w, fuel, body);
    if x.Just? {
      return CellThrew(x.value);
    }
    end := if ctx.returning then Gave(ctx.result) else GaveNothing;
    ctx.returning := false;
    ctx.breaking := false;
    ctx.continuing := false;
  }

  lemma {:induction false} AllBind(formals: seq<string>, args: seq<Handle>, i: nat)
    requires i <= |formals| <= |args|
    ensures BindFormals(formals, args, i).Just?
  {
    if i > 0 {
      AllBind(formals, args, i - 1);
    }
  }

  /** Binding succeeds exactly when no actual argument is missing: a call that supplies fewer
      actuals than there are formals reads out of bounds. */
  lemma {:induction false} BindsIffEnoughActuals(formals: seq<string>, args: seq<Handle>)
    ensures BindFormals(formals, args, |formals|).Just? <==> |formals| <= |args|
  {
    if |formals| <= |args| {
      AllBind(formals, args, |formals|);
    } else {
      BindFails(formals, args, |args| + 1);
    }
  }
}
