/** Interpreted cell bodies as functions the schedulers can run, and the convergence of cells that
    return expressions. */
module InterpretedCells {
  import opened Wrappers
  import opened Syntax
  import opened Semantics
  import opened ExecutionContext
  import CellGraph
  import CycleScheduler
  import Interpreter

  /** What an execution finds besides its arguments: the boxes there are and the instance fields. */
  datatype Self = Self(boxes: seq<Val>, fields: map<string, Handle>)

  function ArgHandles(base: nat, n: nat): (r: seq<Handle>)
    ensures |r| == n
  {
    seq(n, i requires 0 <= i < n => Just(base + i))
  }

  /** One execution: the arguments are put into new boxes behind those there are. */
  function Execute(w: World, fuel: nat, formals: seq<string>, body: Stmt, args: seq<Val>, self: Self): (CellGraph.Ending<Val>, Self) {
    var frame := BindFormals(formals, ArgHandles(|self.boxes|, |args|), |formals|);
    if frame.Nothing? then (CellGraph.Threw, self)
    else
      var (o, m) := ExecStmt(w, fuel, body, Mem([frame.value], self.boxes + args, Just(self.fields)));
      (match o
       case Returned(h) => CellGraph.Returned(ValueOf(h, m.boxes))
       case Raising(_) => CellGraph.Threw
       case _ => CellGraph.NoReturn, Self(m.boxes, m.fields.value))
  }

  /** The interpreter's execution of a cell body is that function. */
  method RunCell(ctx: Context, w: World, fuel: nat, formals: seq<string>, body: Stmt, args: seq<Val>, fields: map<string, Handle>)
    returns (ending: CellGraph.Ending<Val>)
    requires ctx.StackOk() && Quiet(ctx.Snap()) && !ctx.create && Interpreter.SoundWorld(w)
    requires WellNested(body, false) && |formals| == |args|
    modifies ctx
    ensures ctx.StackOk() && Quiet(ctx.Snap())
    ensures (ending, Self(ctx.boxes, ctx.fields)) == Execute(w, fuel, formals, body, args, Self(old(ctx.boxes), fields))
  {
    var handles := BoxArguments(ctx, args);
    var end := Interpreter.RunCell(ctx, w, fuel, formals, handles, body, fields);
    ending := match end
      case Gave(h) => CellGraph.Returned(ValueOf(h, ctx.boxes))
      case GaveNothing => CellGraph.NoReturn
      case CellThrew(_) => CellGraph.Threw;
  }

  method BoxArguments(ctx: Context, args: seq<Val>) returns (handles: seq<Handle>)
    modifies ctx`boxes
    ensures ctx.boxes == old(ctx.boxes) + args && handles == ArgHandles(|old(ctx.boxes)|, |args|)
  {
    handles := [];
    while |handles| < |args|
      invariant |handles| <= |args| && ctx.boxes == old(ctx.boxes) + args[..|handles|]
      invariant handles == ArgHandles(|old(ctx.boxes)|, |handles|)
    {
      assert args[..|handles| + 1] == args[..|handles|] + [args[|handles|]];
      var h := ctx.NewBox(args[|handles|]);
      handles := handles + [h];
    }
    assert args[..|args|] == args;
  }

  // ------------------------------------------------------------------ expressions over the parameters

  /** Parameters, global constants and operators that store nothing. Literals are not among them:
      their boxes are shared, and what they hold is part of the state. */
  predicate Pure(w: World, formals: seq<string>, e: Expr) {
    match e
    case Sym(name) => name in formals || name in w.consts
    case Prefix(op, x) => IsPrefix(op) && !IsIncDec(op) && Pure(w, formals, x)
    case Cast(_, x) => Pure(w, formals, x)
    case Binop(op, l, r) => BinaryLevel(op) > 0 && Pure(w, formals, l) && Pure(w, formals, r)
    case Ternop(c, t, f) => Pure(w, formals, c) && Pure(w, formals, t) && Pure(w, formals, f)
    case _ => false
  }

  /** The value of such an expression; nothing where an operator throws. */
  function Meaning(w: World, env: map<string, Val>, e: Expr): Maybe<Val> {
    match e
    case Sym(name) => if name in env then Just(env[name]) else if name in w.consts then Just(w.consts[name]) else Nothing
    case Prefix(op, x) =>
      var v := Meaning(w, env, x);
      if v.Nothing? || op.PLUS? then v else w.unop(op, v.value)
    case Cast(ty, x) =>
      var v := Meaning(w, env, x);
      if v.Nothing? then v else w.cast(ty, v.value)
    case Binop(op, l, r) =>
      var x, y := Meaning(w, env, l), Meaning(w, env, r);
      if op.AND? || op.OR? then Junction(w, op, x, y)
      else if x.Nothing? || y.Nothing? then Nothing
      else w.binop(op, x.value, y.value)
    case Ternop(c, t, f) =>
      var x := Truth(w, Meaning(w, env, c));
      if x.Nothing? then Nothing else if x.value then Meaning(w, env, t) else Meaning(w, env, f)
    case _ => Nothing
  }

  function Truth(w: World, v: Maybe<Val>): Maybe<bool> {
    if v.Nothing? then Nothing else w.truth(v.value)
  }

  function Junction(w: World, op: Kind, x: Maybe<Val>, y: Maybe<Val>): Maybe<Val> {
    var b := Truth(w, x);
    if b.Nothing? then Nothing
    else if b.value == op.OR? then Just(Flag(b.value))
    else
      var c := Truth(w, y);
      if c.Nothing? then Nothing else Just(Flag(c.value))
  }

  /** The frame binds exactly the names of `env`, to boxes that hold their values. */
  ghost predicate Binds(m: Mem, env: map<string, Val>) {
    |m.frames| == 1 && FrameBinds(m.frames[0], m.boxes, env)
  }

  ghost predicate FrameBinds(frame: Frame, boxes: seq<Val>, env: map<string, Val>) {
    frame.Keys == env.Keys &&
    forall name :: name in env ==> frame[name].Just? && frame[name].value < |boxes| && boxes[frame[name].value] == env[name]
  }

  /** Evaluation stores into no box there was, and yields the meaning. */
  ghost predicate Yields(r: (EvalResult, Mem), m: Mem, v: Maybe<Val>) {
    && r.1.frames == m.frames && r.1.fields == m.fields && m.boxes <= r.1.boxes
    && if v.Just? then r.0.Value? && r.0.h.Just? && r.0.h.value < |r.1.boxes| && r.1.boxes[r.0.h.value] == v.value else r.0.Raised?
  }

  ghost predicate Fits(formals: seq<string>, env: map<string, Val>) {
    forall name :: name in env <==> name in formals
  }

  lemma {:induction false} PureYields(w: World, fuel: nat, formals: seq<string>, e: Expr, m: Mem, env: map<string, Val>)
    requires Pure(w, formals, e) && Binds(m, env) && Fits(formals, env)
    ensures Yields(EvalExpr(w, fuel, e, false, m), m, Meaning(w, env, e))
    decreases e, 1
  {
    if e.Sym? {
      NameYields(w, fuel, e.name, m, env);
    } else if e.Prefix? {
      PurePrefix(w, fuel, formals, e, m, env);
    } else if e.Cast? {
      PureYields(w, fuel, formals, e.operand, m, env);
    } else if e.Ternop? {
      PureTernop(w, fuel, formals, e, m, env);
    } else {
      Dispatch(w, fuel, e, m);
      if e.op.AND? || e.op.OR? {
        PureShortCircuit(w, fuel, formals, e, m, env);
      } else {
        PureBinary(w, fuel, formals, e, m, env);
      }
    }
  }

  lemma NameYields(w: World, fuel: nat, name: string, m: Mem, env: map<string, Val>)
    requires Binds(m, env) && (name in env || name in w.consts)
    ensures Yields(EvalExpr(w, fuel, Sym(name), false, m), m, Meaning(w, env, Sym(name)))
  {
    assert FindVar(m.frames[..0], name).Nothing?;
  }

  /** Operators of a priority level are evaluated as such. */
  lemma Dispatch(w: World, fuel: nat, e: Expr, m: Mem)
    requires e.Binop? && BinaryLevel(e.op) > 0 && |m.frames| > 0
    ensures EvalExpr(w, fuel, e, false, m) == if e.op.AND? || e.op.OR? then EvalShortCircuit(w, fuel, e, m) else EvalBinary(w, fuel, e, m)
  {
  }

  lemma {:induction false} PurePrefix(w: World, fuel: nat, formals: seq<string>, e: Expr, m: Mem, env: map<string, Val>)
    requires e.Prefix? && Pure(w, formals, e) && Binds(m, env) && Fits(formals, env)
    ensures Yields(EvalExpr(w, fuel, e, false, m), m, Meaning(w, env, e))
    decreases e, 0
  {
    PureYields(w, fuel, formals, e.operand, m, env);
    assert Yields(EvalPrefix(w, fuel, e, m), m, Meaning(w, env, e));
  }

  lemma {:induction false} PureTernop(w: World, fuel: nat, formals: seq<string>, e: Expr, m: Mem, env: map<string, Val>)
    requires e.Ternop? && Pure(w, formals, e) && Binds(m, env) && Fits(formals, env)
    ensures Yields(EvalExpr(w, fuel, e, false, m), m, Meaning(w, env, e))
    decreases e, 0
  {
    PureYields(w, fuel, formals, e.cond, m, env);
    var m1 := EvalExpr(w, fuel, e.cond, false, m).1;
    PureYields(w, fuel, formals, e.onTrue, m1, env);
    PureYields(w, fuel, formals, e.onFalse, m1, env);
  }

  lemma {:induction false} PureShortCircuit(w: World, fuel: nat, formals: seq<string>, e: Expr, m: Mem, env: map<string, Val>)
    requires Pure(w, formals, e) && Binds(m, env) && Fits(formals, env) && e.Binop? && (e.op.AND? || e.op.OR?)
    ensures Yields(EvalShortCircuit(w, fuel, e, m), m, Meaning(w, env, e))
    decreases e, 0
  {
    PureYields(w, fuel, formals, e.left, m, env);
    PureYields(w, fuel, formals, e.right, EvalExpr(w, fuel, e.left, false, m).1, env);
  }

  lemma {:induction false} PureBinary(w: World, fuel: nat, formals: seq<string>, e: Expr, m: Mem, env: map<string, Val>)
    requires Pure(w, formals, e) && Binds(m, env) && Fits(formals, env) && e.Binop? && !e.op.AND? && !e.op.OR?
    ensures Yields(EvalBinary(w, fuel, e, m), m, Meaning(w, env, e))
    decreases e, 0
  {
    var a, b := if RightFirst(e.op) then e.right else e.left, if RightFirst(e.op) then e.left else e.right;
    PureYields(w, fuel, formals, a, m, env);
    PureYields(w, fuel, formals, b, EvalExpr(w, fuel, a, false, m).1, env);
  }

  // ------------------------------------------------------------------ cells that return an expression

  /** The parameters with their values; of a name that occurs twice the last. */
  function Env(formals: seq<string>, args: seq<Val>, i: nat): map<string, Val>
    requires i <= |formals| <= |args|
  {
    if i == 0 then map[] else Env(formals, args, i - 1)[formals[i - 1] := args[i - 1]]
  }

  lemma {:induction false} EnvNames(formals: seq<string>, args: seq<Val>, i: nat, name: string)
    requires i <= |formals| <= |args|
    ensures name in Env(formals, args, i) <==> name in formals[..i]
  {
    if i > 0 {
      EnvNames(formals, args, i - 1, name);
      assert formals[..i] == formals[..i - 1] + [formals[i - 1]];
    }
  }

  lemma {:induction false} ArgumentsAreBound(formals: seq<string>, args: seq<Val>, boxes: seq<Val>, i: nat)
    requires i <= |formals| <= |args|
    ensures var frame := BindFormals(formals, ArgHandles(|boxes|, |args|), i);
      frame.Just? && FrameBinds(frame.value, boxes + args, Env(formals, args, i))
  {
    if i > 0 {
      ArgumentsAreBound(formals, args, boxes, i - 1);
      assert (boxes + args)[|boxes| + i - 1] == args[i - 1];
    }
  }

  /** Such a cell returns what its expression means, whatever else it finds; or throws. */
  lemma ExpressionCell(w: World, fuel: nat, formals: seq<string>, e: Expr, args: seq<Val>, self: Self)
    requires Pure(w, formals, e) && |args| == |formals|
    ensures var v := Meaning(w, Env(formals, args, |formals|), e);
      Execute(w, fuel, formals, Return(e), args, self).0 == if v.Just? then CellGraph.Returned(v.value) else CellGraph.Threw
  {
    ArgumentsAreBound(formals, args, self.boxes, |formals|);
    var env := Env(formals, args, |formals|);
    assert formals[..|formals|] == formals;
    forall name ensures name in env <==> name in formals {
      EnvNames(formals, args, |formals|, name);
    }
    var m := Mem([BindFormals(formals, ArgHandles(|self.boxes|, |args|), |formals|).value], self.boxes + args, Just(self.fields));
    assert Binds(m, env);
    PureYields(w, fuel, formals, e, m, env);
  }

  /** A cell type of the language: its parameters and the expression it returns. */
  datatype Template = Template(formals: seq<string>, e: Expr)

  /** The expression is pure, and its operators are defined for all arguments. */
  ghost predicate Total(w: World, t: Template) {
    Pure(w, t.formals, t.e) &&
    forall args: seq<Val> :: |args| == |t.formals| ==> Meaning(w, Env(t.formals, args, |t.formals|), t.e).Just?
  }

  /** The cell types of the graph are those of the program. */
  ghost predicate Interprets(g: CellGraph.Graph<Val, Self>, w: World, fuel: nat, program: map<string, Template>) {
    && g.types.Keys == program.Keys
    && forall t :: t in program ==>
         && g.types[t].arity == |program[t].formals| && Total(w, program[t])
         && forall args: seq<Val>, s: Self :: g.types[t].body(args, s) == Execute(w, fuel, program[t].formals, Return(program[t].e), args, s)
  }

  /** What a template computes from arguments of the right number. */
  function Result(w: World, t: Template, args: seq<Val>): Val {
    if |args| != |t.formals| then Undefined
    else
      var v := Meaning(w, Env(t.formals, args, |t.formals|), t.e);
      if v.Just? then v.value else Undefined
  }

  function Results(w: World, program: map<string, Template>): map<string, seq<Val> -> Val> {
    map t | t in program :: (args => Result(w, program[t], args))
  }

  /** Interpreted cell types compute what their expressions mean. */
  lemma ExpressionsCompute(g: CellGraph.Graph<Val, Self>, w: World, fuel: nat, program: map<string, Template>)
    requires Interprets(g, w, fuel, program)
    ensures CellGraph.Computes(g, Results(w, program))
  {
    forall t, args: seq<Val>, s: Self | t in g.types && |args| == g.types[t].arity
      ensures g.types[t].body(args, s).0 == CellGraph.Returned(Results(w, program)[t](args))
    {
      ExpressionCell(w, fuel, program[t].formals, program[t].e, args, s);
    }
  }

  /** So an acyclic graph of interpreted cells converges to the meaning of their expressions: after
      as many passes as the rank of a cell, in any orders and from any values and boxes, it holds
      what its expression means for the settled values of its arguments. */
  lemma InterpretedConvergence(
    g: CellGraph.Graph<Val, Self>, w: World, fuel: nat, program: map<string, Template>, rank: map<string, nat>,
    cycles: seq<seq<string>>, c: CellGraph.Cells<Val, Self>, cell: string)
    requires Interprets(g, w, fuel, program) && CellGraph.WellWired(g) && CellGraph.Ranked(g, rank) && CellGraph.UniqueOutputs(g)
    requires CellGraph.Covers(g, c) && forall i :: 0 <= i < |cycles| ==> CycleScheduler.Traverses(g, cycles[i])
    requires cell in g.workers && rank[cell] <= |cycles|
    ensures CellGraph.Settling(g, Results(w, program), rank)
    ensures forall i, j :: 0 <= i < |cycles| && 0 <= j < |cycles[i]| ==> cycles[i][j] in g.workers
    ensures var fs := Results(w, program);
      var args := CellGraph.DenoteArgs(g, fs, rank, cell, |g.workers[cell].args|);
      var t := program[g.workers[cell].typeName];
      |args| == |t.formals| && Just(CycleScheduler.RunCycles(g, cycles, c).cells.values[cell]) == Meaning(w, Env(t.formals, args, |t.formals|), t.e)
  {
    ExpressionsCompute(g, w, fuel, program);
    CycleScheduler.Convergence(g, Results(w, program), rank, cycles, c);
  }
}
