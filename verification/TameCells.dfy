/** Cells and functions with tame bodies: what they return, what their fields hold after any number
    of runs, and the convergence of their graphs. */
module TameCells {
  import opened Wrappers
  import opened Syntax
  import opened Semantics
  import opened InterpretedCells
  import opened Denotation
  import opened FaithfulDenotation
  import CellGraph
  import CellHistory
  import CycleScheduler

  // ------------------------------------------------------------------ one execution

  function CellScope(w: World, lits: seq<Val>, tame: set<string>, sees: bool): Scope {
    Scope(w, lits, tame, {}, sees)
  }

  /** The fields have boxes of their own, behind those of the literals. */
  ghost predicate FieldsApart(lits: seq<Val>, self: Self) {
    && lits <= self.boxes
    && (forall x :: x in self.fields ==> self.fields[x].Just? && |lits| <= self.fields[x].value < |self.boxes|)
    && forall x, y :: x in self.fields && y in self.fields && x != y ==> self.fields[x] != self.fields[y]
  }

  function FieldValues(self: Self): map<string, Val> {
    map x | x in self.fields :: ValueOf(self.fields[x], self.boxes)
  }

  /** What is known of the fields when a cell starts: nothing, if the body does not mention them. */
  ghost function Known(sees: bool, self: Self): Fields {
    if sees then Shown(FieldValues(self)) else Hidden
  }

  lemma {:induction false} FormalsApart(formals: seq<string>, base: nat, n: nat, i: nat)
    requires i <= |formals| <= n
    ensures var frame := BindFormals(formals, ArgHandles(base, n), i);
      && frame.Just?
      && forall x :: x in frame.value ==>
        frame.value[x].Just? && base <= frame.value[x].value < base + i && formals[frame.value[x].value - base] == x
  {
    if i > 0 {
      FormalsApart(formals, base, n, i - 1);
    }
  }

  /** Where a cell starts: parameters in new boxes, fields where they are. */
  ghost predicate StartsIn(sc: Scope, formals: seq<string>, args: seq<Val>, self: Self, m: Mem, st: Scene) {
    && |formals| <= |args| && sc.fixed == {} && sc.lits <= self.boxes && (sc.sees ==> FieldsApart(sc.lits, self))
    && |m.frames| == 1 && BindFormals(formals, ArgHandles(|self.boxes|, |args|), |formals|) == Just(m.frames[0])
    && m.boxes == self.boxes + args && m.fields == Just(self.fields)
    && st == Scene([Env(formals, args, |formals|)], Known(sc.sees, self))
  }

  lemma StartsSlot(sc: Scope, formals: seq<string>, args: seq<Val>, self: Self, m: Mem, st: Scene, s: Slot)
    requires StartsIn(sc, formals, args, self, m, st)
    ensures Live(m, sc.sees, s) <==> Has(st, s)
    ensures Has(st, s) ==>
      var h := At(m, sc.sees, s);
      && Placed(false, h, sc.lits, m.boxes) && ValueOf(h, m.boxes) == Get(st, s)
      && if s.Field? then h == self.fields[s.name] else |self.boxes| <= h.value < |self.boxes| + |formals| && formals[h.value - |self.boxes|] == s.name
  {
    ArgumentsAreBound(formals, args, self.boxes, |formals|);
    FormalsApart(formals, |self.boxes|, |args|, |formals|);
    if s.Local? {
      assert s.name in m.frames[0].Keys <==> s.name in Env(formals, args, |formals|).Keys;
    }
  }

  lemma StartsInScene(sc: Scope, formals: seq<string>, args: seq<Val>, self: Self, m: Mem, st: Scene)
    requires StartsIn(sc, formals, args, self, m, st)
    ensures Mirrors(sc, sc.lits, m, st)
  {
    forall s ensures Live(m, sc.sees, s) <==> Has(st, s) {
      StartsSlot(sc, formals, args, self, m, st, s);
    }
    forall s | Has(st, s)
      ensures var h := At(m, sc.sees, s);
        Placed(Fixed(sc, s), h, sc.lits, m.boxes) && ValueOf(h, m.boxes) == Get(st, s)
    {
      StartsSlot(sc, formals, args, self, m, st, s);
    }
    forall s, t | Has(st, s) && Has(st, t) && s != t ensures At(m, sc.sees, s) != At(m, sc.sees, t) {
      StartsSlot(sc, formals, args, self, m, st, s);
      StartsSlot(sc, formals, args, self, m, st, t);
    }
  }

  /** How a run of a cell ends. */
  ghost predicate EndsAs(ending: CellGraph.Ending<Val>, f: Flow) {
    match f
    case Give(v) => ending == CellGraph.Returned(v)
    case Upset(_) => ending.Threw?
    case _ => ending.NoReturn?
  }

  lemma ShownAfter(sc: Scope, m: Mem, st: Scene)
    requires Mirrors(sc, sc.lits, m, st) && sc.fixed == {} && st.self.Shown?
    ensures var self := Self(m.boxes, m.fields.value); FieldsApart(sc.lits, self) && FieldValues(self) == st.self.vals
  {
    var self := Self(m.boxes, m.fields.value);
    forall x ensures (x in self.fields <==> x in st.self.vals) {
      assert Live(m, true, Field(x)) <==> Has(st, Field(x));
    }
    forall x | x in self.fields
      ensures self.fields[x].Just? && |sc.lits| <= self.fields[x].value < |self.boxes| && ValueOf(self.fields[x], self.boxes) == st.self.vals[x]
    {
      assert Has(st, Field(x)) && At(m, true, Field(x)) == self.fields[x];
    }
    forall x, y | x in self.fields && y in self.fields && x != y ensures self.fields[x] != self.fields[y] {
      assert Has(st, Field(x)) && Has(st, Field(y)) && At(m, true, Field(x)) != At(m, true, Field(y));
    }
  }

  /** Started with its arguments in new boxes, a tame body ends as it means, leaves the literals as
      they are, and its fields as they are meant to be. */
  lemma CellMeans(sc: Scope, fuel: nat, formals: seq<string>, body: Stmt, args: seq<Val>, self: Self)
    requires |formals| <= |args| && sc.fixed == {} && TameStmt(sc, body) && TameFunctions(sc)
    requires sc.lits <= self.boxes && (sc.sees ==> FieldsApart(sc.lits, self))
    ensures var (ending, self') := Execute(sc.w, fuel, formals, body, args, self);
      var (f, st) := Run(sc, fuel, body, Scene([Env(formals, args, |formals|)], Known(sc.sees, self)));
      && EndsAs(ending, f) && sc.lits <= self'.boxes
      && (sc.sees ==> FieldsApart(sc.lits, self') && st.self == Shown(FieldValues(self')))
  {
    FormalsApart(formals, |self.boxes|, |args|, |formals|);
    var frame := BindFormals(formals, ArgHandles(|self.boxes|, |args|), |formals|).value;
    var m, st := Mem([frame], self.boxes + args, Just(self.fields)), Scene([Env(formals, args, |formals|)], Known(sc.sees, self));
    StartsInScene(sc, formals, args, self, m, st);
    RunGives(sc, fuel, body, sc.lits, m, st);
    var r, d := ExecStmt(sc.w, fuel, body, m), Run(sc, fuel, body, st);
    if sc.sees {
      ShownAfter(sc, r.1, d.1);
    }
  }

  // ------------------------------------------------------------------ any number of executions

  /** One meant run after the other: the fields it ends with, and what was returned last. */
  function Meant(sc: Scope, fuel: nat, formals: seq<string>, body: Stmt, vals: map<string, Val>, inputs: seq<seq<Val>>): (map<string, Val>, Maybe<Val>)
    requires forall i :: 0 <= i < |inputs| ==> |formals| <= |inputs[i]|
  {
    if inputs == [] then (vals, Nothing)
    else
      var (before, v) := Meant(sc, fuel, formals, body, vals, inputs[..|inputs| - 1]);
      var (f, st) := Run(sc, fuel, body, Scene([Env(formals, inputs[|inputs| - 1], |formals|)], Shown(before)));
      (st.self.vals, if f.Give? then Just(f.v) else v)
  }

  /** The fields of a cell with a tame body, after any runs, hold what they are meant to. */
  lemma {:induction false} RunsAreMeant(
    sc: Scope, fuel: nat, formals: seq<string>, body: Stmt, run: (seq<Val>, Self) -> (CellGraph.Ending<Val>, Self), self: Self, inputs: seq<seq<Val>>)
    requires sc.fixed == {} && sc.sees && TameStmt(sc, body) && TameFunctions(sc) && FieldsApart(sc.lits, self)
    requires forall args, s :: run(args, s) == Execute(sc.w, fuel, formals, body, args, s)
    requires forall i :: 0 <= i < |inputs| ==> |formals| <= |inputs[i]|
    ensures var (self', v) := CellHistory.Lived(run, self, inputs);
      FieldsApart(sc.lits, self') && (FieldValues(self'), v) == Meant(sc, fuel, formals, body, FieldValues(self), inputs)
  {
    if inputs != [] {
      var front, args := inputs[..|inputs| - 1], inputs[|inputs| - 1];
      RunsAreMeant(sc, fuel, formals, body, run, self, front);
      var before := CellHistory.Lived(run, self, front).0;
      CellMeans(sc, fuel, formals, body, args, before);
      assert run(args, before) == Execute(sc.w, fuel, formals, body, args, before);
    }
  }

  // ------------------------------------------------------------------ graphs of cells without fields

  datatype Script = Script(formals: seq<string>, body: Stmt)

  /** The boxes of the literals, in front of those a cell has made. */
  function Behind(lits: seq<Val>, self: Self): Self {
    Self(lits + self.boxes, self.fields)
  }

  function Rest(lits: seq<Val>, self: Self): Self {
    if |lits| <= |self.boxes| then Self(self.boxes[|lits|..], self.fields) else self
  }

  /** What a script returns for these arguments. */
  function Told(sc: Scope, fuel: nat, t: Script, args: seq<Val>): Flow {
    if |args| < |t.formals| then Upset(Crash)
    else Run(sc, fuel, t.body, Scene([Env(t.formals, args, |t.formals|)], Hidden)).0
  }

  /** The cell types are these scripts: tame, not mentioning `this`, and returning for all arguments. */
  ghost predicate Performs(g: CellGraph.Graph<Val, Self>, sc: Scope, fuel: nat, program: map<string, Script>) {
    && !sc.sees && sc.fixed == {} && TameFunctions(sc) && g.types.Keys == program.Keys
    && forall t :: t in program ==>
         && g.types[t].arity == |program[t].formals| && TameStmt(sc, program[t].body)
         && (forall args: seq<Val> :: |args| == |program[t].formals| ==> Told(sc, fuel, program[t], args).Give?)
         && forall args: seq<Val>, s: Self ::
              var (ending, s') := Execute(sc.w, fuel, program[t].formals, program[t].body, args, Behind(sc.lits, s));
              g.types[t].body(args, s) == (ending, Rest(sc.lits, s'))
  }

  function Answers(sc: Scope, fuel: nat, program: map<string, Script>): map<string, seq<Val> -> Val> {
    map t | t in program :: (args => var f := Told(sc, fuel, program[t], args); if f.Give? then f.v else Undefined)
  }

  /** Such cell types compute what their bodies mean; and no run touches the literals. */
  lemma ScriptsCompute(g: CellGraph.Graph<Val, Self>, sc: Scope, fuel: nat, program: map<string, Script>)
    requires Performs(g, sc, fuel, program)
    ensures CellGraph.Computes(g, Answers(sc, fuel, program))
  {
    forall t, args: seq<Val>, s: Self | t in g.types && |args| == g.types[t].arity
      ensures g.types[t].body(args, s).0 == CellGraph.Returned(Answers(sc, fuel, program)[t](args))
    {
      var self := Behind(sc.lits, s);
      CellMeans(sc, fuel, program[t].formals, program[t].body, args, self);
      assert Told(sc, fuel, program[t], args).Give?;
    }
  }

  /** An acyclic graph of cells with tame bodies converges, in any orders, to what these mean. */
  lemma TameConvergence(
    g: CellGraph.Graph<Val, Self>, sc: Scope, fuel: nat, program: map<string, Script>, rank: map<string, nat>,
    cycles: seq<seq<string>>, c: CellGraph.Cells<Val, Self>, cell: string)
    requires Performs(g, sc, fuel, program) && CellGraph.WellWired(g) && CellGraph.Ranked(g, rank) && CellGraph.UniqueOutputs(g)
    requires CellGraph.Covers(g, c) && forall i :: 0 <= i < |cycles| ==> CycleScheduler.Traverses(g, cycles[i])
    requires cell in g.workers && rank[cell] <= |cycles|
    ensures CellGraph.Settling(g, Answers(sc, fuel, program), rank)
    ensures forall i, j :: 0 <= i < |cycles| && 0 <= j < |cycles[i]| ==> cycles[i][j] in g.workers
    ensures var args := CellGraph.DenoteArgs(g, Answers(sc, fuel, program), rank, cell, |g.workers[cell].args|);
      Told(sc, fuel, program[g.workers[cell].typeName], args) == Give(CycleScheduler.RunCycles(g, cycles, c).cells.values[cell])
  {
    ScriptsCompute(g, sc, fuel, program);
    CycleScheduler.Convergence(g, Answers(sc, fuel, program), rank, cycles, c);
  }

  // ------------------------------------------------------------------ branches, calls, expressions

  lemma {:induction false} InnermostOpened(frames: seq<map<string, Val>>, name: string)
    ensures Innermost(frames + [map[]], name) == Innermost(frames, name)
  {
    assert (frames + [map[]])[..|frames|] == frames;
  }

  /** An empty frame changes no expression. */
  lemma {:induction false} WorthOpened(sc: Scope, fuel: nat, e: Expr, st: Scene)
    ensures Worth(sc, fuel, e, Opened(st)) == Worth(sc, fuel, e, st)
    decreases e, 1
  {
    match e
    case Sym(name) => InnermostOpened(st.frames, name);
    case Prefix(_, x) => WorthOpened(sc, fuel, x, st);
    case Cast(_, x) => WorthOpened(sc, fuel, x, st);
    case Binop(_, l, r) =>
      WorthOpened(sc, fuel, l, st);
      WorthOpened(sc, fuel, r, st);
    case Ternop(c, t, f) =>
      WorthOpened(sc, fuel, c, st);
      WorthOpened(sc, fuel, t, st);
      WorthOpened(sc, fuel, f, st);
    case Call(f, args) =>
      WorthOpened(sc, fuel, f, st);
      WorthsOpened(sc, fuel, args, st);
      assert CallWorth(sc, fuel, e, Opened(st)) == CallWorth(sc, fuel, e, st);
    case _ =>
  }

  lemma {:induction false} WorthsOpened(sc: Scope, fuel: nat, args: seq<Expr>, st: Scene)
    ensures Worths(sc, fuel, args, Opened(st)) == Worths(sc, fuel, args, st)
    decreases args, 0
  {
    if args != [] {
      WorthOpened(sc, fuel, args[0], st);
      WorthsOpened(sc, fuel, args[1..], st);
    }
  }

  lemma CalmAssignsNothing(sc: Scope, e: Expr)
    requires Calm(sc, e)
    ensures !(e.Binop? && IsAssign(e.op)) && !IsStep(e)
  {
  }

  lemma CalmHasNoEffect(sc: Scope, fuel: nat, e: Expr, st: Scene)
    requires Calm(sc, e)
    ensures Effect(sc, fuel, e, st) == (Worth(sc, fuel, e, st), st)
  {
    CalmAssignsNothing(sc, e);
  }

  function GivenBy(g: Got): Flow {
    if g.Got? then Give(g.v) else Upset(g.t)
  }

  lemma ReturnGives(sc: Scope, fuel: nat, e: Expr, st: Scene)
    requires Calm(sc, e)
    ensures Run(sc, fuel, Return(e), st) == (GivenBy(Worth(sc, fuel, e, st)), st)
  {
    CalmHasNoEffect(sc, fuel, e, st);
  }

  /** `if (c) return a; else return b;` is `return c ? a : b;`. */
  lemma BranchesAreAChoice(sc: Scope, fuel: nat, c: Expr, a: Expr, b: Expr, st: Scene)
    requires Calm(sc, c) && Calm(sc, a) && Calm(sc, b)
    ensures Run(sc, fuel, IfElse(c, Return(a), SomeStmt(Return(b))), st) == Run(sc, fuel, Return(Ternop(c, a, b)), st)
  {
    WorthOpened(sc, fuel, c, st);
    WorthOpened(sc, fuel, a, st);
    WorthOpened(sc, fuel, b, st);
    CalmHasNoEffect(sc, fuel, c, Opened(st));
    ReturnGives(sc, fuel, a, Opened(st));
    ReturnGives(sc, fuel, b, Opened(st));
    ReturnGives(sc, fuel, Ternop(c, a, b), st);
    assert Closed(Opened(st)) == st;
  }

  lemma {:induction false} PureIsCalm(sc: Scope, formals: seq<string>, e: Expr)
    requires Pure(sc.w, formals, e)
    ensures Calm(sc, e)
    decreases e
  {
    match e
    case Prefix(_, x) => PureIsCalm(sc, formals, x);
    case Cast(_, x) => PureIsCalm(sc, formals, x);
    case Binop(_, l, r) =>
      PureIsCalm(sc, formals, l);
      PureIsCalm(sc, formals, r);
    case Ternop(c, t, f) =>
      PureIsCalm(sc, formals, c);
      PureIsCalm(sc, formals, t);
      PureIsCalm(sc, formals, f);
    case _ =>
  }

  function GotOf(g: Got): Maybe<Val> {
    if g.Got? then Just(g.v) else Nothing
  }

  /** For expressions of parameters and constants, the two meanings agree. */
  lemma {:induction false} WorthIsMeaning(sc: Scope, fuel: nat, formals: seq<string>, e: Expr, env: map<string, Val>, self: Fields)
    requires Pure(sc.w, formals, e) && InterpretedCells.Fits(formals, env)
    ensures GotOf(Worth(sc, fuel, e, Scene([env], self))) == Meaning(sc.w, env, e)
    decreases e
  {
    var st := Scene([env], self);
    match e
    case Sym(name) => assert st.frames[..0] == [];
    case Prefix(_, x) => WorthIsMeaning(sc, fuel, formals, x, env, self);
    case Cast(_, x) => WorthIsMeaning(sc, fuel, formals, x, env, self);
    case Binop(_, l, r) =>
      WorthIsMeaning(sc, fuel, formals, l, env, self);
      WorthIsMeaning(sc, fuel, formals, r, env, self);
    case Ternop(c, t, f) =>
      WorthIsMeaning(sc, fuel, formals, c, env, self);
      WorthIsMeaning(sc, fuel, formals, t, env, self);
      WorthIsMeaning(sc, fuel, formals, f, env, self);
  }

  lemma EnvFits(formals: seq<string>, args: seq<Val>)
    requires |formals| <= |args|
    ensures InterpretedCells.Fits(formals, Env(formals, args, |formals|))
  {
    assert formals[..|formals|] == formals;
    forall name ensures name in Env(formals, args, |formals|) <==> name in formals {
      EnvNames(formals, args, |formals|, name);
    }
  }

  /** A cell whose body gives what a pure expression is worth returns what this means. */
  lemma CellEnds(sc: Scope, fuel: nat, formals: seq<string>, body: Stmt, e: Expr, args: seq<Val>, self: Self)
    requires |formals| <= |args| && !sc.sees && sc.fixed == {} && TameStmt(sc, body) && TameFunctions(sc) && sc.lits <= self.boxes
    requires Pure(sc.w, formals, e)
    requires var st := Scene([Env(formals, args, |formals|)], Hidden);
      Run(sc, fuel, body, st) == (GivenBy(Worth(sc, fuel, e, st)), st)
    ensures var v := Meaning(sc.w, Env(formals, args, |formals|), e);
      Execute(sc.w, fuel, formals, body, args, self).0 == if v.Just? then CellGraph.Returned(v.value) else CellGraph.Threw
  {
    EnvFits(formals, args);
    WorthIsMeaning(sc, fuel, formals, e, Env(formals, args, |formals|), Hidden);
    CellMeans(sc, fuel, formals, body, args, self);
  }

  lemma BranchesAreTame(sc: Scope, formals: seq<string>, e: Expr, body: Stmt)
    requires Pure(sc.w, formals, e) && e.Ternop? && body == IfElse(e.cond, Return(e.onTrue), SomeStmt(Return(e.onFalse)))
    ensures Calm(sc, e) && TameStmt(sc, body)
  {
    PureIsCalm(sc, formals, e);
    CalmAssignsNothing(sc, e.cond);
    CalmAssignsNothing(sc, e.onTrue);
    CalmAssignsNothing(sc, e.onFalse);
  }

  /** A cell that branches returns what the choice means, whatever boxes and fields it finds. */
  lemma BranchingCell(w: World, fuel: nat, formals: seq<string>, e: Expr, body: Stmt, args: seq<Val>, self: Self)
    requires Pure(w, formals, e) && e.Ternop? && body == IfElse(e.cond, Return(e.onTrue), SomeStmt(Return(e.onFalse)))
    requires |args| == |formals|
    ensures var v := Meaning(w, Env(formals, args, |formals|), e);
      Execute(w, fuel, formals, body, args, self).0 == if v.Just? then CellGraph.Returned(v.value) else CellGraph.Threw
  {
    var sc, st := CellScope(w, [], {}, false), Scene([Env(formals, args, |formals|)], Hidden);
    BranchesAreTame(sc, formals, e, body);
    BranchesAreAChoice(sc, fuel, e.cond, e.onTrue, e.onFalse, st);
    ReturnGives(sc, fuel, e, st);
    CellEnds(sc, fuel, formals, body, e, args, self);
  }

  /** The value in the box, if the evaluation gave one. */
  function ValueGiven(r: EvalResult, boxes: seq<Val>): Maybe<Val> {
    if r.Value? then Just(ValueOf(r.h, boxes)) else Nothing
  }

  /** A call of a function that returns an expression gives what this means for the values of the
      arguments, each bound to the parameter in its place. */
  lemma CallMeansItsBody(w: World, fuel: nat, name: string, e: Expr, hs: seq<Handle>, boxes: seq<Val>)
    requires name in w.userFuns && w.userFuns[name].body == Return(e) && Pure(w, w.userFuns[name].formals, e)
    requires |w.userFuns[name].formals| <= |hs| && forall i :: 0 <= i < |hs| ==> InRange(hs[i], boxes)
    ensures var (r, boxes') := CallUser(w, fuel, name, hs, boxes);
      var formals := w.userFuns[name].formals;
      boxes <= boxes' && ValueGiven(r, boxes') == Meaning(w, Env(formals, ValuesOf(hs, boxes), |formals|), e)
  {
    var sc := CellScope(w, [], {name}, false);
    var f := w.userFuns[name];
    PureIsCalm(Inside(sc, f), f.formals, e);
    var vs := ValuesOf(hs, boxes);
    UserGives(sc, fuel, name, hs, vs, boxes);
    EnvFits(f.formals, vs);
    ReturnGives(Inside(sc, f), fuel, e, Scene([Env(f.formals, vs, |f.formals|)], Denied));
    WorthIsMeaning(Inside(sc, f), fuel, f.formals, e, Env(f.formals, vs, |f.formals|), Denied);
  }
}
