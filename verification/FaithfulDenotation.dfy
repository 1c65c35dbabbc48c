/** The interpreter gives tame programs the meaning of Denotation. A memory mirrors a scene when its
    frames and fields have the same names with the same values, and no two places that may be assigned
    to share a box; names that are never assigned to, and literals, lie in boxes of their own in front
    of all others. Every evaluation and every statement keeps the mirror: first expressions that store
    nothing, then calls, assignments and statements, function by function along the semantics. */
module FaithfulDenotation {
  import opened Wrappers
  import opened Syntax
  import opened Semantics
  import opened InterpretedCells
  import opened Denotation

  // ------------------------------------------------------------------ memories and scenes

  ghost predicate Live(m: Mem, shown: bool, s: Slot) {
    match s
    case Local(i, name) => i < |m.frames| && name in m.frames[i]
    case Field(name) => shown && m.fields.Just? && name in m.fields.value
  }

  ghost function At(m: Mem, shown: bool, s: Slot): Handle
    requires Live(m, shown, s)
  {
    match s
    case Local(i, name) => m.frames[i][name]
    case Field(name) => m.fields.value[name]
  }

  ghost predicate Fixed(sc: Scope, s: Slot) {
    s.Local? && s.name in sc.fixed
  }

  ghost predicate InRange(h: Handle, boxes: seq<Val>) {
    h.Just? ==> h.value < |boxes|
  }

  ghost predicate Carries(h: Handle, boxes: seq<Val>, v: Val) {
    InRange(h, boxes) && ValueOf(h, boxes) == v
  }

  /** Fixed names lie in the base, all others behind it. */
  ghost predicate Placed(fixed: bool, h: Handle, base: seq<Val>, boxes: seq<Val>) {
    if fixed then InRange(h, base) else h.Just? && |base| <= h.value < |boxes|
  }

  ghost predicate SameSlots(m: Mem, st: Scene) {
    forall s :: Live(m, st.self.Shown?, s) <==> Has(st, s)
  }

  ghost predicate SameValues(sc: Scope, base: seq<Val>, m: Mem, st: Scene)
    requires SameSlots(m, st)
  {
    forall s :: Has(st, s) ==>
      var h := At(m, st.self.Shown?, s);
      Placed(Fixed(sc, s), h, base, m.boxes) && ValueOf(h, m.boxes) == Get(st, s)
  }

  /** No two places that may be assigned to share a box. */
  ghost predicate Apart(sc: Scope, m: Mem, st: Scene)
    requires SameSlots(m, st)
  {
    forall s, t :: Has(st, s) && Has(st, t) && !Fixed(sc, s) && !Fixed(sc, t) && s != t ==>
      At(m, st.self.Shown?, s) != At(m, st.self.Shown?, t)
  }

  ghost predicate Mirrors(sc: Scope, base: seq<Val>, m: Mem, st: Scene) {
    && sc.lits <= base <= m.boxes
    && |m.frames| == |st.frames| > 0
    && (sc.sees ==> !st.self.Hidden?) && (st.self.Denied? ==> m.fields.Nothing?) && (st.self.Shown? ==> m.fields.Just?)
    && SameSlots(m, st) && SameValues(sc, base, m, st) && Apart(sc, m, st)
  }

  ghost predicate Grew(m: Mem, m': Mem) {
    m'.frames == m.frames && m'.fields == m.fields && m.boxes <= m'.boxes
  }

  lemma GrewMirrors(sc: Scope, base: seq<Val>, m: Mem, m': Mem, st: Scene)
    requires Mirrors(sc, base, m, st) && Grew(m, m')
    ensures Mirrors(sc, base, m', st)
  {
    forall s ensures Live(m', st.self.Shown?, s) <==> Has(st, s) {
      assert Live(m, st.self.Shown?, s) <==> Has(st, s);
    }
    forall s | Has(st, s)
      ensures var h := At(m', st.self.Shown?, s);
        h == At(m, st.self.Shown?, s) && Placed(Fixed(sc, s), h, base, m'.boxes) && ValueOf(h, m'.boxes) == Get(st, s)
    {
      assert Live(m, st.self.Shown?, s);
    }
  }

  // ------------------------------------------------------------------ results

  ghost predicate SameTrouble(x: Raise, boxes: seq<Val>, t: Trouble) {
    match x
    case Thrown(h) => t.Tossed? && Carries(h, boxes, t.v)
    case Failed(error) => t == Erring(error)
    case Fault => t.Crash?
    case OutOfFuel => t.Endless?
  }

  ghost predicate Means(r: EvalResult, boxes: seq<Val>, g: Got) {
    match r
    case Value(h) => g.Got? && Carries(h, boxes, g.v)
    case Raised(x) => g.Bad? && SameTrouble(x, boxes, g.t)
  }

  ghost predicate Gives(r: (EvalResult, Mem), m: Mem, g: Got) {
    Grew(m, r.1) && Means(r.0, r.1.boxes, g)
  }

  // ------------------------------------------------------------------ names

  lemma {:induction false} Finds(frames: seq<Frame>, vals: seq<map<string, Val>>, name: string)
    requires |frames| == |vals| && forall i: nat :: i < |frames| ==> frames[i].Keys == vals[i].Keys
    ensures var i := Innermost(vals, name);
      FindVar(frames, name) == if i >= 0 then Just(frames[i][name]) else Nothing
  {
    if frames != [] {
      assert name in frames[|frames| - 1].Keys <==> name in vals[|frames| - 1].Keys;
      Finds(frames[..|frames| - 1], vals[..|frames| - 1], name);
    }
  }

  lemma FindsSlot(sc: Scope, base: seq<Val>, m: Mem, st: Scene, name: string)
    requires Mirrors(sc, base, m, st)
    ensures var i := Innermost(st.frames, name);
      if i >= 0 then Has(st, Local(i, name)) && Live(m, st.self.Shown?, Local(i, name)) && FindVar(m.frames, name) == Just(m.frames[i][name])
      else FindVar(m.frames, name) == Nothing
  {
    forall i: nat | i < |m.frames| ensures m.frames[i].Keys == st.frames[i].Keys {
      forall x ensures x in m.frames[i] <==> x in st.frames[i] {
        assert Live(m, st.self.Shown?, Local(i, x)) <==> Has(st, Local(i, x));
      }
    }
    Finds(m.frames, st.frames, name);
    var i := Innermost(st.frames, name);
    if i >= 0 {
      assert Has(st, Local(i, name));
    }
  }

  lemma NameGives(sc: Scope, base: seq<Val>, m: Mem, st: Scene, name: string)
    requires Mirrors(sc, base, m, st)
    ensures Gives(Lookup(sc.w, name, false, m), m, NameWorth(sc, name, st))
  {
    FindsSlot(sc, base, m, st, name);
  }

  lemma FieldGives(sc: Scope, base: seq<Val>, m: Mem, st: Scene, name: string)
    requires Mirrors(sc, base, m, st) && sc.sees
    ensures Gives(LookupField(name, false, m), m, FieldWorth(name, st))
  {
    assert Live(m, st.self.Shown?, Field(name)) <==> Has(st, Field(name));
    if Has(st, Field(name)) {
      assert At(m, true, Field(name)) == m.fields.value[name];
    }
  }

  // ------------------------------------------------------------------ expressions that assign nothing

  lemma InsideInside(sc: Scope, f: FunDef)
    requires TameFunctions(sc)
    ensures TameFunctions(Inside(sc, f))
  {
    var sc' := Inside(sc, f);
    forall name | name in sc'.tame
      ensures name in sc'.w.userFuns && TameStmt(Inside(sc', sc'.w.userFuns[name]), sc'.w.userFuns[name].body)
    {
      assert Inside(sc', sc.w.userFuns[name]) == Inside(sc, sc.w.userFuns[name]);
    }
  }

  lemma OperatedGives(v: Maybe<Val>, m: Mem)
    ensures Gives(FromOp(v, m), m, Operated(v))
  {
  }

  lemma {:induction false} CalmGives(sc: Scope, fuel: nat, e: Expr, base: seq<Val>, m: Mem, st: Scene)
    requires Calm(sc, e) && Mirrors(sc, base, m, st) && TameFunctions(sc)
    ensures Gives(EvalExpr(sc.w, fuel, e, false, m), m, Worth(sc, fuel, e, st))
    decreases fuel, e, 1
  {
    match e
    case Sym(name) => NameGives(sc, base, m, st, name);
    case Prefix(_, _) => PrefixGives(sc, fuel, e, base, m, st);
    case Cast(_, x) => CalmGives(sc, fuel, x, base, m, st);
    case Binop(op, l, r) =>
      if IsThisMember(e) {
        FieldGives(sc, base, m, st, SymbolOf(r));
      } else {
        Dispatch(sc.w, fuel, e, m);
        BinopGives(sc, fuel, e, base, m, st);
      }
    case Ternop(_, _, _) => TernopGives(sc, fuel, e, base, m, st);
    case Call(_, _) => CallGives(sc, fuel, e, base, m, st);
    case _ =>
  }

  lemma {:induction false} PrefixGives(sc: Scope, fuel: nat, e: Expr, base: seq<Val>, m: Mem, st: Scene)
    requires e.Prefix? && Calm(sc, e) && Mirrors(sc, base, m, st) && TameFunctions(sc)
    ensures Gives(EvalExpr(sc.w, fuel, e, false, m), m, Worth(sc, fuel, e, st))
    decreases fuel, e, 0
  {
    CalmGives(sc, fuel, e.operand, base, m, st);
    var g := Worth(sc, fuel, e.operand, st);
    var (r, m1) := EvalExpr(sc.w, fuel, e.operand, false, m);
    if r.Value? {
      OperatedGives(sc.w.unop(e.op, g.v), m1);
    }
    assert Gives(EvalPrefix(sc.w, fuel, e, m), m, Worth(sc, fuel, e, st));
  }

  lemma {:induction false} BinopGives(sc: Scope, fuel: nat, e: Expr, base: seq<Val>, m: Mem, st: Scene)
    requires e.Binop? && !IsThisMember(e) && Calm(sc, e) && Mirrors(sc, base, m, st) && TameFunctions(sc)
    ensures Gives(if e.op.AND? || e.op.OR? then EvalShortCircuit(sc.w, fuel, e, m) else EvalBinary(sc.w, fuel, e, m), m, Worth(sc, fuel, e, st))
    decreases fuel, e, 0
  {
    var a, b := if RightFirst(e.op) then e.right else e.left, if RightFirst(e.op) then e.left else e.right;
    CalmGives(sc, fuel, a, base, m, st);
    var m1 := EvalExpr(sc.w, fuel, a, false, m).1;
    GrewMirrors(sc, base, m, m1, st);
    CalmGives(sc, fuel, b, base, m1, st);
    if e.op.AND? || e.op.OR? {
      JunctionGives(sc, fuel, e, m, st, m1);
    } else {
      BinaryGives(sc, fuel, e, m, st, m1);
    }
  }

  lemma JunctionGives(sc: Scope, fuel: nat, e: Expr, m: Mem, st: Scene, m1: Mem)
    requires e.Binop? && (e.op.AND? || e.op.OR?) && |m.frames| > 0 && |m1.frames| > 0
    requires Gives(EvalExpr(sc.w, fuel, e.left, false, m), m, Worth(sc, fuel, e.left, st)) && m1 == EvalExpr(sc.w, fuel, e.left, false, m).1
    requires Gives(EvalExpr(sc.w, fuel, e.right, false, m1), m1, Worth(sc, fuel, e.right, st))
    ensures Gives(EvalShortCircuit(sc.w, fuel, e, m), m, Worth(sc, fuel, e, st))
  {
  }

  lemma BinaryGives(sc: Scope, fuel: nat, e: Expr, m: Mem, st: Scene, m1: Mem)
    requires e.Binop? && BinaryLevel(e.op) > 0 && !e.op.AND? && !e.op.OR? && |m.frames| > 0 && |m1.frames| > 0
    requires var a := if RightFirst(e.op) then e.right else e.left;
      Gives(EvalExpr(sc.w, fuel, a, false, m), m, Worth(sc, fuel, a, st)) && m1 == EvalExpr(sc.w, fuel, a, false, m).1
    requires var b := if RightFirst(e.op) then e.left else e.right;
      Gives(EvalExpr(sc.w, fuel, b, false, m1), m1, Worth(sc, fuel, b, st))
    ensures Gives(EvalBinary(sc.w, fuel, e, m), m, Worth(sc, fuel, e, st))
  {
    var x, y := Worth(sc, fuel, e.left, st), Worth(sc, fuel, e.right, st);
    assert Worth(sc, fuel, e, st) == Calculated(sc.w, e.op, x, y);
    if RightFirst(e.op) {
      CalculatedGives(sc.w, fuel, e, m, EvalExpr(sc.w, fuel, e.right, false, m), EvalExpr(sc.w, fuel, e.left, false, m1), x, y);
    } else {
      CalculatedGives(sc.w, fuel, e, m, EvalExpr(sc.w, fuel, e.left, false, m), EvalExpr(sc.w, fuel, e.right, false, m1), x, y);
    }
  }

  lemma CalculatedGives(w: World, fuel: nat, e: Expr, m: Mem, a: (EvalResult, Mem), b: (EvalResult, Mem), x: Got, y: Got)
    requires e.Binop? && !e.op.AND? && !e.op.OR? && |m.frames| > 0 && |a.1.frames| > 0
    requires a == EvalExpr(w, fuel, if RightFirst(e.op) then e.right else e.left, false, m)
    requires b == EvalExpr(w, fuel, if RightFirst(e.op) then e.left else e.right, false, a.1)
    requires Gives(a, m, if RightFirst(e.op) then y else x) && Gives(b, a.1, if RightFirst(e.op) then x else y)
    ensures Gives(EvalBinary(w, fuel, e, m), m, Calculated(w, e.op, x, y))
  {
  }

  lemma {:induction false} TernopGives(sc: Scope, fuel: nat, e: Expr, base: seq<Val>, m: Mem, st: Scene)
    requires e.Ternop? && Calm(sc, e) && Mirrors(sc, base, m, st) && TameFunctions(sc)
    ensures Gives(EvalExpr(sc.w, fuel, e, false, m), m, Worth(sc, fuel, e, st))
    decreases fuel, e, 0
  {
    CalmGives(sc, fuel, e.cond, base, m, st);
    var m1 := EvalExpr(sc.w, fuel, e.cond, false, m).1;
    GrewMirrors(sc, base, m, m1, st);
    CalmGives(sc, fuel, e.onTrue, base, m1, st);
    CalmGives(sc, fuel, e.onFalse, base, m1, st);
  }

  // ------------------------------------------------------------------ calls

  ghost predicate CarriesAll(hs: seq<Handle>, boxes: seq<Val>, vs: seq<Val>) {
    |hs| == |vs| && forall i :: 0 <= i < |hs| ==> Carries(hs[i], boxes, vs[i])
  }

  ghost predicate GivesAll(r: (ArgsResult, Mem), m: Mem, g: Gots) {
    Grew(m, r.1) &&
    match r.0
    case Args(hs) => g.Gots? && CarriesAll(hs, r.1.boxes, g.vs)
    case ArgsRaised(x) => g.NoGots? && SameTrouble(x, r.1.boxes, g.t)
  }

  lemma {:induction false} ArgsGive(sc: Scope, fuel: nat, args: seq<Expr>, base: seq<Val>, m: Mem, st: Scene)
    requires AllCalm(sc, args) && Mirrors(sc, base, m, st) && TameFunctions(sc)
    ensures GivesAll(EvalArgs(sc.w, fuel, args, m), m, Worths(sc, fuel, args, st))
    decreases fuel, args, 0
  {
    if args != [] {
      CalmGives(sc, fuel, args[0], base, m, st);
      var m1 := EvalExpr(sc.w, fuel, args[0], false, m).1;
      GrewMirrors(sc, base, m, m1, st);
      ArgsGive(sc, fuel, args[1..], base, m1, st);
    }
  }

  lemma {:induction false} CalleeGives(sc: Scope, fuel: nat, func: Expr, base: seq<Val>, m: Mem, st: Scene)
    requires Calm(sc, func) && Mirrors(sc, base, m, st) && TameFunctions(sc)
    ensures Gives(EvalCallee(sc.w, fuel, func, m), m, CalleeWorth(sc, fuel, func, st))
    decreases fuel, func, 2
  {
    if func.Sym? {
      NameGives(sc, base, m, st, func.name);
    } else {
      CalmGives(sc, fuel, func, base, m, st);
    }
  }

  lemma {:induction false} CallGives(sc: Scope, fuel: nat, e: Expr, base: seq<Val>, m: Mem, st: Scene)
    requires e.Call? && Calm(sc, e) && Mirrors(sc, base, m, st) && TameFunctions(sc)
    ensures Gives(EvalCall(sc.w, fuel, e, m), m, CallWorth(sc, fuel, e, st))
    decreases fuel, e, 0
  {
    CalleeGives(sc, fuel, e.func, base, m, st);
    var (f, m1) := EvalCallee(sc.w, fuel, e.func, m);
    GrewMirrors(sc, base, m, m1, st);
    ArgsGive(sc, fuel, e.args, base, m1, st);
    var (hs, m2) := EvalArgs(sc.w, fuel, e.args, m1);
    var fn := CalleeWorth(sc, fuel, e.func, st);
    var vs := Worths(sc, fuel, e.args, st);
    if fn.Got? && fn.v.Func? && vs.Gots? {
      CalleeIsTame(sc, fuel, e.func, st);
      InvokeGives(sc, fuel, e.func, fn.v, hs.hs, vs.vs, m2);
    }
  }

  lemma CalleeIsTame(sc: Scope, fuel: nat, func: Expr, st: Scene)
    requires Callable(sc, func)
    ensures var fn := CalleeWorth(sc, fuel, func, st);
      fn.Got? && fn.v.Func? && fn.v.user && fn.v.name in sc.w.userFuns ==> fn.v.name in sc.tame
  {
  }

  /** The call of a function value. */
  function Answered(sc: Scope, fuel: nat, func: Expr, fn: Val, vs: seq<Val>): Got
    requires fn.Func?
  {
    var actuals := if IsThisMember(func) then [Undefined] + vs else vs;
    if !fn.user then Hosted(sc.w, fn.name, actuals)
    else if fuel == 0 then Bad(Endless)
    else Called(sc, fuel - 1, fn.name, actuals)
  }

  lemma WithReceiver(func: Expr, hs: seq<Handle>, boxes: seq<Val>, vs: seq<Val>)
    requires CarriesAll(hs, boxes, vs)
    ensures CarriesAll(if IsThisMember(func) then [Nothing] + hs else hs, boxes, if IsThisMember(func) then [Undefined] + vs else vs)
  {
  }

  lemma HostGives(w: World, fuel: nat, func: Expr, fn: Val, hs: seq<Handle>, actuals: seq<Handle>, vs: seq<Val>, m: Mem)
    requires |m.frames| > 0 && fn.Func? && !fn.user && CarriesAll(actuals, m.boxes, vs)
    requires actuals == if IsThisMember(func) then [Nothing] + hs else hs
    ensures Gives(Invoke(w, fuel, func, fn, hs, m), m, Hosted(w, fn.name, vs))
  {
    assert ValuesOf(actuals, m.boxes) == vs;
  }

  lemma {:induction false} InvokeGives(sc: Scope, fuel: nat, func: Expr, fn: Val, hs: seq<Handle>, vs: seq<Val>, m: Mem)
    requires |m.frames| > 0 && fn.Func? && sc.lits <= m.boxes && CarriesAll(hs, m.boxes, vs) && TameFunctions(sc)
    requires fn.user && fn.name in sc.w.userFuns ==> fn.name in sc.tame
    ensures Gives(Invoke(sc.w, fuel, func, fn, hs, m), m, Answered(sc, fuel, func, fn, vs))
    decreases fuel, func, 0
  {
    WithReceiver(func, hs, m.boxes, vs);
    var actuals := if IsThisMember(func) then [Nothing] + hs else hs;
    var values := if IsThisMember(func) then [Undefined] + vs else vs;
    if !fn.user {
      HostGives(sc.w, fuel, func, fn, hs, actuals, values, m);
    } else if fuel > 0 {
      UserGives(sc, fuel - 1, fn.name, actuals, values, m.boxes);
    }
  }

  ghost predicate FrameCarries(frame: Frame, boxes: seq<Val>, env: map<string, Val>) {
    frame.Keys == env.Keys && forall name :: name in env ==> Carries(frame[name], boxes, env[name])
  }

  lemma {:induction false} FormalsCarry(formals: seq<string>, hs: seq<Handle>, boxes: seq<Val>, vs: seq<Val>, i: nat)
    requires i <= |formals| && CarriesAll(hs, boxes, vs)
    ensures var frame := BindFormals(formals, hs, i);
      if i <= |hs| then frame.Just? && (|formals| <= |vs| ==> FrameCarries(frame.value, boxes, Env(formals, vs, i)))
      else frame.Nothing?
  {
    if i > 0 {
      FormalsCarry(formals, hs, boxes, vs, i - 1);
    }
  }

  lemma {:induction false} UserGives(sc: Scope, fuel: nat, name: string, hs: seq<Handle>, vs: seq<Val>, boxes: seq<Val>)
    requires sc.lits <= boxes && CarriesAll(hs, boxes, vs) && TameFunctions(sc)
    requires name in sc.w.userFuns ==> name in sc.tame
    ensures var (r, boxes') := CallUser(sc.w, fuel, name, hs, boxes);
      boxes <= boxes' && Means(r, boxes', Called(sc, fuel, name, vs))
    decreases fuel
  {
    if name in sc.w.userFuns {
      var f := sc.w.userFuns[name];
      FormalsCarry(f.formals, hs, boxes, vs, |f.formals|);
      if |f.formals| <= |vs| {
        var frame := BindFormals(f.formals, hs, |f.formals|).value;
        EntersFunction(sc, f, frame, Env(f.formals, vs, |f.formals|), boxes, vs);
        InsideInside(sc, f);
        RunGives(Inside(sc, f), fuel, f.body, boxes, Mem([frame], boxes, Nothing), Scene([Env(f.formals, vs, |f.formals|)], Denied));
        assert Means(BodyResult(sc.w, fuel, f, frame, boxes).0, BodyResult(sc.w, fuel, f, frame, boxes).1, Called(sc, fuel, name, vs));
      }
    }
  }

  lemma EntersFunction(sc: Scope, f: FunDef, frame: Frame, env: map<string, Val>, boxes: seq<Val>, vs: seq<Val>)
    requires sc.lits <= boxes && |f.formals| <= |vs| && env == Env(f.formals, vs, |f.formals|) && FrameCarries(frame, boxes, env)
    ensures Mirrors(Inside(sc, f), boxes, Mem([frame], boxes, Nothing), Scene([env], Denied))
  {
    var m, st := Mem([frame], boxes, Nothing), Scene([env], Denied);
    forall s ensures Live(m, false, s) <==> Has(st, s) {
      if s.Local? {
        assert s.name in frame.Keys <==> s.name in env.Keys;
      }
    }
    forall s | Has(st, s) ensures s.Local? && s.i == 0 && Fixed(Inside(sc, f), s) {
      EnvNames(f.formals, vs, |f.formals|, s.name);
      assert f.formals[..|f.formals|] == f.formals;
    }
  }

  // ------------------------------------------------------------------ assignments

  /** A new box for a place that was missing. */
  ghost function Made(m: Mem, s: Slot): Mem
    requires s.Local? ==> s.i < |m.frames|
    requires s.Field? ==> m.fields.Just?
  {
    var m1 := m.(boxes := m.boxes + [Undefined]);
    match s
    case Local(i, name) => m1.(frames := m.frames[i := m.frames[i][name := Just(|m.boxes|)]])
    case Field(name) => m1.(fields := Just(m.fields.value[name := Just(|m.boxes|)]))
  }

  lemma Makes(sc: Scope, base: seq<Val>, m: Mem, st: Scene, s: Slot)
    requires Mirrors(sc, base, m, st) && Room(st, s) && !Has(st, s) && !Fixed(sc, s)
    ensures Mirrors(sc, base, Made(m, s), Set(st, s, Undefined))
  {
    var m', st' := Made(m, s), Set(st, s, Undefined);
    var shown := st.self.Shown?;
    forall t ensures (Live(m', shown, t) <==> Has(st', t)) && (t != s ==> (Has(st', t) <==> Has(st, t))) {
      assert Live(m, shown, t) <==> Has(st, t);
    }
    forall t | Has(st', t)
      ensures var h := At(m', shown, t);
        && Placed(Fixed(sc, t), h, base, m'.boxes) && ValueOf(h, m'.boxes) == Get(st', t)
        && (if t == s then h == Just(|m.boxes|) else h == At(m, shown, t) && (h.Just? ==> h.value < |m.boxes|))
    {
      if t != s {
        assert Has(st, t) && Live(m, shown, t);
      }
    }
    forall t, u | Has(st', t) && Has(st', u) && !Fixed(sc, t) && !Fixed(sc, u) && t != u ensures At(m', shown, t) != At(m', shown, u) {
      if t != s && u != s {
        assert Has(st, t) && Has(st, u);
      }
    }
  }

  lemma Stores(sc: Scope, base: seq<Val>, m: Mem, st: Scene, s: Slot, v: Val)
    requires Mirrors(sc, base, m, st) && Has(st, s) && !Fixed(sc, s)
    ensures Live(m, st.self.Shown?, s) && At(m, st.self.Shown?, s).Just? && At(m, st.self.Shown?, s).value < |m.boxes|
    ensures Mirrors(sc, base, m.(boxes := m.boxes[At(m, st.self.Shown?, s).value := v]), Set(st, s, v))
  {
    var shown := st.self.Shown?;
    assert Live(m, shown, s);
    var k := At(m, shown, s).value;
    var m', st' := m.(boxes := m.boxes[k := v]), Set(st, s, v);
    assert Has(st, s) && Placed(Fixed(sc, s), At(m, shown, s), base, m.boxes);
    forall t ensures (Live(m', shown, t) <==> Has(st', t)) && (Has(st', t) <==> Has(st, t)) {
      assert Live(m, shown, t) <==> Has(st, t);
    }
    forall t | Has(st', t)
      ensures var h := At(m', shown, t);
        h == At(m, shown, t) && Placed(Fixed(sc, t), h, base, m'.boxes) && ValueOf(h, m'.boxes) == Get(st', t)
    {
      assert Has(st, t) && Live(m, shown, t);
    }
  }

  /** Evaluated for an assignment, a target gives the box of its place. */
  ghost predicate Aims(sc: Scope, base: seq<Val>, m: Mem, st: Scene, e: Expr, r: (EvalResult, Mem)) {
    var s := Aim(st, e);
    if s.Nothing? then r == (Raised(Failed(ThisInFunction)), m)
    else
      && Room(st, s.value) && !Fixed(sc, s.value) && m.boxes <= r.1.boxes
      && Mirrors(sc, base, r.1, Touch(st, s.value))
      && Live(r.1, st.self.Shown?, s.value) && r.0 == Value(At(r.1, st.self.Shown?, s.value))
  }

  lemma TargetAims(sc: Scope, fuel: nat, e: Expr, base: seq<Val>, m: Mem, st: Scene)
    requires Target(sc, e) && Mirrors(sc, base, m, st)
    ensures Aims(sc, base, m, st, e, EvalExpr(sc.w, fuel, e, true, m))
  {
    if e.Sym? {
      FindsSlot(sc, base, m, st, e.name);
      if Innermost(st.frames, e.name) < 0 {
        var s := Local(|st.frames| - 1, e.name);
        MissingHere(st.frames, e.name);
        Makes(sc, base, m, st, s);
      }
    } else {
      var s := Field(SymbolOf(e.right));
      assert Live(m, st.self.Shown?, s) <==> Has(st, s);
      if st.self.Shown? && !Has(st, s) {
        Makes(sc, base, m, st, s);
      }
    }
  }

  lemma MissingHere(frames: seq<map<string, Val>>, name: string)
    requires frames != [] && Innermost(frames, name) < 0
    ensures name !in frames[|frames| - 1]
  {
  }

  ghost predicate Moves(sc: Scope, base: seq<Val>, r: (EvalResult, Mem), d: (Got, Scene)) {
    Mirrors(sc, base, r.1, d.1) && Means(r.0, r.1.boxes, d.0)
  }

  lemma {:induction false} EffectMoves(sc: Scope, fuel: nat, e: Expr, base: seq<Val>, m: Mem, st: Scene)
    requires Tame(sc, e) && Mirrors(sc, base, m, st) && TameFunctions(sc)
    ensures Moves(sc, base, EvalExpr(sc.w, fuel, e, false, m), Effect(sc, fuel, e, st))
    decreases fuel, e, 2
  {
    if e.Binop? && IsAssign(e.op) {
      EffectMoves(sc, fuel, e.right, base, m, st);
      var r, d := EvalExpr(sc.w, fuel, e.right, false, m), Effect(sc, fuel, e.right, st);
      if r.0.Value? {
        TargetAims(sc, fuel, e.left, base, r.1, d.1);
        if e.op.ASSIGN? {
          AssignMoves(sc, fuel, e, base, m, st, r, d);
        } else {
          UpdateMoves(sc, fuel, e, base, m, st, r, d);
        }
      }
    } else if IsStep(e) {
      TargetAims(sc, fuel, e.operand, base, m, st);
      if e.Prefix? {
        PrefixStepMoves(sc, fuel, e, base, m, st);
      } else {
        PostfixStepMoves(sc, fuel, e, base, m, st);
      }
    } else {
      CalmGives(sc, fuel, e, base, m, st);
      GrewMirrors(sc, base, m, EvalExpr(sc.w, fuel, e, false, m).1, st);
    }
  }

  lemma AssignMoves(sc: Scope, fuel: nat, e: Expr, base: seq<Val>, m: Mem, st: Scene, r: (EvalResult, Mem), d: (Got, Scene))
    requires e.Binop? && e.op.ASSIGN? && Mirrors(sc, base, m, st)
    requires r == EvalExpr(sc.w, fuel, e.right, false, m) && d == Effect(sc, fuel, e.right, st)
    requires r.0.Value? && Moves(sc, base, r, d) && Aims(sc, base, r.1, d.1, e.left, EvalExpr(sc.w, fuel, e.left, true, r.1))
    ensures Moves(sc, base, EvalExpr(sc.w, fuel, e, false, m), Effect(sc, fuel, e, st))
  {
    var l := EvalExpr(sc.w, fuel, e.left, true, r.1);
    var s := Aim(d.1, e.left);
    if s.Just? {
      Stores(sc, base, l.1, Touch(d.1, s.value), s.value, d.0.v);
      SetTouched(d.1, s.value, d.0.v);
    }
    assert EvalExpr(sc.w, fuel, e, false, m) == EvalAssign(sc.w, fuel, e, false, m);
  }

  lemma SetTouched(st: Scene, s: Slot, v: Val)
    requires Room(st, s)
    ensures Set(Touch(st, s), s, v) == Set(st, s, v)
  {
    match s
    case Local(i, name) => assert st.frames[i][name := Undefined][name := v] == st.frames[i][name := v];
    case Field(name) => assert st.self.vals[name := Undefined][name := v] == st.self.vals[name := v];
  }

  /** The table of compound assignments, against the semantics. */
  lemma CombinesAsTabled(w: World, op: Kind, l: Val, r: Val)
    requires IsCompoundAssign(op)
    ensures Compounded(w, op, l, r) ==
      match Combine(w, op, l, r)
      case Keep => Just(l)
      case Put(v) => Just(v)
      case Throws => Nothing
  {
  }

  lemma UpdateEvals(w: World, fuel: nat, e: Expr, m: Mem, r: (EvalResult, Mem), l: (EvalResult, Mem))
    requires e.Binop? && IsCompoundAssign(e.op) && |m.frames| > 0 && |r.1.frames| > 0
    requires r == EvalExpr(w, fuel, e.right, false, m) && r.0.Value? && l == EvalExpr(w, fuel, e.left, true, r.1)
    ensures EvalExpr(w, fuel, e, false, m) == if l.0.Raised? then l else Update(w, e.op, l.0.h, ValueOf(r.0.h, l.1.boxes), l.1)
  {
    assert EvalExpr(w, fuel, e, false, m) == EvalUpdate(w, fuel, e, false, m);
  }

  lemma UpdateMoves(sc: Scope, fuel: nat, e: Expr, base: seq<Val>, m: Mem, st: Scene, r: (EvalResult, Mem), d: (Got, Scene))
    requires e.Binop? && IsCompoundAssign(e.op) && Mirrors(sc, base, m, st)
    requires r == EvalExpr(sc.w, fuel, e.right, false, m) && d == Effect(sc, fuel, e.right, st)
    requires r.0.Value? && Moves(sc, base, r, d) && Aims(sc, base, r.1, d.1, e.left, EvalExpr(sc.w, fuel, e.left, true, r.1))
    ensures Moves(sc, base, EvalExpr(sc.w, fuel, e, false, m), Effect(sc, fuel, e, st))
  {
    var l := EvalExpr(sc.w, fuel, e.left, true, r.1);
    UpdateEvals(sc.w, fuel, e, m, r, l);
    UpdateHas(sc, fuel, e, st, d);
    var s := Aim(d.1, e.left);
    if s.Just? {
      assert Touch(d.1, s.value).self.Shown? == d.1.self.Shown?;
      ChangeMoves(sc, e.op, base, l.1, Touch(d.1, s.value), s.value, d.0.v);
    }
  }

  lemma UpdateHas(sc: Scope, fuel: nat, e: Expr, st: Scene, d: (Got, Scene))
    requires e.Binop? && IsCompoundAssign(e.op) && d == Effect(sc, fuel, e.right, st) && d.0.Got?
    ensures var s := Aim(d.1, e.left);
      Effect(sc, fuel, e, st) == if s.Nothing? then (Bad(Erring(ThisInFunction)), d.1) else Changed(sc.w, e.op, Touch(d.1, s.value), s.value, d.0.v)
  {
  }

  lemma ChangeMoves(sc: Scope, op: Kind, base: seq<Val>, m: Mem, st: Scene, s: Slot, r: Val)
    requires IsCompoundAssign(op) && Mirrors(sc, base, m, st) && Has(st, s) && !Fixed(sc, s)
    ensures Live(m, st.self.Shown?, s)
    ensures Moves(sc, base, Update(sc.w, op, At(m, st.self.Shown?, s), r, m), Changed(sc.w, op, st, s, r))
  {
    assert Live(m, st.self.Shown?, s);
    var h := At(m, st.self.Shown?, s);
    assert Placed(Fixed(sc, s), h, base, m.boxes) && ValueOf(h, m.boxes) == Get(st, s);
    CombinesAsTabled(sc.w, op, Get(st, s), r);
    var v := Compounded(sc.w, op, Get(st, s), r);
    if v.Just? {
      Stores(sc, base, m, st, s, v.value);
      if v.value == Get(st, s) {
        SetsNothing(st, s);
      }
    }
  }

  lemma SetsNothing(st: Scene, s: Slot)
    requires Has(st, s)
    ensures Set(st, s, Get(st, s)) == st
  {
    match s
    case Local(i, name) => assert st.frames[i][name := st.frames[i][name]] == st.frames[i];
    case Field(name) => assert st.self.vals[name := st.self.vals[name]] == st.self.vals;
  }

  lemma PrefixStepMoves(sc: Scope, fuel: nat, e: Expr, base: seq<Val>, m: Mem, st: Scene)
    requires e.Prefix? && IsStep(e) && Mirrors(sc, base, m, st) && Aims(sc, base, m, st, e.operand, EvalExpr(sc.w, fuel, e.operand, true, m))
    ensures Moves(sc, base, EvalExpr(sc.w, fuel, e, false, m), Effect(sc, fuel, e, st))
  {
    assert EvalExpr(sc.w, fuel, e, false, m) == EvalPrefix(sc.w, fuel, e, m);
    var s := Aim(st, e.operand);
    if s.Just? {
      assert Effect(sc, fuel, e, st) == Stepped(sc.w, e, Touch(st, s.value), s.value);
      PrefixStepped(sc, fuel, e, base, m, Touch(st, s.value), s.value, EvalExpr(sc.w, fuel, e.operand, true, m));
    }
  }

  lemma PrefixStepped(sc: Scope, fuel: nat, e: Expr, base: seq<Val>, m: Mem, st: Scene, s: Slot, r: (EvalResult, Mem))
    requires e.Prefix? && IsStep(e) && |m.frames| > 0 && r == EvalExpr(sc.w, fuel, e.operand, true, m)
    requires Mirrors(sc, base, r.1, st) && Has(st, s) && !Fixed(sc, s)
    requires Live(r.1, st.self.Shown?, s) && r.0 == Value(At(r.1, st.self.Shown?, s))
    ensures Moves(sc, base, EvalPrefix(sc.w, fuel, e, m), Stepped(sc.w, e, st, s))
  {
    var v := sc.w.unop(e.op, Get(st, s));
    assert ValueOf(r.0.h, r.1.boxes) == Get(st, s);
    Stores(sc, base, r.1, st, s, if v.Just? then v.value else Undefined);
  }

  lemma PostfixStepMoves(sc: Scope, fuel: nat, e: Expr, base: seq<Val>, m: Mem, st: Scene)
    requires e.Postfix? && IsStep(e) && Mirrors(sc, base, m, st) && Aims(sc, base, m, st, e.operand, EvalExpr(sc.w, fuel, e.operand, true, m))
    ensures Moves(sc, base, EvalExpr(sc.w, fuel, e, false, m), Effect(sc, fuel, e, st))
  {
    assert EvalExpr(sc.w, fuel, e, false, m) == EvalPostfix(sc.w, fuel, e, m);
    var s := Aim(st, e.operand);
    if s.Just? {
      assert Effect(sc, fuel, e, st) == Stepped(sc.w, e, Touch(st, s.value), s.value);
      PostfixStepped(sc, fuel, e, base, m, Touch(st, s.value), s.value, EvalExpr(sc.w, fuel, e.operand, true, m));
    }
  }

  lemma PostfixStepped(sc: Scope, fuel: nat, e: Expr, base: seq<Val>, m: Mem, st: Scene, s: Slot, r: (EvalResult, Mem))
    requires e.Postfix? && IsStep(e) && |m.frames| > 0 && r == EvalExpr(sc.w, fuel, e.operand, true, m)
    requires Mirrors(sc, base, r.1, st) && Has(st, s) && !Fixed(sc, s)
    requires Live(r.1, st.self.Shown?, s) && r.0 == Value(At(r.1, st.self.Shown?, s))
    ensures Moves(sc, base, EvalPostfix(sc.w, fuel, e, m), Stepped(sc.w, e, st, s))
  {
    var v := sc.w.unop(e.op, Get(st, s));
    assert ValueOf(r.0.h, r.1.boxes) == Get(st, s);
    Stores(sc, base, r.1, st, s, if v.Just? then v.value else Undefined);
    if v.Just? {
      var m2 := Semantics.Store(r.1, r.0.h, v.value).1;
      GrewMirrors(sc, base, m2, m2.(boxes := m2.boxes + [Get(st, s)]), Set(st, s, v.value));
    }
  }

  // ------------------------------------------------------------------ statements

  ghost predicate Fares(o: Outcome, boxes: seq<Val>, f: Flow) {
    match o
    case Normal => f.Onward?
    case Returned(h) => f.Give? && Carries(h, boxes, f.v)
    case Broke => f.Leave?
    case Continued => f.Repeat?
    case Raising(x) => f.Upset? && SameTrouble(x, boxes, f.t)
  }

  ghost predicate Follows(sc: Scope, base: seq<Val>, r: (Outcome, Mem), d: (Flow, Scene)) {
    Mirrors(sc, base, r.1, d.1) && Fares(r.0, r.1.boxes, d.0)
  }

  lemma Opens(sc: Scope, base: seq<Val>, m: Mem, st: Scene)
    requires Mirrors(sc, base, m, st)
    ensures Mirrors(sc, base, Push(m, map[]), Opened(st))
  {
    var m', st' := Push(m, map[]), Opened(st);
    var shown := st.self.Shown?;
    forall s ensures (Live(m', shown, s) <==> Has(st', s)) && (Has(st', s) <==> Has(st, s)) {
      assert Live(m, shown, s) <==> Has(st, s);
    }
    forall s | Has(st', s)
      ensures var h := At(m', shown, s);
        h == At(m, shown, s) && Placed(Fixed(sc, s), h, base, m'.boxes) && ValueOf(h, m'.boxes) == Get(st', s)
    {
      assert Has(st, s) && Live(m, shown, s);
    }
  }

  lemma Closes(sc: Scope, base: seq<Val>, m: Mem, st: Scene)
    requires Mirrors(sc, base, m, st) && |m.frames| > 1
    ensures Mirrors(sc, base, Pop(m), Closed(st))
  {
    var m', st' := Pop(m), Closed(st);
    var shown := st.self.Shown?;
    forall s ensures (Live(m', shown, s) <==> Has(st', s)) && (Has(st', s) ==> Has(st, s)) {
      assert Live(m, shown, s) <==> Has(st, s);
    }
    forall s | Has(st', s)
      ensures var h := At(m', shown, s);
        h == At(m, shown, s) && Placed(Fixed(sc, s), h, base, m'.boxes) && ValueOf(h, m'.boxes) == Get(st', s)
    {
      assert Has(st, s) && Live(m, shown, s);
    }
  }

  lemma {:induction false} RunGives(sc: Scope, fuel: nat, s: Stmt, base: seq<Val>, m: Mem, st: Scene)
    requires TameStmt(sc, s) && Mirrors(sc, base, m, st) && TameFunctions(sc)
    ensures Follows(sc, base, ExecStmt(sc.w, fuel, s, m), Run(sc, fuel, s, st))
    decreases fuel, s, 3
  {
    match s
    case Eval(e) => EffectMoves(sc, fuel, e, base, m, st);
    case Throw(e) => EffectMoves(sc, fuel, e, base, m, st);
    case Return(e) => EffectMoves(sc, fuel, e, base, m, st);
    case IfElse(_, _, _) => IfGives(sc, fuel, s, base, m, st);
    case Compound(_, _) => CompoundGives(sc, fuel, s, base, m, st);
    case TryCatch(_, _, _) => TryGives(sc, fuel, s, base, m, st);
    case While(_, _) =>
      Opens(sc, base, m, st);
      LoopGives(sc, fuel, s, base, Push(m, map[]), Opened(st));
      Closes(sc, base, ExecLoop(sc.w, fuel, s, Push(m, map[])).1, Loop(sc, fuel, s, Opened(st)).1);
    case For(_, _, _, _) => ForGives(sc, fuel, s, base, m, st);
    case _ =>
  }

  /** Tests of conditions. */
  ghost predicate Tests(c: Cond, boxes: seq<Val>, v: Verdict) {
    match c
    case Holds(b) => v == Verdict(b)
    case CondRaised(x) => v.NoVerdict? && SameTrouble(x, boxes, v.t)
  }

  lemma {:induction false} CondMoves(sc: Scope, fuel: nat, e: Expr, base: seq<Val>, m: Mem, st: Scene)
    requires Tame(sc, e) && Mirrors(sc, base, m, st) && TameFunctions(sc)
    ensures var (c, m1) := EvalCond(sc.w, fuel, e, m);
      var (g, st1) := Effect(sc, fuel, e, st);
      Mirrors(sc, base, m1, st1) && Tests(c, m1.boxes, Judged(sc.w, g))
    decreases fuel, e, 3
  {
    EffectMoves(sc, fuel, e, base, m, st);
  }

  lemma {:induction false} IfGives(sc: Scope, fuel: nat, s: Stmt, base: seq<Val>, m: Mem, st: Scene)
    requires s.IfElse? && TameStmt(sc, s) && Mirrors(sc, base, m, st) && TameFunctions(sc)
    ensures Follows(sc, base, ExecStmt(sc.w, fuel, s, m), Run(sc, fuel, s, st))
    decreases fuel, s, 2
  {
    Opens(sc, base, m, st);
    var m0, st0 := Push(m, map[]), Opened(st);
    CondMoves(sc, fuel, s.cond, base, m0, st0);
    var (c, m1) := EvalCond(sc.w, fuel, s.cond, m0);
    var st1 := Effect(sc, fuel, s.cond, st0).1;
    if c.Holds? {
      if c.b {
        RunGives(sc, fuel, s.yes, base, m1, st1);
        Closes(sc, base, ExecStmt(sc.w, fuel, s.yes, m1).1, Run(sc, fuel, s.yes, st1).1);
      } else if s.no.SomeStmt? {
        RunGives(sc, fuel, s.no.stmt, base, m1, st1);
        Closes(sc, base, ExecStmt(sc.w, fuel, s.no.stmt, m1).1, Run(sc, fuel, s.no.stmt, st1).1);
      } else {
        Closes(sc, base, m1, st1);
      }
    } else {
      Closes(sc, base, m1, st1);
    }
  }

  lemma {:induction false} CompoundGives(sc: Scope, fuel: nat, s: Stmt, base: seq<Val>, m: Mem, st: Scene)
    requires s.Compound? && TameStmt(sc, s) && Mirrors(sc, base, m, st) && TameFunctions(sc)
    ensures Follows(sc, base, ExecStmt(sc.w, fuel, s, m), Run(sc, fuel, s, st))
    decreases fuel, s, 2
  {
    if s.own {
      Opens(sc, base, m, st);
      RunAllGives(sc, fuel, s.stats, base, Push(m, map[]), Opened(st));
      Closes(sc, base, ExecSeq(sc.w, fuel, s.stats, Push(m, map[])).1, RunAll(sc, fuel, s.stats, Opened(st)).1);
    } else {
      RunAllGives(sc, fuel, s.stats, base, m, st);
    }
  }

  lemma {:induction false} RunAllGives(sc: Scope, fuel: nat, stats: seq<Stmt>, base: seq<Val>, m: Mem, st: Scene)
    requires AllTame(sc, stats) && Mirrors(sc, base, m, st) && TameFunctions(sc)
    ensures Follows(sc, base, ExecSeq(sc.w, fuel, stats, m), RunAll(sc, fuel, stats, st))
    decreases fuel, stats, 0
  {
    if stats != [] {
      RunGives(sc, fuel, stats[0], base, m, st);
      var (o, m1) := ExecStmt(sc.w, fuel, stats[0], m);
      if o.Normal? {
        RunAllGives(sc, fuel, stats[1..], base, m1, Run(sc, fuel, stats[0], st).1);
      }
    }
  }

  lemma {:induction false} TryGives(sc: Scope, fuel: nat, s: Stmt, base: seq<Val>, m: Mem, st: Scene)
    requires s.TryCatch? && TameStmt(sc, s) && Mirrors(sc, base, m, st) && TameFunctions(sc)
    ensures Follows(sc, base, ExecStmt(sc.w, fuel, s, m), Run(sc, fuel, s, st))
    decreases fuel, s, 2
  {
    Opens(sc, base, m, st);
    var m0, st0 := Push(m, map[]), Opened(st);
    AttemptGives(sc, fuel, s, base, m0, st0);
    Closes(sc, base, ExecTry(sc.w, fuel, s, m0).1, Attempt(sc, fuel, s, st0).1);
  }

  lemma {:induction false} AttemptGives(sc: Scope, fuel: nat, s: Stmt, base: seq<Val>, m: Mem, st: Scene)
    requires s.TryCatch? && TameStmt(sc, s) && Mirrors(sc, base, m, st) && TameFunctions(sc)
    ensures Follows(sc, base, ExecTry(sc.w, fuel, s, m), Attempt(sc, fuel, s, st))
    decreases fuel, s, 1
  {
    RunGives(sc, fuel, s.body, base, m, st);
    var (o, m1) := ExecStmt(sc.w, fuel, s.body, m);
    var (f, st1) := Run(sc, fuel, s.body, st);
    if o.Raising? && Catchable(o.x) {
      if s.catchExpr.Sym? {
        Opens(sc, base, m1, st1);
        HandlerGives(sc, fuel, s, o.x, f.t, base, Push(m1, map[]), Opened(st1));
        var st2 := Set(Opened(st1), Aim(Opened(st1), s.catchExpr).value, Handed(sc.w, f.t));
        Closes(sc, base, ExecHandler(sc.w, fuel, s, o.x, Push(m1, map[])).1, Run(sc, fuel, s.handler, st2).1);
      } else {
        RunGives(sc, fuel, s.handler, base, m1, st1);
      }
    }
  }

  lemma {:induction false} HandlerGives(sc: Scope, fuel: nat, s: Stmt, x: Raise, t: Trouble, base: seq<Val>, m: Mem, st: Scene)
    requires s.TryCatch? && s.catchExpr.Sym? && TameStmt(sc, s) && Mirrors(sc, base, m, st) && TameFunctions(sc)
    requires Catchable(x) && SameTrouble(x, m.boxes, t)
    ensures Aim(st, s.catchExpr).Just? && Room(st, Aim(st, s.catchExpr).value)
    ensures Follows(sc, base, ExecHandler(sc.w, fuel, s, x, m), Run(sc, fuel, s.handler, Set(st, Aim(st, s.catchExpr).value, Handed(sc.w, t))))
    decreases fuel, s, 0
  {
    var name := s.catchExpr.name;
    TargetAims(sc, fuel, s.catchExpr, base, m, st);
    var slot := Aim(st, s.catchExpr).value;
    var (r, m1) := Lookup(sc.w, name, true, m);
    assert EvalExpr(sc.w, fuel, s.catchExpr, true, m) == (r, m1);
    Stores(sc, base, m1, Touch(st, slot), slot, Handed(sc.w, t));
    SetTouched(st, slot, Handed(sc.w, t));
    RunGives(sc, fuel, s.handler, base, BindCaught(sc.w, name, x, m), Set(st, slot, Handed(sc.w, t)));
  }

  lemma {:induction false} ForGives(sc: Scope, fuel: nat, s: Stmt, base: seq<Val>, m: Mem, st: Scene)
    requires s.For? && TameStmt(sc, s) && Mirrors(sc, base, m, st) && TameFunctions(sc)
    ensures Follows(sc, base, ExecStmt(sc.w, fuel, s, m), Run(sc, fuel, s, st))
    decreases fuel, s, 2
  {
    Opens(sc, base, m, st);
    EffectMoves(sc, fuel, s.init, base, Push(m, map[]), Opened(st));
    var (r, m1) := EvalExpr(sc.w, fuel, s.init, false, Push(m, map[]));
    var st1 := Effect(sc, fuel, s.init, Opened(st)).1;
    if r.Raised? {
      Closes(sc, base, m1, st1);
    } else {
      LoopGives(sc, fuel, s, base, m1, st1);
      Closes(sc, base, ExecLoop(sc.w, fuel, s, m1).1, Loop(sc, fuel, s, st1).1);
    }
  }

  lemma {:induction false} LoopGives(sc: Scope, fuel: nat, s: Stmt, base: seq<Val>, m: Mem, st: Scene)
    requires IsLoop(s) && TameStmt(sc, s) && Mirrors(sc, base, m, st) && TameFunctions(sc)
    ensures Follows(sc, base, ExecLoop(sc.w, fuel, s, m), Loop(sc, fuel, s, st))
    decreases fuel, s, 1
  {
    CondMoves(sc, fuel, s.cond, base, m, st);
    var (c, m1) := EvalCond(sc.w, fuel, s.cond, m);
    if c.Holds? && c.b {
      TurnsGive(sc, fuel, s, base, m1, Effect(sc, fuel, s.cond, st).1);
    }
  }

  lemma {:induction false} TurnsGive(sc: Scope, fuel: nat, s: Stmt, base: seq<Val>, m: Mem, st: Scene)
    requires IsLoop(s) && TameStmt(sc, s) && Mirrors(sc, base, m, st) && TameFunctions(sc)
    ensures Follows(sc, base, Again(sc.w, fuel, s, m), Turns(sc, fuel, s, st))
    decreases fuel, s, 0
  {
    if fuel > 0 {
      RoundGives(sc, fuel, s, base, m, st);
    }
  }

  lemma {:induction false} RoundGives(sc: Scope, fuel: nat, s: Stmt, base: seq<Val>, m: Mem, st: Scene)
    requires IsLoop(s) && TameStmt(sc, s) && Mirrors(sc, base, m, st) && TameFunctions(sc) && fuel > 0
    ensures Follows(sc, base, Round(sc.w, fuel - 1, s, m), Turns(sc, fuel, s, st))
    decreases fuel - 1, s, 4
  {
    RunGives(sc, fuel - 1, s.body, base, m, st);
    var r, d := ExecStmt(sc.w, fuel - 1, s.body, m), Run(sc, fuel - 1, s.body, st);
    if r.0.Continued? {
      TurnsGive(sc, fuel - 1, s, base, r.1, d.1);
    } else if r.0.Normal? {
      FurtherGives(sc, fuel - 1, s, base, r.1, d.1);
    }
    RoundFollows(sc, fuel, s, base, m, st, r, d);
  }

  ghost function Resumed(w: World, fuel: nat, s: Stmt, m: Mem): (Outcome, Mem)
    requires |m.frames| > 0 && IsLoop(s)
  {
    var (r, m1) := Advance(w, fuel, s, m);
    if r.Raised? then (Raising(r.x), m1) else ExecLoop(w, fuel, s, m1)
  }

  lemma RoundFollows(sc: Scope, fuel: nat, s: Stmt, base: seq<Val>, m: Mem, st: Scene, r: (Outcome, Mem), d: (Flow, Scene))
    requires IsLoop(s) && fuel > 0 && |m.frames| > 0 && |r.1.frames| > 0
    requires r == ExecStmt(sc.w, fuel - 1, s.body, m) && d == Run(sc, fuel - 1, s.body, st) && Follows(sc, base, r, d)
    requires r.0.Continued? ==> Follows(sc, base, Again(sc.w, fuel - 1, s, r.1), Turns(sc, fuel - 1, s, d.1))
    requires r.0.Normal? ==> Follows(sc, base, Resumed(sc.w, fuel - 1, s, r.1), Further(sc, fuel - 1, s, d.1))
    ensures Follows(sc, base, Round(sc.w, fuel - 1, s, m), Turns(sc, fuel, s, st))
  {
    assert Round(sc.w, fuel - 1, s, m) ==
      match r.0
      case Continued => Again(sc.w, fuel - 1, s, r.1)
      case Broke => (Normal, r.1)
      case Normal => Resumed(sc.w, fuel - 1, s, r.1)
      case _ => r;
    assert Turns(sc, fuel, s, st) ==
      match d.0
      case Repeat => Turns(sc, fuel - 1, s, d.1)
      case Leave => (Onward, d.1)
      case Onward => Further(sc, fuel - 1, s, d.1)
      case _ => d;
  }

  lemma {:induction false} FurtherGives(sc: Scope, fuel: nat, s: Stmt, base: seq<Val>, m: Mem, st: Scene)
    requires IsLoop(s) && TameStmt(sc, s) && Mirrors(sc, base, m, st) && TameFunctions(sc)
    ensures Follows(sc, base, Resumed(sc.w, fuel, s, m), Further(sc, fuel, s, st))
    decreases fuel, s, 3
  {
    if s.For? {
      EffectMoves(sc, fuel, s.incr, base, m, st);
      var (r, m1) := EvalExpr(sc.w, fuel, s.incr, false, m);
      if r.Value? {
        LoopGives(sc, fuel, s, base, m1, Effect(sc, fuel, s.incr, st).1);
      }
    } else {
      LoopGives(sc, fuel, s, base, m, st);
    }
  }
}
