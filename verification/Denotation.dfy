/** What programs mean as values: names stand for values, not for boxes that are shared. No function
    here calls one of the semantics or knows handles. */
module Denotation {
  import opened Wrappers
  import opened Syntax
  import opened Semantics
  import opened InterpretedCells

  /** The instance fields: out of consideration, refused (in a function), or these. */
  datatype Fields = Hidden | Denied | Shown(vals: map<string, Val>)

  /** The values of all names in sight, innermost frame last. */
  datatype Scene = Scene(frames: seq<map<string, Val>>, self: Fields)

  /** The dictionaries, the literals, the user functions that may be called, the names that are
      never assigned to, and whether `this` may occur. */
  datatype Scope = Scope(w: World, lits: seq<Val>, tame: set<string>, fixed: set<string>, sees: bool)

  datatype Trouble = Tossed(v: Val) | Erring(error: Error) | Crash | Endless

  datatype Got = Got(v: Val) | Bad(t: Trouble)

  datatype Flow = Onward | Give(v: Val) | Leave | Repeat | Upset(t: Trouble)

  // ------------------------------------------------------------------ names

  /** The innermost frame that has a name; -1 if none. */
  function Innermost(frames: seq<map<string, Val>>, name: string): (i: int)
    ensures -1 <= i < |frames| && (i >= 0 ==> name in frames[i])
  {
    if frames == [] then -1
    else if name in frames[|frames| - 1] then |frames| - 1
    else Innermost(frames[..|frames| - 1], name)
  }

  datatype Slot = Local(i: nat, name: string) | Field(name: string)

  predicate Has(st: Scene, s: Slot) {
    match s
    case Local(i, name) => i < |st.frames| && name in st.frames[i]
    case Field(name) => st.self.Shown? && name in st.self.vals
  }

  function Get(st: Scene, s: Slot): Val
    requires Has(st, s)
  {
    match s
    case Local(i, name) => st.frames[i][name]
    case Field(name) => st.self.vals[name]
  }

  predicate Room(st: Scene, s: Slot) {
    match s
    case Local(i, _) => i < |st.frames|
    case Field(_) => st.self.Shown?
  }

  function Set(st: Scene, s: Slot, v: Val): (st': Scene)
    requires Room(st, s)
    ensures Has(st', s)
  {
    match s
    case Local(i, name) => st.(frames := st.frames[i := st.frames[i][name := v]])
    case Field(name) => st.(self := Shown(st.self.vals[name := v]))
  }

  /** The place is made, undefined, if it is missing. */
  function Touch(st: Scene, s: Slot): (st': Scene)
    requires Room(st, s)
    ensures Has(st', s)
  {
    if Has(st, s) then st else Set(st, s, Undefined)
  }

  /** As many frames; the fields are there or not as before. */
  predicate SameShape(a: Scene, b: Scene) {
    |a.frames| == |b.frames| && a.self.Shown? == b.self.Shown? && a.self.Hidden? == b.self.Hidden?
  }

  function Opened(st: Scene): Scene {
    st.(frames := st.frames + [map[]])
  }

  function Closed(st: Scene): Scene
    requires |st.frames| > 0
  {
    st.(frames := st.frames[..|st.frames| - 1])
  }

  /** A name: a variable, a constant, a function of the host, a function of the user. */
  function NameWorth(sc: Scope, name: string, st: Scene): Got {
    var i := Innermost(st.frames, name);
    if i >= 0 then Got(st.frames[i][name])
    else if name in sc.w.consts then Got(sc.w.consts[name])
    else if name in sc.w.hostFuns then Got(Func(name, false))
    else if name in sc.w.userFuns then Got(Func(name, true))
    else Bad(Erring(NotFound(name)))
  }

  /** A field; one that was never assigned to is undefined. */
  function FieldWorth(name: string, st: Scene): Got {
    match st.self
    case Shown(vals) => Got(if name in vals then vals[name] else Undefined)
    case _ => Bad(Erring(ThisInFunction))
  }

  /** What stands left of an assignment: an existing variable, or one of the innermost frame. */
  function Aim(st: Scene, e: Expr): Maybe<Slot> {
    if e.Sym? then
      var i := Innermost(st.frames, e.name);
      if i >= 0 then Just(Local(i, e.name)) else if st.frames == [] then Nothing else Just(Local(|st.frames| - 1, e.name))
    else if IsThisMember(e) && st.self.Shown? then Just(Field(SymbolOf(e.right)))
    else Nothing
  }

  // ------------------------------------------------------------------ expressions

  function Operated(v: Maybe<Val>): Got {
    if v.Nothing? then Bad(Erring(BadOperation)) else Got(v.value)
  }

  /** Most unary operators hide what was thrown. */
  function Muffled(g: Got): Got {
    if g.Bad? && g.t.Tossed? then Bad(Erring(Unknown)) else g
  }

  datatype Verdict = Verdict(b: bool) | NoVerdict(t: Trouble)

  function Judged(w: World, g: Got): Verdict {
    if g.Bad? then NoVerdict(g.t)
    else if w.truth(g.v).Nothing? then NoVerdict(Erring(BadCondition))
    else Verdict(w.truth(g.v).value)
  }

  /** Of two operands that fail the one that is evaluated first: the right one in divisions. */
  function Calculated(w: World, op: Kind, x: Got, y: Got): Got {
    if x.Got? && y.Got? then Operated(w.binop(op, x.v, y.v))
    else if y.Got? || (x.Bad? && !op.SLASH? && !op.MOD?) then x
    else y
  }

  datatype Gots = Gots(vs: seq<Val>) | NoGots(t: Trouble)

  /** The value of an expression that assigns nothing. */
  function Worth(sc: Scope, fuel: nat, e: Expr, st: Scene): Got
    decreases fuel, e, 1
  {
    match e
    case Void => Got(Undefined)
    case Primary(box) => Got(if box.Just? && box.value < |sc.lits| then sc.lits[box.value] else Undefined)
    case Sym(name) => NameWorth(sc, name, st)
    case Prefix(op, x) =>
      var g := Worth(sc, fuel, x, st);
      if op.NOT? then (if g.Bad? then g else Operated(sc.w.unop(op, g.v)))
      else if g.Bad? || op.PLUS? then Muffled(g)
      else Operated(sc.w.unop(op, g.v))
    case Cast(ty, x) =>
      var g := Muffled(Worth(sc, fuel, x, st));
      if g.Bad? then g else Operated(sc.w.cast(ty, g.v))
    case Binop(op, l, r) =>
      if IsThisMember(e) then FieldWorth(SymbolOf(r), st)
      else if op.AND? || op.OR? then
        var a := Judged(sc.w, Worth(sc, fuel, l, st));
        if a.NoVerdict? then Bad(a.t)
        else if op.AND? && !a.b then Got(Flag(false))
        else if op.OR? && a.b then Got(Flag(true))
        else
          var b := Judged(sc.w, Worth(sc, fuel, r, st));
          if b.NoVerdict? then Bad(b.t) else Got(Flag(b.b))
      else
        Calculated(sc.w, op, Worth(sc, fuel, l, st), Worth(sc, fuel, r, st))
    case Ternop(c, t, f) =>
      var b := Judged(sc.w, Worth(sc, fuel, c, st));
      if b.NoVerdict? then Bad(b.t)
      else if b.b then Worth(sc, fuel, t, st)
      else Worth(sc, fuel, f, st)
    case Call(_, _) => CallWorth(sc, fuel, e, st)
    case _ => Bad(Erring(Unsupported))
  }

  /** In front of arguments functions hide variables. */
  function CalleeWorth(sc: Scope, fuel: nat, func: Expr, st: Scene): Got
    decreases fuel, func, 2
  {
    if func.Sym? && func.name in sc.w.userFuns then Got(Func(func.name, true))
    else if func.Sym? && func.name in sc.w.hostFuns then Got(Func(func.name, false))
    else Worth(sc, fuel, func, st)
  }

  function Worths(sc: Scope, fuel: nat, args: seq<Expr>, st: Scene): Gots
    decreases fuel, args, 0
  {
    if args == [] then Gots([])
    else
      var g := Worth(sc, fuel, args[0], st);
      if g.Bad? then NoGots(g.t)
      else
        var rest := Worths(sc, fuel, args[1..], st);
        if rest.NoGots? then rest else Gots([g.v] + rest.vs)
  }

  /** First the callee, then the arguments; a member gets an argument in front. */
  function CallWorth(sc: Scope, fuel: nat, e: Expr, st: Scene): Got
    requires e.Call?
    decreases fuel, e, 0
  {
    var fn := CalleeWorth(sc, fuel, e.func, st);
    if fn.Bad? then fn
    else if !fn.v.Func? then Bad(Erring(NotAFunction))
    else
      var vs := Worths(sc, fuel, e.args, st);
      if vs.NoGots? then Bad(vs.t)
      else
        var actuals := if IsThisMember(e.func) then [Undefined] + vs.vs else vs.vs;
        if !fn.v.user then Hosted(sc.w, fn.v.name, actuals)
        else if fuel == 0 then Bad(Endless)
        else Called(sc, fuel - 1, fn.v.name, actuals)
  }

  function Hosted(w: World, name: string, vs: seq<Val>): Got {
    if name !in w.hostFuns || w.hostFuns[name](vs).Nothing? then Bad(Erring(HostFailed)) else Got(w.hostFuns[name](vs).value)
  }

  /** Inside a function the parameters are fixed. */
  function Inside(sc: Scope, f: FunDef): Scope {
    sc.(fixed := (set x | x in f.formals), sees := true)
  }

  /** A call: the body, seeing nothing but the parameters. */
  function Called(sc: Scope, fuel: nat, name: string, vs: seq<Val>): Got
    decreases fuel
  {
    if name !in sc.w.userFuns then Bad(Erring(NoSuchFunction))
    else
      var f := sc.w.userFuns[name];
      if |vs| < |f.formals| then Bad(Crash)
      else
        match Run(Inside(sc, f), fuel, f.body, Scene([Env(f.formals, vs, |f.formals|)], Denied)).0
        case Give(v) => Got(v)
        case Upset(t) => Bad(t)
        case _ => Got(Undefined)
  }

  // ------------------------------------------------------------------ assignments

  /** What a compound assignment makes of its left side, operator by operator; nothing if it throws. */
  function Compounded(w: World, op: Kind, l: Val, r: Val): Maybe<Val> {
    match op
    case ADDASSIGN => if r.Undefined? then Just(l) else if l.Undefined? then Just(r) else w.update(op, l, r)
    case SUBASSIGN => if r.Undefined? then Just(l) else if l.Undefined? then w.unop(MINUS, r) else w.update(op, l, r)
    case MULASSIGN =>
      if l.Undefined? && r.Undefined? then Just(Undefined)
      else if r.Undefined? then Just(w.zero(l))
      else if l.Undefined? then Just(w.blank(r))
      else w.update(op, l, r)
    case DIVASSIGN => if r.Undefined? then Nothing else w.update(op, l, r)
    case MODASSIGN => if r.Undefined? then Nothing else w.update(op, l, r)
    case BITANDASSIGN => if r.Undefined? then Just(w.zero(l)) else if l.Undefined? then Just(w.blank(r)) else w.update(op, l, r)
    case BITORASSIGN => if r.Undefined? then Just(l) else w.update(op, if l.Undefined? then w.blank(r) else l, r)
    case XORASSIGN => if r.Undefined? then Just(l) else w.update(op, if l.Undefined? then w.blank(r) else l, r)
    case _ => if l.Undefined? || r.Undefined? then Just(l) else w.update(op, l, r)
  }

  predicate IsStep(e: Expr) {
    (e.Prefix? || e.Postfix?) && IsIncDec(e.op)
  }

  /** A compound assignment, once the right side has its value. */
  function Changed(w: World, op: Kind, st: Scene, s: Slot, r: Val): (Got, Scene)
    requires Has(st, s)
  {
    var v := Compounded(w, op, Get(st, s), r);
    if v.Nothing? then (Bad(Erring(BadOperation)), st) else (Got(v.value), Set(st, s, v.value))
  }

  /** Behind the operand, an increment gives the value before it. */
  function Stepped(w: World, e: Expr, st: Scene, s: Slot): (Got, Scene)
    requires IsStep(e) && Has(st, s)
  {
    var before := Get(st, s);
    var v := w.unop(e.op, before);
    if v.Nothing? then (Bad(Erring(BadOperation)), st) else (Got(if e.Postfix? then before else v.value), Set(st, s, v.value))
  }

  /** The value of an expression that may assign, and the names afterwards. */
  function Effect(sc: Scope, fuel: nat, e: Expr, st: Scene): (r: (Got, Scene))
    ensures SameShape(r.1, st)
    decreases fuel, e, 2
  {
    if e.Binop? && IsAssign(e.op) then
      var (g, st1) := Effect(sc, fuel, e.right, st);
      var s := Aim(st1, e.left);
      if g.Bad? then (g, st1)
      else if s.Nothing? then (Bad(Erring(ThisInFunction)), st1)
      else if e.op.ASSIGN? then (g, Set(st1, s.value, g.v))
      else
        Changed(sc.w, e.op, Touch(st1, s.value), s.value, g.v)
    else if IsStep(e) then
      var s := Aim(st, e.operand);
      if s.Nothing? then (Bad(Erring(ThisInFunction)), st)
      else
        Stepped(sc.w, e, Touch(st, s.value), s.value)
    else (Worth(sc, fuel, e, st), st)
  }

  // ------------------------------------------------------------------ statements

  function Run(sc: Scope, fuel: nat, s: Stmt, st: Scene): (r: (Flow, Scene))
    ensures SameShape(r.1, st)
    decreases fuel, s, 3
  {
    match s
    case Empty => (Onward, st)
    case Continue => (Repeat, st)
    case Break => (Leave, st)
    case Eval(e) =>
      var (g, st1) := Effect(sc, fuel, e, st);
      (if g.Bad? then Upset(g.t) else Onward, st1)
    case Throw(e) =>
      var (g, st1) := Effect(sc, fuel, e, st);
      (Upset(if g.Bad? then g.t else Tossed(g.v)), st1)
    case Return(e) =>
      var (g, st1) := Effect(sc, fuel, e, st);
      (if g.Bad? then Upset(g.t) else Give(g.v), st1)
    case IfElse(cond, yes, no) =>
      var (g, st1) := Effect(sc, fuel, cond, Opened(st));
      var b := Judged(sc.w, g);
      var (o, st2) :=
        if b.NoVerdict? then (Upset(b.t), st1)
        else if b.b then Run(sc, fuel, yes, st1)
        else if no.SomeStmt? then Run(sc, fuel, no.stmt, st1)
        else (Onward, st1);
      (o, Closed(st2))
    case Compound(stats, own) =>
      if own then
        var (o, st1) := RunAll(sc, fuel, stats, Opened(st));
        (o, Closed(st1))
      else RunAll(sc, fuel, stats, st)
    case TryCatch(body, catchExpr, handler) =>
      var (o, st1) := Attempt(sc, fuel, s, Opened(st));
      (o, Closed(st1))
    case While(_, _) =>
      var (o, st1) := Loop(sc, fuel, s, Opened(st));
      (o, Closed(st1))
    case For(init, _, _, _) =>
      var (g, st1) := Effect(sc, fuel, init, Opened(st));
      var (o, st2) := if g.Bad? then (Upset(g.t), st1) else Loop(sc, fuel, s, st1);
      (o, Closed(st2))
  }

  function RunAll(sc: Scope, fuel: nat, stats: seq<Stmt>, st: Scene): (r: (Flow, Scene))
    ensures SameShape(r.1, st)
    decreases fuel, stats, 0
  {
    if stats == [] then (Onward, st)
    else
      var (o, st1) := Run(sc, fuel, stats[0], st);
      if o.Onward? then RunAll(sc, fuel, stats[1..], st1) else (o, st1)
  }

  /** What a handler is given: the value thrown, or the text of the error. */
  function Handed(w: World, t: Trouble): Val {
    match t
    case Tossed(v) => v
    case Erring(error) => Text(w.describe(error))
    case _ => Undefined
  }

  /** Values thrown and errors are caught; the handler's variable is assigned like any other. */
  function Attempt(sc: Scope, fuel: nat, s: Stmt, st: Scene): (r: (Flow, Scene))
    requires s.TryCatch?
    ensures SameShape(r.1, st)
    decreases fuel, s, 2
  {
    var (o, st1) := Run(sc, fuel, s.body, st);
    if !o.Upset? || o.t.Crash? || o.t.Endless? then (o, st1)
    else if !s.catchExpr.Sym? then Run(sc, fuel, s.handler, st1)
    else
      var st2 := Opened(st1);
      var (o', st3) := Run(sc, fuel, s.handler, Set(st2, Aim(st2, s.catchExpr).value, Handed(sc.w, o.t)));
      (o', Closed(st3))
  }

  /** Test, then go round. */
  function Loop(sc: Scope, fuel: nat, s: Stmt, st: Scene): (r: (Flow, Scene))
    requires IsLoop(s)
    ensures SameShape(r.1, st)
    decreases fuel, s, 2
  {
    var (g, st1) := Effect(sc, fuel, s.cond, st);
    var b := Judged(sc.w, g);
    if b.NoVerdict? then (Upset(b.t), st1)
    else if !b.b then (Onward, st1)
    else Turns(sc, fuel, s, st1)
  }

  /** Body, increment, test; after `continue` the body at once. */
  function Turns(sc: Scope, fuel: nat, s: Stmt, st: Scene): (r: (Flow, Scene))
    requires IsLoop(s)
    ensures SameShape(r.1, st)
    decreases fuel, s, 0
  {
    if fuel == 0 then (Upset(Endless), st)
    else
      var (o, st1) := Run(sc, fuel - 1, s.body, st);
      match o
      case Give(_) => (o, st1)
      case Upset(_) => (o, st1)
      case Leave => (Onward, st1)
      case Repeat => Turns(sc, fuel - 1, s, st1)
      case Onward => Further(sc, fuel - 1, s, st1)
  }

  /** After a round: the increment of a `for`, and the test again. */
  function Further(sc: Scope, fuel: nat, s: Stmt, st: Scene): (r: (Flow, Scene))
    requires IsLoop(s)
    ensures SameShape(r.1, st)
    decreases fuel, s, 3
  {
    if s.While? then Loop(sc, fuel, s, st)
    else
      var (g, st1) := Effect(sc, fuel, s.incr, st);
      if g.Bad? then (Upset(g.t), st1) else Loop(sc, fuel, s, st1)
  }

  // ------------------------------------------------------------------ tame programs

  predicate Callable(sc: Scope, func: Expr) {
    if func.Sym? && func.name in sc.w.userFuns then func.name in sc.tame
    else (func.Sym? && func.name in sc.w.hostFuns) || sc.w.userFuns.Keys <= sc.tame
  }

  /** No assignment, no indexing, no unknown operator; literals in their boxes. */
  predicate Calm(sc: Scope, e: Expr)
    decreases e
  {
    match e
    case Void => true
    case Primary(box) => box.Just? ==> box.value < |sc.lits|
    case Sym(_) => true
    case Prefix(op, x) => IsPrefix(op) && !IsIncDec(op) && Calm(sc, x)
    case Cast(_, x) => Calm(sc, x)
    case Binop(op, l, r) => if IsThisMember(e) then sc.sees else BinaryLevel(op) > 0 && Calm(sc, l) && Calm(sc, r)
    case Ternop(c, t, f) => Calm(sc, c) && Calm(sc, t) && Calm(sc, f)
    case Call(f, args) => Callable(sc, f) && Calm(sc, f) && AllCalm(sc, args)
    case Postfix(_, _) => false
  }

  predicate AllCalm(sc: Scope, es: seq<Expr>)
    decreases es
  {
    es == [] || (Calm(sc, es[0]) && AllCalm(sc, es[1..]))
  }

  predicate Target(sc: Scope, e: Expr) {
    (e.Sym? && e.name !in sc.fixed) || (IsThisMember(e) && sc.sees)
  }

  /** Assignments are whole expressions, or right sides of others. */
  predicate Tame(sc: Scope, e: Expr)
    decreases e
  {
    if e.Binop? && IsAssign(e.op) then Target(sc, e.left) && Tame(sc, e.right)
    else if IsStep(e) then Target(sc, e.operand)
    else Calm(sc, e)
  }

  predicate TameStmt(sc: Scope, s: Stmt)
    decreases s
  {
    match s
    case Eval(e) => Tame(sc, e)
    case Throw(e) => Tame(sc, e)
    case Return(e) => Tame(sc, e)
    case TryCatch(a, e, b) => TameStmt(sc, a) && TameStmt(sc, b) && (e.Sym? ==> Target(sc, e))
    case IfElse(c, a, b) => Tame(sc, c) && TameStmt(sc, a) && (b.SomeStmt? ==> TameStmt(sc, b.stmt))
    case Compound(stats, _) => AllTame(sc, stats)
    case While(c, body) => Tame(sc, c) && TameStmt(sc, body)
    case For(i, c, n, body) => Tame(sc, i) && Tame(sc, c) && Tame(sc, n) && TameStmt(sc, body)
    case _ => true
  }

  predicate AllTame(sc: Scope, stats: seq<Stmt>)
    decreases stats
  {
    stats == [] || (TameStmt(sc, stats[0]) && AllTame(sc, stats[1..]))
  }

  /** The callable user functions are tame themselves. */
  predicate TameFunctions(sc: Scope) {
    forall name :: name in sc.tame ==> name in sc.w.userFuns && TameStmt(Inside(sc, sc.w.userFuns[name]), sc.w.userFuns[name].body)
  }
}
