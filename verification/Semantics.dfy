/** What programs mean: a structured semantics with explicit outcomes and lexical frames.
    Nothing here mentions jump flags, stack pointers or barriers; the interpreter is proved
    to agree with this module. An evaluation or execution gives a result and a new memory: the
    frames in sight, the boxes that values share, and the instance fields. Fuel bounds calls and
    rounds of loops. */
module Semantics {
  import opened Syntax
  import opened Wrappers

  datatype Val = Undefined | Flag(b: bool) | Num(n: int) | Text(s: string) | Func(name: string, user: bool)

  /** A value box may have no box behind it; otherwise it shares one with its copies. */
  type Handle = Maybe<nat>

  type Frame = map<string, Handle>

  datatype FunDef = FunDef(formals: seq<string>, body: Stmt)

  datatype Error = NotFound(name: string) | NotAFunction | NoSuchFunction | BadOperation | BadCondition
                 | ThisInFunction | HostFailed | Unknown | Unsupported

  /** How an expression or statement can end abnormally. `Fault` stands for the out-of-bounds
      read of a call with too few actual arguments; `OutOfFuel` for not ending at all. */
  datatype Raise = Thrown(h: Handle) | Failed(error: Error) | Fault | OutOfFuel

  datatype EvalResult = Value(h: Handle) | Raised(x: Raise)

  datatype Outcome = Normal | Returned(h: Handle) | Broke | Continued | Raising(x: Raise)

  /** The dictionaries and the primitive operations; nothing where the operation throws. `zero` is
      zero stored into a value of that type, `blank` what an undefined value becomes that takes on
      the type. */
  datatype World = World(
    consts: map<string, Val>,
    hostFuns: map<string, seq<Val> -> Maybe<Val>>,
    userFuns: map<string, FunDef>,
    unop: (Kind, Val) -> Maybe<Val>,
    cast: (string, Val) -> Maybe<Val>,
    binop: (Kind, Val, Val) -> Maybe<Val>,
    update: (Kind, Val, Val) -> Maybe<Val>,
    zero: Val -> Val,
    blank: Val -> Val,
    truth: Val -> Maybe<bool>,
    describe: Error -> string)

  /** What a statement can see: the visible frames (innermost last), all boxes, and the instance
      fields of the cell; inside a function there are none of the latter. */
  datatype Mem = Mem(frames: seq<Frame>, boxes: seq<Val>, fields: Maybe<map<string, Handle>>)

  /** Only the innermost frame may have gained names; whether there are instance fields is fixed. */
  ghost predicate Kept(m: Mem, m': Mem) {
    && |m'.frames| == |m.frames| && m'.fields.Just? == m.fields.Just?
    && forall i :: 0 <= i < |m.frames| - 1 ==> m'.frames[i] == m.frames[i]
  }

  function ValueOf(h: Handle, boxes: seq<Val>): Val {
    if h.Just? && h.value < |boxes| then boxes[h.value] else Undefined
  }

  function ValuesOf(hs: seq<Handle>, boxes: seq<Val>): seq<Val> {
    seq(|hs|, i requires 0 <= i < |hs| => ValueOf(hs[i], boxes))
  }

  function Fresh(m: Mem, v: Val): (Handle, Mem) {
    (Just(|m.boxes|), m.(boxes := m.boxes + [v]))
  }

  /** Store through a handle; without a box behind it the copy at hand gets a new one. */
  function Store(m: Mem, h: Handle, v: Val): (Handle, Mem) {
    if h.Nothing? then (if v == Undefined then (h, m) else Fresh(m, v))
    else if h.value < |m.boxes| then (h, m.(boxes := m.boxes[h.value := v]))
    else (h, m)
  }

  function Push(m: Mem, f: Frame): Mem {
    m.(frames := m.frames + [f])
  }

  function Pop(m: Mem): Mem
    requires |m.frames| > 0
  {
    m.(frames := m.frames[..|m.frames| - 1])
  }

  /** The innermost visible binding of a name. */
  function FindVar(frames: seq<Frame>, name: string): Maybe<Handle> {
    if frames == [] then Nothing
    else if name in frames[|frames| - 1] then Just(frames[|frames| - 1][name])
    else FindVar(frames[..|frames| - 1], name)
  }

  /** Look a name up: visible frames, then creation if asked for, then the dictionaries. */
  function Lookup(w: World, name: string, create: bool, m: Mem): (r: (EvalResult, Mem))
    requires |m.frames| > 0
    ensures Kept(m, r.1)
  {
    var found := FindVar(m.frames, name);
    if found.Just? then (Value(found.value), m)
    else if create then
      var (h, m') := Fresh(m, Undefined);
      var top := |m'.frames| - 1;
      (Value(h), m'.(frames := m'.frames[top := m'.frames[top][name := h]]))
    else if name in w.consts then
      var (h, m') := Fresh(m, w.consts[name]);
      (Value(h), m')
    else if name in w.hostFuns then
      var (h, m') := Fresh(m, Func(name, false));
      (Value(h), m')
    else if name in w.userFuns then
      var (h, m') := Fresh(m, Func(name, true));
      (Value(h), m')
    else (Raised(Failed(NotFound(name))), m)
  }

  /** The callee position: functions first, then ordinary lookup. */
  function LookupFunction(w: World, name: string, m: Mem): (r: (EvalResult, Mem))
    requires |m.frames| > 0
    ensures Kept(m, r.1)
  {
    if name in w.userFuns then
      var (h, m') := Fresh(m, Func(name, true));
      (Value(h), m')
    else if name in w.hostFuns then
      var (h, m') := Fresh(m, Func(name, false));
      (Value(h), m')
    else Lookup(w, name, false, m)
  }

  /** `this.name`: a field of the cell, made on demand when it is about to be assigned. */
  function LookupField(name: string, create: bool, m: Mem): (r: (EvalResult, Mem))
    ensures Kept(m, r.1)
  {
    match m.fields
    case Nothing => (Raised(Failed(ThisInFunction)), m)
    case Just(fields) =>
      if name in fields then (Value(fields[name]), m)
      else if create then
        var (h, m') := Fresh(m, Undefined);
        (Value(h), m'.(fields := Just(fields[name := h])))
      else (Value(Nothing), m)
  }

  predicate IsThisMember(e: Expr) {
    e.Binop? && e.op.DOT? && e.left == Sym("this")
  }

  function SymbolOf(e: Expr): string {
    if e.Sym? then e.name else ""
  }

  /** Unary operators run their operand inside a catch-all that turns whatever is thrown
      into an error. */
  function Wrapped(x: Raise): Raise {
    match x
    case Thrown(_) => Failed(Unknown)
    case other => other
  }

  /** Bind actual to formal arguments; reading past the actuals is a fault. */
  function BindFormals(formals: seq<string>, args: seq<Handle>, i: nat): Maybe<Frame>
    requires i <= |formals|
  {
    if i == 0 then Just(map[])
    else
      var front := BindFormals(formals, args, i - 1);
      if front.Nothing? then Nothing
      else if i - 1 < |args| then Just(front.value[formals[i - 1] := args[i - 1]])
      else if i - 1 >= |args| + 2 then Just(front.value[formals[i - 1] := Nothing])
      else Nothing
  }

  // ------------------------------------------------------------------ expressions

  function EvalExpr(w: World, fuel: nat, e: Expr, create: bool, m: Mem): (r: (EvalResult, Mem))
    requires |m.frames| > 0
    ensures Kept(m, r.1)
    decreases fuel, e, 1
  {
    match e
    case Void => (Value(Nothing), m)
    case Primary(box) => (Value(box), m)
    case Sym(name) => Lookup(w, name, create, m)
    case Prefix(op, operand) => EvalPrefix(w, fuel, e, m)
    case Cast(ty, operand) =>
      var (r, m1) := EvalExpr(w, fuel, operand, false, m);
      if r.Raised? then (Raised(Wrapped(r.x)), m1) else FromOp(w.cast(ty, ValueOf(r.h, m1.boxes)), m1)
    case Postfix(operand, op) => EvalPostfix(w, fuel, e, m)
    case Binop(op, left, right) =>
      if op.ASSIGN? then EvalAssign(w, fuel, e, create, m)
      else if IsCompoundAssign(op) then EvalUpdate(w, fuel, e, create, m)
      else if op.AND? || op.OR? then EvalShortCircuit(w, fuel, e, m)
      else if IsThisMember(e) then LookupField(SymbolOf(right), create, m)
      else if op.DOT? || op.LBRACKET? || BinaryLevel(op) == 0 then (Raised(Failed(Unsupported)), m)
      else EvalBinary(w, fuel, e, m)
    case Ternop(cond, onTrue, onFalse) =>
      var (c, m1) := EvalExpr(w, fuel, cond, create, m);
      if c.Raised? then (c, m1)
      else
        var b := w.truth(ValueOf(c.h, m1.boxes));
        if b.Nothing? then (Raised(Failed(BadCondition)), m1)
        else if b.value then EvalExpr(w, fuel, onTrue, create, m1)
        else EvalExpr(w, fuel, onFalse, create, m1)
    case Call(func, args) => EvalCall(w, fuel, e, m)
  }

  function FromOp(v: Maybe<Val>, m: Mem): (r: (EvalResult, Mem))
    ensures Kept(m, r.1)
  {
    if v.Nothing? then (Raised(Failed(BadOperation)), m)
    else
      var (h, m') := Fresh(m, v.value);
      (Value(h), m')
  }

  function EvalPrefix(w: World, fuel: nat, e: Expr, m: Mem): (r: (EvalResult, Mem))
    requires |m.frames| > 0 && e.Prefix?
    ensures Kept(m, r.1)
    decreases fuel, e, 0
  {
    if !IsPrefix(e.op) then (Raised(Failed(Unsupported)), m)
    else
      var (r, m1) := EvalExpr(w, fuel, e.operand, IsIncDec(e.op), m);
      if r.Raised? then (Raised(if e.op == NOT then r.x else Wrapped(r.x)), m1)
      else if e.op == PLUS then (r, m1)
      else
        var v := w.unop(e.op, ValueOf(r.h, m1.boxes));
        if !IsIncDec(e.op) || v.Nothing? then FromOp(v, m1)
        else
          var (h, m2) := Store(m1, r.h, v.value);
          (Value(h), m2)
  }

  function EvalPostfix(w: World, fuel: nat, e: Expr, m: Mem): (r: (EvalResult, Mem))
    requires |m.frames| > 0 && e.Postfix?
    ensures Kept(m, r.1)
    decreases fuel, e, 0
  {
    if !IsIncDec(e.op) then (Raised(Failed(Unsupported)), m)
    else
      var (r, m1) := EvalExpr(w, fuel, e.operand, true, m);
      if r.Raised? then (r, m1)
      else
        var before := ValueOf(r.h, m1.boxes);
        var v := w.unop(e.op, before);
        if v.Nothing? then (Raised(Failed(BadOperation)), m1)
        else FromOp(Just(before), Store(m1, r.h, v.value).1)
  }

  /** Right side first, with the creation flag as it stands, then the left side with creation
      switched on. */
  function EvalAssign(w: World, fuel: nat, e: Expr, create: bool, m: Mem): (r: (EvalResult, Mem))
    requires |m.frames| > 0 && e.Binop?
    ensures Kept(m, r.1)
    decreases fuel, e, 0
  {
    var (r, m1) := EvalExpr(w, fuel, e.right, create, m);
    if r.Raised? then (r, m1)
    else
      var (l, m2) := EvalExpr(w, fuel, e.left, true, m1);
      if l.Raised? then (l, m2)
      else
        var (h, m3) := Store(m2, l.h, ValueOf(r.h, m2.boxes));
        (Value(h), m3)
  }

  function EvalUpdate(w: World, fuel: nat, e: Expr, create: bool, m: Mem): (r: (EvalResult, Mem))
    requires |m.frames| > 0 && e.Binop?
    ensures Kept(m, r.1)
    decreases fuel, e, 0
  {
    var (r, m1) := EvalExpr(w, fuel, e.right, create, m);
    if r.Raised? then (r, m1)
    else
      var (l, m2) := EvalExpr(w, fuel, e.left, true, m1);
      if l.Raised? then (l, m2) else Update(w, e.op, l.h, ValueOf(r.h, m2.boxes), m2)
  }

  /** What a compound assignment does to the left side; undefined values are special. */
  datatype Change = Keep | Put(v: Val) | Throws

  function Combine(w: World, op: Kind, l: Val, r: Val): Change {
    if r.Undefined? then
      if op.DIVASSIGN? || op.MODASSIGN? then Throws
      else if op.BITANDASSIGN? || (op.MULASSIGN? && !l.Undefined?) then Put(w.zero(l))
      else Keep
    else if !l.Undefined? || op.DIVASSIGN? || op.MODASSIGN? then FromUpdate(w.update(op, l, r))
    else if op.ADDASSIGN? then Put(r)
    else if op.SUBASSIGN? then FromUpdate(w.unop(MINUS, r))
    else if op.MULASSIGN? || op.BITANDASSIGN? then Put(w.blank(r))
    else if op.LSHIFTASSIGN? || op.RSHIFTASSIGN? then Keep
    else FromUpdate(w.update(op, w.blank(r), r))
  }

  function FromUpdate(v: Maybe<Val>): Change {
    if v.Nothing? then Throws else Put(v.value)
  }

  function Update(w: World, op: Kind, h: Handle, r: Val, m: Mem): (EvalResult, Mem) {
    match Combine(w, op, ValueOf(h, m.boxes), r)
    case Keep => (Value(h), m)
    case Throws => (Raised(Failed(BadOperation)), m)
    case Put(v) =>
      var (h', m') := Store(m, h, v);
      (Value(h'), m')
  }

  function EvalShortCircuit(w: World, fuel: nat, e: Expr, m: Mem): (r: (EvalResult, Mem))
    requires |m.frames| > 0 && e.Binop?
    ensures Kept(m, r.1)
    decreases fuel, e, 0
  {
    var (l, m1) := EvalExpr(w, fuel, e.left, false, m);
    if l.Raised? then (l, m1)
    else
      var b := w.truth(ValueOf(l.h, m1.boxes));
      if b.Nothing? then (Raised(Failed(BadCondition)), m1)
      else if b.value == e.op.OR? then FromOp(Just(Flag(b.value)), m1)
      else
        var (r, m2) := EvalExpr(w, fuel, e.right, false, m1);
        if r.Raised? then (r, m2)
        else
          var c := w.truth(ValueOf(r.h, m2.boxes));
          if c.Nothing? then (Raised(Failed(BadCondition)), m2) else FromOp(Just(Flag(c.value)), m2)
  }

  /** Division and remainder evaluate the right operand first. */
  predicate RightFirst(op: Kind) {
    op.SLASH? || op.MOD?
  }

  function EvalBinary(w: World, fuel: nat, e: Expr, m: Mem): (r: (EvalResult, Mem))
    requires |m.frames| > 0 && e.Binop?
    ensures Kept(m, r.1)
    decreases fuel, e, 0
  {
    var (a, m1) := EvalExpr(w, fuel, if RightFirst(e.op) then e.right else e.left, false, m);
    if a.Raised? then (a, m1)
    else
      var (b, m2) := EvalExpr(w, fuel, if RightFirst(e.op) then e.left else e.right, false, m1);
      if b.Raised? then (b, m2)
      else
        var x, y := ValueOf(a.h, m2.boxes), ValueOf(b.h, m2.boxes);
        FromOp(if RightFirst(e.op) then w.binop(e.op, y, x) else w.binop(e.op, x, y), m2)
  }

  datatype ArgsResult = Args(hs: seq<Handle>) | ArgsRaised(x: Raise)

  function EvalArgs(w: World, fuel: nat, args: seq<Expr>, m: Mem): (r: (ArgsResult, Mem))
    requires |m.frames| > 0
    ensures Kept(m, r.1)
    decreases fuel, args, 0
  {
    if args == [] then (Args([]), m)
    else
      var (h, m1) := EvalExpr(w, fuel, args[0], false, m);
      if h.Raised? then (ArgsRaised(h.x), m1)
      else
        var (hs, m2) := EvalArgs(w, fuel, args[1..], m1);
        if hs.ArgsRaised? then (hs, m2) else (Args([h.h] + hs.hs), m2)
  }

  function EvalCallee(w: World, fuel: nat, func: Expr, m: Mem): (r: (EvalResult, Mem))
    requires |m.frames| > 0
    ensures Kept(m, r.1)
    decreases fuel, func, 2
  {
    if func.Sym? then LookupFunction(w, func.name, m) else EvalExpr(w, fuel, func, false, m)
  }

  function EvalCall(w: World, fuel: nat, e: Expr, m: Mem): (r: (EvalResult, Mem))
    requires |m.frames| > 0 && e.Call?
    ensures Kept(m, r.1)
    decreases fuel, e, 0
  {
    var (f, m1) := EvalCallee(w, fuel, e.func, m);
    if f.Raised? then (f, m1)
    else
      var fn := ValueOf(f.h, m1.boxes);
      if !fn.Func? then (Raised(Failed(NotAFunction)), m1)
      else
        var (hs, m2) := EvalArgs(w, fuel, e.args, m1);
        if hs.ArgsRaised? then (Raised(hs.x), m2)
        else
          Invoke(w, fuel, e.func, fn, hs.hs, m2)
  }

  /** Call the function value `fn` that node `func` evaluated to. A member callee receives what
      was left of the dot as an extra first argument; `this.f` leaves that empty. */
  function Invoke(w: World, fuel: nat, func: Expr, fn: Val, args: seq<Handle>, m: Mem): (r: (EvalResult, Mem))
    requires |m.frames| > 0 && fn.Func?
    ensures Kept(m, r.1)
    decreases fuel, func, 0
  {
    var actuals := if IsThisMember(func) then [Nothing] + args else args;
    if fn.user then
      if fuel == 0 then (Raised(OutOfFuel), m)
      else
        var (r, boxes) := CallUser(w, fuel - 1, fn.name, actuals, m.boxes);
        (r, m.(boxes := boxes))
    else if fn.name in w.hostFuns then
      var v := w.hostFuns[fn.name](ValuesOf(actuals, m.boxes));
      if v.Nothing? then (Raised(Failed(HostFailed)), m) else FromOp(v, m)
    else (Raised(Failed(HostFailed)), m)
  }

  /** A user function sees its arguments, the boxes and the dictionaries: no frame of the
      caller and no instance field is an argument of this function. */
  function CallUser(w: World, fuel: nat, name: string, args: seq<Handle>, boxes: seq<Val>): (EvalResult, seq<Val>)
    decreases fuel
  {
    if name !in w.userFuns then (Raised(Failed(NoSuchFunction)), boxes)
    else
      var f := w.userFuns[name];
      var frame := BindFormals(f.formals, args, |f.formals|);
      if frame.Nothing? then (Raised(Fault), boxes)
      else
        BodyResult(w, fuel, f, frame.value, boxes)
  }

  function BodyResult(w: World, fuel: nat, f: FunDef, frame: Frame, boxes: seq<Val>): (EvalResult, seq<Val>)
    decreases fuel, f.body, 3
  {
    var (o, m) := ExecStmt(w, fuel, f.body, Mem([frame], boxes, Nothing));
    (match o
     case Raising(x) => Raised(x)
     case Returned(h) => Value(h)
     case _ => Value(Nothing), m.boxes)
  }

  // ------------------------------------------------------------------ statements

  function ExecStmt(w: World, fuel: nat, s: Stmt, m: Mem): (r: (Outcome, Mem))
    requires |m.frames| > 0
    ensures Kept(m, r.1)
    decreases fuel, s, 2
  {
    match s
    case Empty => (Normal, m)
    case Eval(e) =>
      var (r, m1) := EvalExpr(w, fuel, e, false, m);
      (if r.Raised? then Raising(r.x) else Normal, m1)
    case Throw(e) =>
      var (r, m1) := EvalExpr(w, fuel, e, false, m);
      (Raising(if r.Raised? then r.x else Thrown(r.h)), m1)
    case TryCatch(_, _, _) =>
      var (o, m1) := ExecTry(w, fuel, s, Push(m, map[]));
      (o, Pop(m1))
    case IfElse(_, _, _) =>
      var (o, m1) := ExecIf(w, fuel, s, Push(m, map[]));
      (o, Pop(m1))
    case Compound(stats, own) =>
      if own then
        var (o, m1) := ExecSeq(w, fuel, stats, Push(m, map[]));
        (o, Pop(m1))
      else ExecSeq(w, fuel, stats, m)
    case While(_, _) =>
      var (o, m1) := ExecLoop(w, fuel, s, Push(m, map[]));
      (o, Pop(m1))
    case For(init, _, _, _) =>
      var (r, m0) := EvalExpr(w, fuel, init, false, Push(m, map[]));
      if r.Raised? then (Raising(r.x), Pop(m0))
      else
        var (o, m1) := ExecLoop(w, fuel, s, m0);
        (o, Pop(m1))
    case Continue => (Continued, m)
    case Break => (Broke, m)
    case Return(e) =>
      var (r, m1) := EvalExpr(w, fuel, e, false, m);
      (if r.Raised? then Raising(r.x) else Returned(r.h), m1)
  }

  function ExecSeq(w: World, fuel: nat, stats: seq<Stmt>, m: Mem): (r: (Outcome, Mem))
    requires |m.frames| > 0
    ensures Kept(m, r.1)
    decreases fuel, stats, 0
  {
    if stats == [] then (Normal, m)
    else
      var (o, m1) := ExecStmt(w, fuel, stats[0], m);
      if o.Normal? then ExecSeq(w, fuel, stats[1..], m1) else (o, m1)
  }

  /** A condition: its truth value or how it failed. */
  datatype Cond = Holds(b: bool) | CondRaised(x: Raise)

  function EvalCond(w: World, fuel: nat, cond: Expr, m: Mem): (r: (Cond, Mem))
    requires |m.frames| > 0
    ensures Kept(m, r.1)
    decreases fuel, cond, 2
  {
    var (r, m1) := EvalExpr(w, fuel, cond, false, m);
    if r.Raised? then (CondRaised(r.x), m1)
    else
      var b := w.truth(ValueOf(r.h, m1.boxes));
      (if b.Nothing? then CondRaised(Failed(BadCondition)) else Holds(b.value), m1)
  }

  function ExecIf(w: World, fuel: nat, s: Stmt, m: Mem): (r: (Outcome, Mem))
    requires |m.frames| > 0 && s.IfElse?
    ensures Kept(m, r.1)
    decreases fuel, s, 1
  {
    var (c, m1) := EvalCond(w, fuel, s.cond, m);
    if c.CondRaised? then (Raising(c.x), m1)
    else if c.b then ExecStmt(w, fuel, s.yes, m1)
    else if s.no.SomeStmt? then ExecStmt(w, fuel, s.no.stmt, m1)
    else (Normal, m1)
  }

  predicate Catchable(x: Raise) {
    x.Thrown? || x.Failed?
  }

  /** The caught value, or the text describing an error. */
  function Caught(w: World, x: Raise, boxes: seq<Val>): Val {
    match x
    case Thrown(h) => ValueOf(h, boxes)
    case Failed(e) => Text(w.describe(e))
    case _ => Undefined
  }

  function ExecTry(w: World, fuel: nat, s: Stmt, m: Mem): (r: (Outcome, Mem))
    requires |m.frames| > 0 && s.TryCatch?
    ensures Kept(m, r.1)
    decreases fuel, s, 1
  {
    var (o, m1) := ExecStmt(w, fuel, s.body, m);
    if !o.Raising? || !Catchable(o.x) then (o, m1)
    else if s.catchExpr.Sym? then
      var (o', m2) := ExecHandler(w, fuel, s, o.x, Push(m1, map[]));
      (o', Pop(m2))
    else ExecStmt(w, fuel, s.handler, m1)
  }

  /** The variable of a handler is found or made, then assigned. */
  function BindCaught(w: World, name: string, x: Raise, m: Mem): (m': Mem)
    requires |m.frames| > 0
    ensures Kept(m, m')
  {
    var (r, m1) := Lookup(w, name, true, m);
    Store(m1, r.h, Caught(w, x, m1.boxes)).1
  }

  function ExecHandler(w: World, fuel: nat, s: Stmt, x: Raise, m: Mem): (r: (Outcome, Mem))
    requires |m.frames| > 0 && s.TryCatch? && s.catchExpr.Sym?
    ensures Kept(m, r.1)
    decreases fuel, s, 0
  {
    ExecStmt(w, fuel, s.handler, BindCaught(w, s.catchExpr.name, x, m))
  }

  predicate IsLoop(s: Stmt) {
    s.While? || s.For?
  }

  /** Enter a loop: test the condition, then go round. */
  function ExecLoop(w: World, fuel: nat, s: Stmt, m: Mem): (r: (Outcome, Mem))
    requires |m.frames| > 0 && IsLoop(s)
    ensures Kept(m, r.1)
    decreases fuel, s, 1
  {
    var (c, m1) := EvalCond(w, fuel, s.cond, m);
    if c.CondRaised? then (Raising(c.x), m1)
    else if !c.b then (Normal, m1)
    else Again(w, fuel, s, m1)
  }

  function Again(w: World, fuel: nat, s: Stmt, m: Mem): (r: (Outcome, Mem))
    requires |m.frames| > 0 && IsLoop(s)
    ensures Kept(m, r.1)
    decreases fuel, s, 0
  {
    if fuel == 0 then (Raising(OutOfFuel), m) else Round(w, fuel - 1, s, m)
  }

  /** Go round the body; the condition is known to hold. After `continue` the body runs again
      at once: neither the increment nor the condition is evaluated. */
  function Round(w: World, fuel: nat, s: Stmt, m: Mem): (r: (Outcome, Mem))
    requires |m.frames| > 0 && IsLoop(s)
    ensures Kept(m, r.1)
    decreases fuel
  {
    var (o, m1) := ExecStmt(w, fuel, s.body, m);
    match o
    case Raising(_) => (o, m1)
    case Returned(_) => (o, m1)
    case Continued => Again(w, fuel, s, m1)
    case Broke => (Normal, m1)
    case Normal =>
      var (r, m2) := Advance(w, fuel, s, m1);
      if r.Raised? then (Raising(r.x), m2) else ExecLoop(w, fuel, s, m2)
  }

  /** The increment of a for loop; a while loop has none. */
  function Advance(w: World, fuel: nat, s: Stmt, m: Mem): (r: (EvalResult, Mem))
    requires |m.frames| > 0 && IsLoop(s)
    ensures Kept(m, r.1)
    decreases fuel, s, 1
  {
    if s.While? then (Value(Nothing), m) else EvalExpr(w, fuel, s.incr, false, m)
  }
}
