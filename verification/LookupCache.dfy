/** A symbol node remembers in which dictionary it found its name and looks there first the next
    time. When that agrees with looking the name up from scratch. */
module LookupCache {
  import opened Syntax
  import opened Semantics
  import opened ExecutionContext
  import opened Wrappers

  datatype Category = Unresolved | StackVar | GlobalVar | UserFun | GlobalFun | Method

  predicate IsGlobal(cat: Category) {
    cat.GlobalVar? || cat.UserFun? || cat.GlobalFun?
  }

  /** The category a lookup from scratch ends in. */
  function CategoryOf(w: World, name: string, create: bool, m: Mem): Category {
    if FindVar(m.frames, name).Just? || create then StackVar
    else if name in w.consts then GlobalVar
    else if name in w.hostFuns then GlobalFun
    else if name in w.userFuns then UserFun
    else Unresolved
  }

  datatype Found = Found(result: EvalResult, mem: Mem, cat: Category)

  function FromScratch(w: World, name: string, create: bool, m: Mem): Found
    requires |m.frames| > 0
  {
    var (r, m') := Lookup(w, name, create, m);
    Found(r, m', CategoryOf(w, name, create, m))
  }

  function Clone(m: Mem, v: Val, cat: Category): Found {
    var (h, m') := Fresh(m, v);
    Found(Value(h), m', cat)
  }

  /** The remembered category is tried first; where it fails, everything is tried. */
  function Remembered(w: World, name: string, create: bool, cat: Category, m: Mem): Found
    requires |m.frames| > 0
  {
    match cat
    case UserFun => if name in w.userFuns then Clone(m, Func(name, true), cat) else FromScratch(w, name, create, m)
    case GlobalFun => if name in w.hostFuns then Clone(m, Func(name, false), cat) else FromScratch(w, name, create, m)
    case GlobalVar => if name in w.consts then Clone(m, w.consts[name], cat) else FromScratch(w, name, create, m)
    case StackVar => RememberedOnStack(w, name, create, m)
    case _ => FromScratch(w, name, create, m)
  }

  /** The stack part of the search on its own: visible frames, then creation. */
  function RememberedOnStack(w: World, name: string, create: bool, m: Mem): Found
    requires |m.frames| > 0
  {
    var found := FindVar(m.frames, name);
    if found.Just? then Found(Value(found.value), m, StackVar)
    else if create then
      var (h, m') := Fresh(m, Undefined);
      var top := |m'.frames| - 1;
      Found(Value(h), m'.(frames := m'.frames[top := m'.frames[top][name := h]]), StackVar)
    else FromScratch(w, name, create, m)
  }

  /** The remembered dictionary still has the name. */
  predicate Hits(w: World, name: string, cat: Category) {
    match cat
    case UserFun => name in w.userFuns
    case GlobalFun => name in w.hostFuns
    case GlobalVar => name in w.consts
    case _ => false
  }

  predicate Agree(a: Found, b: Found) {
    a.result == b.result && a.mem == b.mem
  }

  /** One lookup: remembering makes no difference exactly when the remembered dictionary lacks the
      name, or the name is not visible locally, is not to be created, and is in no dictionary that
      would be searched earlier. */
  lemma RememberingAgreesIff(w: World, name: string, create: bool, cat: Category, m: Mem)
    requires |m.frames| > 0
    ensures Agree(Remembered(w, name, create, cat, m), FromScratch(w, name, create, m)) <==>
      (Hits(w, name, cat) ==> FindVar(m.frames, name).Nothing? && !create && SameValue(w, name, cat))
  {
    if Hits(w, name, cat) {
      var a, b := Remembered(w, name, create, cat, m), FromScratch(w, name, create, m);
      assert |a.mem.boxes| == |m.boxes| + 1;
      if FindVar(m.frames, name).Nothing? && create {
        var top := |m.frames| - 1;
        FreshName(m.frames, name);
        assert name in b.mem.frames[top] && name !in a.mem.frames[top];
      } else if FindVar(m.frames, name).Nothing? {
        assert a.mem.boxes[|m.boxes|] == Stored(w, name, cat);
        assert b.mem.boxes[|m.boxes|] == Stored(w, name, FirstCategory(w, name));
      }
    }
  }

  /** What the dictionary of a category has under the name. */
  function Stored(w: World, name: string, cat: Category): Val {
    match cat
    case UserFun => Func(name, true)
    case GlobalFun => Func(name, false)
    case GlobalVar => if name in w.consts then w.consts[name] else Undefined
    case _ => Undefined
  }

  function FirstCategory(w: World, name: string): Category {
    if name in w.consts then GlobalVar else if name in w.hostFuns then GlobalFun else if name in w.userFuns then UserFun else Unresolved
  }

  /** The first dictionary to have the name has the same value as the remembered one. */
  predicate SameValue(w: World, name: string, cat: Category) {
    Stored(w, name, cat) == Stored(w, name, FirstCategory(w, name))
  }

  /** Outside the stack category a lookup is a copy from the dictionary or starts from scratch. */
  lemma HitOrMiss(w: World, name: string, create: bool, cat: Category, m: Mem)
    requires |m.frames| > 0 && !cat.StackVar?
    ensures Remembered(w, name, create, cat, m) ==
      if Hits(w, name, cat) then Clone(m, Stored(w, name, cat), cat) else FromScratch(w, name, create, m)
  {
  }

  lemma FreshName(frames: seq<Frame>, name: string)
    requires |frames| > 0 && FindVar(frames, name).Nothing?
    ensures name !in frames[|frames| - 1]
  {
  }

  // ------------------------------------------------------------------ any number of uses

  /** What a node remembers: where it found its name and, for a constant, the box it gave out. */
  datatype Memory = Memory(cat: Category, kept: Maybe<Handle>)

  /** One evaluation of the node, with what is visible and whether a missing name is to be created;
      or an assignment through the node, which makes it drop the box. */
  datatype Use = Use(create: bool, mem: Mem) | Reset

  ghost predicate Proper(uses: seq<Use>) {
    forall u :: u in uses && u.Use? ==> |u.mem.frames| > 0
  }

  datatype Answer = Answer(result: EvalResult, mem: Mem, node: Memory)

  /** A constant's box is given out again and again; without one the name is looked up. A failed
      lookup leaves the node unchanged. */
  function Evaluated(w: World, name: string, u: Use, n: Memory): Answer
    requires u.Use? && |u.mem.frames| > 0
  {
    if n.kept.Just? then Answer(Value(n.kept.value), u.mem, n)
    else
      var f := Remembered(w, name, u.create, n.cat, u.mem);
      Answer(f.result, f.mem,
             if f.result.Raised? then n else Memory(f.cat, if f.cat.GlobalVar? then Just(f.result.h) else Nothing))
  }

  /** The node after the uses so far. */
  function After(w: World, name: string, uses: seq<Use>): Memory
    requires Proper(uses)
  {
    if uses == [] then Memory(Unresolved, Nothing)
    else
      var n := After(w, name, uses[..|uses| - 1]);
      var u := uses[|uses| - 1];
      if u.Reset? then n.(kept := Nothing) else Evaluated(w, name, u, n).node
  }

  /** The name is bound or created locally. */
  predicate Shadowed(name: string, u: Use)
    requires u.Use?
  {
    FindVar(u.mem.frames, name).Just? || u.create
  }

  /** Some use so far found the name in a dictionary. */
  predicate FoundGlobally(w: World, name: string, uses: seq<Use>) {
    IsGlobal(FirstCategory(w, name)) && exists i :: 0 <= i < |uses| && uses[i].Use? && !Shadowed(name, uses[i])
  }

  /** The use whose box the node keeps: the first one since the box was last dropped that gave the
      constant. */
  function KeptSince(w: World, name: string, uses: seq<Use>): (k: Maybe<nat>)
    ensures k.Just? ==> k.value < |uses| && uses[k.value].Use?
  {
    if uses == [] || uses[|uses| - 1].Reset? then Nothing
    else
      var k := KeptSince(w, name, uses[..|uses| - 1]);
      if k.Just? then k else if name in w.consts && FoundGlobally(w, name, uses) then Just(|uses| - 1) else Nothing
  }

  /** Before any use finds the name in a dictionary nothing global is remembered; from then on it is
      the first dictionary that has the name, and for a constant also the box of the first use since
      the last assignment. */
  lemma {:induction false} WhatIsRemembered(w: World, name: string, uses: seq<Use>)
    requires Proper(uses)
    ensures var n := After(w, name, uses);
      && (IsGlobal(n.cat) <==> FoundGlobally(w, name, uses))
      && (IsGlobal(n.cat) ==> n.cat == FirstCategory(w, name) && Hits(w, name, n.cat))
      && !n.cat.Method?
      && n.kept == (match KeptSince(w, name, uses) case Nothing => Nothing case Just(k) => Just(Just(|uses[k].mem.boxes|)))
    decreases |uses|
  {
    if uses != [] {
      var before := uses[..|uses| - 1];
      WhatIsRemembered(w, name, before);
      FoundBefore(w, name, uses);
      if KeptSince(w, name, before).Just? {
        KeptImpliesFound(w, name, before);
      }
    }
  }

  lemma FoundBefore(w: World, name: string, uses: seq<Use>)
    requires |uses| > 0
    ensures var u := uses[|uses| - 1]; FoundGlobally(w, name, uses) <==>
      FoundGlobally(w, name, uses[..|uses| - 1]) || (IsGlobal(FirstCategory(w, name)) && u.Use? && !Shadowed(name, u))
  {
    var before := uses[..|uses| - 1];
    assert forall i :: 0 <= i < |before| ==> uses[i] == before[i];
  }

  lemma {:induction false} KeptImpliesFound(w: World, name: string, uses: seq<Use>)
    requires KeptSince(w, name, uses).Just?
    ensures name in w.consts && FoundGlobally(w, name, uses)
    decreases |uses|
  {
    var before := uses[..|uses| - 1];
    FoundBefore(w, name, uses);
    if KeptSince(w, name, before).Just? {
      KeptImpliesFound(w, name, before);
    }
  }

  /** The value a node that has found its name in a dictionary is about to give: what is in the box
      it keeps, or else what the dictionary has. */
  function Pending(w: World, name: string, uses: seq<Use>, i: nat): Val
    requires i < |uses| && uses[i].Use?
  {
    match KeptSince(w, name, uses[..i])
    case Just(k) => ValueOf(Just(|uses[k].mem.boxes|), uses[i].mem.boxes)
    case Nothing => Stored(w, name, FirstCategory(w, name))
  }

  /** The value and the frames are those of a lookup from scratch. */
  ghost predicate AgreesAt(w: World, name: string, uses: seq<Use>, i: nat)
    requires i < |uses| && uses[i].Use? && Proper(uses)
  {
    var a := Evaluated(w, name, uses[i], After(w, name, uses[..i]));
    var b := FromScratch(w, name, uses[i].create, uses[i].mem);
    && a.mem.frames == b.mem.frames
    && if a.result.Value? && b.result.Value? then ValueOf(a.result.h, a.mem.boxes) == ValueOf(b.result.h, b.mem.boxes)
       else a.result == b.result
  }

  /** The pending value is what the name stands for now. */
  predicate StillRight(w: World, name: string, uses: seq<Use>, i: nat)
    requires i < |uses| && uses[i].Use?
  {
    var m := uses[i].mem;
    match FindVar(m.frames, name)
    case Just(h) => Pending(w, name, uses, i) == ValueOf(h, m.boxes)
    case Nothing => !uses[i].create && Pending(w, name, uses, i) == Stored(w, name, FirstCategory(w, name))
  }

  /** Over any sequence of uses with fixed dictionaries, a use agrees with a lookup from scratch if
      and only if the name has not yet been found in a dictionary, or the value pending there is
      still right: no local of another value shadows it, it is not to be created, and nobody has
      stored into the box of the constant. */
  lemma SequenceAgreesIff(w: World, name: string, uses: seq<Use>, i: nat)
    requires Proper(uses) && i < |uses| && uses[i].Use?
    ensures AgreesAt(w, name, uses, i) <==> (FoundGlobally(w, name, uses[..i]) ==> StillRight(w, name, uses, i))
  {
    WhatIsRemembered(w, name, uses[..i]);
    var n, m := After(w, name, uses[..i]), uses[i].mem;
    if n.kept.Just? {
      KeptImpliesFound(w, name, uses[..i]);
    }
    if FindVar(m.frames, name).Nothing? && uses[i].create {
      FreshName(m.frames, name);
      var top := |m.frames| - 1;
      assert name in FromScratch(w, name, true, m).mem.frames[top] && name !in m.frames[top];
    }
  }

  /** So where no local has the name, a use agrees exactly if the box of the constant, if one is
      kept, still holds the constant. The name of a function always agrees. */
  lemma UnshadowedAgreesIff(w: World, name: string, uses: seq<Use>, i: nat)
    requires Proper(uses) && i < |uses| && uses[i].Use? && !Shadowed(name, uses[i])
    ensures AgreesAt(w, name, uses, i) <==>
      (KeptSince(w, name, uses[..i]).Just? ==> Pending(w, name, uses, i) == Stored(w, name, GlobalVar))
  {
    SequenceAgreesIff(w, name, uses, i);
    if KeptSince(w, name, uses[..i]).Just? {
      KeptImpliesFound(w, name, uses[..i]);
    }
  }

  /** A constant found once and then assigned locally: the second lookup still gives the constant. */
  lemma ShadowingIsMissed(w: World, name: string, m: Mem)
    requires name in w.consts && |m.frames| > 0 && FindVar(m.frames, name).Nothing?
    ensures var uses := [Use(false, m), Use(true, m)]; AgreesAt(w, name, uses, 0) && !AgreesAt(w, name, uses, 1)
  {
    var uses := [Use(false, m), Use(true, m)];
    assert !Shadowed(name, uses[..1][0]);
    SequenceAgreesIff(w, name, uses, 0);
    SequenceAgreesIff(w, name, uses, 1);
  }

  /** The function `f(a) { ++a; }`. */
  function Increment(): FunDef {
    FunDef(["a"], Eval(Prefix(INCREMENT, Sym("a"))))
  }

  /** No local shadows anything here: a constant is passed to a function that increments its
      parameter, and the next use of the same node passes what the function made of it. */
  lemma CallChangesTheConstant(w: World, fuel: nat, name: string, f: string, next: Val, m: Mem)
    requires name in w.consts && |m.frames| > 0 && FindVar(m.frames, name).Nothing?
    requires f in w.userFuns && w.userFuns[f] == Increment()
    requires w.unop(INCREMENT, w.consts[name]) == Just(next) && next != w.consts[name]
    ensures var first := Evaluated(w, name, Use(false, m), Memory(Unresolved, Nothing));
      first.result.Value? &&
      var (r, boxes) := CallUser(w, fuel, f, [first.result.h], first.mem.boxes);
      var uses := [Use(false, m), Use(false, first.mem.(boxes := boxes))];
      && r.Value? && AgreesAt(w, name, uses, 0) && !AgreesAt(w, name, uses, 1)
      && Pending(w, name, uses, 1) == next
  {
    var first := Evaluated(w, name, Use(false, m), Memory(Unresolved, Nothing));
    var arg := first.result.h;
    IncrementRuns(w, fuel, f, arg, next, first.mem.boxes);
    var (r, boxes) := CallUser(w, fuel, f, [arg], first.mem.boxes);
    var uses := [Use(false, m), Use(false, first.mem.(boxes := boxes))];
    assert uses[..1] == [uses[0]] && uses[..0] == [];
    assert !Shadowed(name, uses[..1][0]);
    assert FoundGlobally(w, name, uses[..1]);
    assert KeptSince(w, name, uses[..1]) == Just(0);
    SequenceAgreesIff(w, name, uses, 0);
    SequenceAgreesIff(w, name, uses, 1);
  }

  /** What calling that function does to the box it is passed. */
  lemma IncrementRuns(w: World, fuel: nat, f: string, arg: Handle, next: Val, boxes: seq<Val>)
    requires f in w.userFuns && w.userFuns[f] == Increment()
    requires arg.Just? && arg.value < |boxes| && w.unop(INCREMENT, ValueOf(arg, boxes)) == Just(next)
    ensures var (r, boxes') := CallUser(w, fuel, f, [arg], boxes); r.Value? && ValueOf(arg, boxes') == next
  {
    assert BindFormals(["a"], [arg], 0) == Just(map[]);
    assert BindFormals(["a"], [arg], 1) == Just(map["a" := arg]);
    var m := Mem([map["a" := arg]], boxes, Nothing);
    var m' := m.(boxes := boxes[arg.value := next]);
    assert FindVar(m.frames, "a") == Just(arg);
    assert EvalPrefix(w, fuel, Increment().body.expr, m) == (Value(arg), m');
    assert ExecStmt(w, fuel, Increment().body, m) == (Normal, m');
  }

  // ------------------------------------------------------------------ the node

  class SymbolNode {
    const name: string
    var category: Category
    var primary: bool
    var primaryVal: Handle

    constructor (name: string)
      ensures this.name == name && Remembers() == Memory(Unresolved, Nothing)
    {
      this.name, category, primary, primaryVal := name, Unresolved, false, Nothing;
    }

    ghost function Remembers(): Memory
      reads this
    {
      Memory(category, if primary then Just(primaryVal) else Nothing)
    }

    /** Evaluate the symbol where it is not a callee: a constant's box is kept and shared. */
    method Eval(ctx: Context, w: World) returns (r: EvalResult)
      requires Consistent(ctx.Snap())
      modifies this, ctx`stack, ctx`boxes
      ensures Restored(old(ctx.Snap()), ctx.Snap())
      ensures var a := Evaluated(w, name, Use(ctx.create, old(MemOf(ctx.Snap()))), old(Remembers()));
        r == a.result && MemOf(ctx.Snap()) == a.mem && Remembers() == a.node
    {
      if primary {
        return Value(primaryVal);
      }
      r := FindVal(ctx, w);
      if r.Value? && category.GlobalVar? {
        primaryVal, primary := r.h, true;
      }
    }

    /** An assignment through the node drops the kept box. */
    method ResetPrimary()
      modifies this`primary
      ensures Remembers() == old(Remembers()).(kept := Nothing)
    {
      primary := false;
    }

    /** Resolve the symbol, looking first where it was found before. */
    method FindVal(ctx: Context, w: World) returns (r: EvalResult)
      requires Consistent(ctx.Snap())
      modifies this`category, ctx`stack, ctx`boxes
      ensures Restored(old(ctx.Snap()), ctx.Snap())
      ensures var f := Remembered(w, name, ctx.create, old(category), old(MemOf(ctx.Snap())));
        r == f.result && MemOf(ctx.Snap()) == f.mem && category == (if r.Raised? then old(category) else f.cat)
    {
      var hit := FindRemembered(ctx, w);
      if hit.Just? {
        return hit.value;
      }
      r := FindFromScratch(ctx, w);
    }

    /** Look where the name was found before; nothing if it is not there any more. */
    method FindRemembered(ctx: Context, w: World) returns (hit: Maybe<EvalResult>)
      requires Consistent(ctx.Snap())
      modifies ctx`stack, ctx`boxes
      ensures Restored(old(ctx.Snap()), ctx.Snap())
      ensures var f := Remembered(w, name, ctx.create, category, old(MemOf(ctx.Snap())));
        if hit.Just? then hit.value == f.result && hit.value.Value? && MemOf(ctx.Snap()) == f.mem && f.cat == category
        else ctx.Snap() == old(ctx.Snap()) && f == FromScratch(w, name, ctx.create, old(MemOf(ctx.Snap())))
    {
      if category.StackVar? {
        hit := FindOnStack(ctx, w);
        return;
      }
      HitOrMiss(w, name, ctx.create, category, MemOf(ctx.Snap()));
      if !Hits(w, name, category) {
        return Nothing;
      }
      var h := ctx.NewBox(Stored(w, name, category));
      return Just(Value(h));
    }

    method FindOnStack(ctx: Context, ghost w: World) returns (hit: Maybe<EvalResult>)
      requires Consistent(ctx.Snap())
      modifies ctx`stack, ctx`boxes
      ensures Restored(old(ctx.Snap()), ctx.Snap())
      ensures var f := RememberedOnStack(w, name, ctx.create, old(MemOf(ctx.Snap())));
        if hit.Just? then hit.value == f.result && hit.value.Value? && MemOf(ctx.Snap()) == f.mem && f.cat == StackVar
        else ctx.Snap() == old(ctx.Snap()) && f == FromScratch(w, name, ctx.create, old(MemOf(ctx.Snap())))
    {
      var found := ctx.FindLocal(name);
      if found.Just? {
        return Just(Value(found.value));
      }
      if ctx.create {
        var r := Create(ctx, w);
        return Just(r);
      }
      return Nothing;
    }

    method Create(ctx: Context, ghost w: World) returns (r: EvalResult)
      requires Consistent(ctx.Snap()) && ctx.create && FindVar(MemOf(ctx.Snap()).frames, name).Nothing?
      modifies ctx`stack, ctx`boxes
      ensures Restored(old(ctx.Snap()), ctx.Snap())
      ensures (r, MemOf(ctx.Snap())) == Lookup(w, name, true, old(MemOf(ctx.Snap())))
    {
      var h := ctx.NewBox(Undefined);
      ctx.SetLocalValue(name, h);
      TopUpdated(old(ctx.Snap()), ctx.Snap());
      r := Value(h);
    }

    /** Try everything, and remember where the name was found. */
    method FindFromScratch(ctx: Context, w: World) returns (r: EvalResult)
      requires Consistent(ctx.Snap())
      modifies this`category, ctx`stack, ctx`boxes
      ensures Restored(old(ctx.Snap()), ctx.Snap())
      ensures var f := FromScratch(w, name, ctx.create, old(MemOf(ctx.Snap())));
        r == f.result && MemOf(ctx.Snap()) == f.mem && category == (if r.Raised? then old(category) else f.cat)
    {
      var found := ctx.FindLocal(name);
      if found.Just? {
        category := StackVar;
        return Value(found.value);
      }
      if ctx.create {
        r := Create(ctx, w);
        category := StackVar;
        return;
      }
      r := ctx.FindGlobal(w, name);
      if r.Value? {
        category := if name in w.consts then GlobalVar else if name in w.hostFuns then GlobalFun else UserFun;
      }
    }

    /** In callee position only the function dictionaries are remembered, and never a box. */
    predicate CalleeOk(w: World)
      reads this
    {
      category.GlobalFun? ==> name !in w.userFuns
    }

    /** Resolve the symbol as a callee: a remembered host function is looked for first, otherwise
        user functions come first. Nothing depends on what is visible locally; with fixed
        dictionaries remembering never makes a difference, as a host function is only remembered
        when there is no user function of that name. */
    method FindCallee(ctx: Context, w: World) returns (r: EvalResult)
      requires Consistent(ctx.Snap()) && !ctx.create && !primary
      modifies this`category, ctx`stack, ctx`boxes
      ensures Restored(old(ctx.Snap()), ctx.Snap())
      ensures old(CalleeOk(w)) ==> CalleeOk(w)
      ensures (r, MemOf(ctx.Snap())) == LookupFunction(w, name, old(MemOf(ctx.Snap()))) <==> old(CalleeOk(w)) || name !in w.hostFuns
    {
      if !category.GlobalFun? && name in w.userFuns {
        category := UserFun;
        var h := ctx.NewBox(Func(name, true));
        return Value(h);
      }
      if name in w.hostFuns {
        category := GlobalFun;
        var h := ctx.NewBox(Func(name, false));
        assert ctx.boxes[|old(ctx.boxes)|] == Func(name, false);
        return Value(h);
      }
      if name in w.userFuns {
        category := UserFun;
        var h := ctx.NewBox(Func(name, true));
        return Value(h);
      }
      r := FindFromScratch(ctx, w);
    }
  }
}
