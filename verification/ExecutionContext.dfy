/** The mutable state of a running script: the frame stack with its barriers, the jump flags,
    the creation flag, the function depth and the boxes. */
module ExecutionContext {
  import opened Syntax
  import opened Semantics
  import opened Wrappers

  /** All fields of a context at one moment. */
  datatype Snapshot = Snapshot(
    stack: seq<Frame>, ptr: int, barriers: seq<int>, depth: int, create: bool,
    returning: bool, continuing: bool, breaking: bool, result: Handle,
    boxes: seq<Val>, fields: map<string, Handle>)

  /** The lowest stack index a lookup may reach. */
  function Base(c: Snapshot): int {
    (if c.barriers == [] then -1 else c.barriers[|c.barriers| - 1]) + 1
  }

  /** Frames above the pointer are empty, so a pushed frame starts empty; at least one frame
      above the barrier is in use. */
  ghost predicate Consistent(c: Snapshot) {
    && 0 <= Base(c) <= c.ptr < |c.stack| && 0 <= c.depth
    && forall i :: c.ptr < i < |c.stack| ==> c.stack[i] == map[]
  }

  ghost predicate Quiet(c: Snapshot) {
    !c.returning && !c.continuing && !c.breaking
  }

  /** What the running statement can see. */
  ghost function MemOf(c: Snapshot): (m: Mem)
    requires Consistent(c)
    ensures |m.frames| > 0
  {
    Mem(c.stack[Base(c)..c.ptr + 1], c.boxes, if c.depth > 0 then Nothing else Just(c.fields))
  }

  /** From `a` to `b` the pointer, the barriers, the depth and the creation flag are restored;
      no frame at or below the barrier was touched; functions touched no instance field. */
  ghost predicate Restored(a: Snapshot, b: Snapshot) {
    && Consistent(a) && Consistent(b)
    && b.ptr == a.ptr && b.barriers == a.barriers && b.depth == a.depth && b.create == a.create
    && b.stack[..Base(a)] == a.stack[..Base(a)]
    && (a.depth > 0 ==> b.fields == a.fields)
  }

  lemma TopUpdated(a: Snapshot, b: Snapshot)
    requires Consistent(a) && b.ptr == a.ptr && b.barriers == a.barriers && b.depth == a.depth && b.ptr < |b.stack|
    requires b.stack == a.stack[a.ptr := b.stack[b.ptr]]
    ensures Consistent(b) && b.stack[..Base(a)] == a.stack[..Base(a)]
    ensures MemOf(b).frames == MemOf(a).frames[|MemOf(a).frames| - 1 := b.stack[b.ptr]]
  {
  }

  class Context {
    var stack: seq<Frame>
    var ptr: int
    var barriers: seq<int>
    var depth: int
    var create: bool
    var returning: bool
    var continuing: bool
    var breaking: bool
    var result: Handle
    var boxes: seq<Val>
    var fields: map<string, Handle>

    ghost function Snap(): Snapshot
      reads this
    {
      Snapshot(stack, ptr, barriers, depth, create, returning, continuing, breaking, result, boxes, fields)
    }

    constructor (boxes: seq<Val>)
      ensures Snap() == Snapshot([], -1, [], 0, false, false, false, false, Nothing, boxes, map[])
    {
      stack, ptr, barriers, depth, create := [], -1, [], 0, false;
      returning, continuing, breaking, result := false, false, false, Nothing;
      this.boxes, fields := boxes, map[];
    }

    ghost predicate StackOk()
      reads this
    {
      -1 <= ptr < |stack| && forall i :: ptr < i < |stack| ==> stack[i] == map[]
    }

    predicate SomeJumpRequested()
      reads this
    {
      returning || breaking || continuing
    }

    /** Empty the whole stack and point at the instance fields of the next cell. */
    method ClearStackSoft()
      requires StackOk()
      modifies this`stack, this`ptr, this`barriers, this`depth
      ensures ptr == -1 && barriers == [] && depth == 0 && |stack| == old(|stack|) && StackOk()
    {
      while ptr >= 0
        invariant StackOk() && |stack| == old(|stack|)
      {
        stack := stack[ptr := map[]];
        ptr := ptr - 1;
      }
      barriers := [];
      depth := 0;
    }

    method SetStackBarrier()
      modifies this`barriers
      ensures barriers == old(barriers) + [ptr]
    {
      barriers := barriers + [ptr];
    }

    method ClearStackBarrier()
      modifies this`barriers
      ensures barriers == if old(barriers) == [] then [] else old(barriers)[..|old(barriers)| - 1]
    {
      if barriers == [] {
        return;
      }
      barriers := barriers[..|barriers| - 1];
    }

    function StackBarrier(): int
      reads this
    {
      if barriers == [] then -1 else barriers[|barriers| - 1]
    }

    /** Push a frame, growing the vector when needed. */
    method NewStackFrame()
      requires StackOk()
      modifies this`stack, this`ptr
      ensures ptr == old(ptr) + 1 < |stack|
      ensures stack[..ptr] == old(stack[..ptr + 1])
      ensures stack[ptr] == map[] && StackOk()
    {
      while |stack| <= ptr + 1
        invariant -1 <= ptr == old(ptr) < old(|stack|) <= |stack| && stack[..ptr + 1] == old(stack[..ptr + 1])
        invariant forall i :: ptr < i < |stack| ==> stack[i] == map[]
        decreases ptr + 2 - |stack|
      {
        stack := stack + [map[]];
      }
      ptr := ptr + 1;
    }

    /** Pop a frame, leaving it empty. */
    method DelStackFrame()
      requires StackOk()
      modifies this`stack, this`ptr
      ensures ptr == if old(ptr) < 0 then old(ptr) else old(ptr) - 1
      ensures |stack| == old(|stack|) && (0 <= old(ptr) ==> stack[..old(ptr)] == old(stack[..ptr]))
      ensures StackOk()
    {
      if ptr < 0 {
        return;
      }
      stack := stack[ptr := map[]];
      ptr := ptr - 1;
    }

    method SetLocalValue(name: string, h: Handle)
      requires 0 <= ptr < |stack|
      modifies this`stack
      ensures stack == old(stack)[ptr := old(stack[ptr])[name := h]]
    {
      stack := stack[ptr := stack[ptr][name := h]];
    }

    method SetCreateIfNotExists(val: bool) returns (before: bool)
      modifies this`create
      ensures before == old(create) && create == val
    {
      before := create;
      create := val;
    }

    /** Allocate a box. */
    method NewBox(v: Val) returns (h: Handle)
      modifies this`boxes
      ensures boxes == old(boxes) + [v] && h == Just(old(|boxes|))
    {
      h := Just(|boxes|);
      boxes := boxes + [v];
    }

    /** Search the frames from the top down to the barrier. */
    method FindLocal(name: string) returns (found: Maybe<Handle>)
      requires Consistent(Snap())
      ensures found == FindVar(MemOf(Snap()).frames, name)
    {
      var stb := -2;
      var i := ptr;
      ghost var base := Base(Snap());
      while i >= 0
        invariant base - 1 <= i <= ptr
        invariant stb == -2 || stb == base - 1
        invariant stb == -2 ==> i == ptr
        invariant FindVar(stack[base..ptr + 1], name) == FindVar(stack[base..i + 1], name)
      {
        if stb != -2 && i <= stb {
          break;
        }
        assert stack[base..i + 1][..i - base] == stack[base..i];
        if name in stack[i] {
          return Just(stack[i][name]);
        }
        if stb == -2 {
          stb := StackBarrier();
        }
        i := i - 1;
      }
      assert stack[base..i + 1] == [];
      return Nothing;
    }

    /** Resolve a symbol without any remembered category. */
    method FindValBySymName(w: World, name: string) returns (r: EvalResult)
      requires Consistent(Snap())
      modifies this`stack, this`boxes
      ensures Restored(old(Snap()), Snap()) && unchanged(`returning, `continuing, `breaking)
      ensures (r, MemOf(Snap())) == Lookup(w, name, create, old(MemOf(Snap())))
    {
      var found := FindLocal(name);
      if found.Just? {
        return Value(found.value);
      }
      if create {
        var h := NewBox(Undefined);
        SetLocalValue(name, h);
        TopUpdated(old(Snap()), Snap());
        return Value(h);
      }
      r := FindGlobal(w, name);
    }

    /** The dictionaries: constants, then host functions, then user functions. */
    method FindGlobal(w: World, name: string) returns (r: EvalResult)
      requires Consistent(Snap()) && !create && FindVar(MemOf(Snap()).frames, name).Nothing?
      modifies this`boxes
      ensures Restored(old(Snap()), Snap())
      ensures (r, MemOf(Snap())) == Lookup(w, name, false, old(MemOf(Snap())))
    {
      if name in w.consts {
        var h := NewBox(w.consts[name]);
        return Value(h);
      }
      if name in w.hostFuns {
        var h := NewBox(Func(name, false));
        return Value(h);
      }
      if name in w.userFuns {
        var h := NewBox(Func(name, true));
        return Value(h);
      }
      return Raised(Failed(NotFound(name)));
    }

    /** Resolve a symbol in callee position. */
    method FindFunc(w: World, name: string) returns (r: EvalResult)
      requires Consistent(Snap()) && !create
      modifies this`stack, this`boxes
      ensures Restored(old(Snap()), Snap()) && unchanged(`returning, `continuing, `breaking)
      ensures (r, MemOf(Snap())) == LookupFunction(w, name, old(MemOf(Snap())))
    {
      if name in w.userFuns {
        var h := NewBox(Func(name, true));
        return Value(h);
      }
      if name in w.hostFuns {
        var h := NewBox(Func(name, false));
        return Value(h);
      }
      r := FindValBySymName(w, name);
    }

    /** `this.name` */
    method FindField(name: string) returns (r: EvalResult)
      requires Consistent(Snap())
      modifies this`boxes, this`fields
      ensures Restored(old(Snap()), Snap())
      ensures (r, MemOf(Snap())) == LookupField(name, create, old(MemOf(Snap())))
    {
      if depth > 0 {
        return Raised(Failed(ThisInFunction));
      }
      if name in fields {
        return Value(fields[name]);
      }
      if create {
        var h := NewBox(Undefined);
        fields := fields[name := h];
        return Value(h);
      }
      return Value(Nothing);
    }

    /** Assign through a handle. */
    method Assign(h: Handle, v: Val) returns (r: Handle)
      requires Consistent(Snap())
      modifies this`boxes
      ensures Restored(old(Snap()), Snap())
      ensures (r, MemOf(Snap())) == Store(old(MemOf(Snap())), h, v)
    {
      r := h;
      if h.Nothing? {
        if v != Undefined {
          r := NewBox(v);
        }
      } else if h.value < |boxes| {
        boxes := boxes[h.value := v];
      }
    }
  }
}
