/** Expression nodes remember their value once it can no longer change. Expressions here are built
    from literals, names and operators without side effects. */
module ConstantFolding {
  import opened Syntax
  import opened Wrappers
  import Semantics

  datatype Tree<V> =
    | Lit(v: V)
    | Name(name: string)
    | Unary(op: Kind, ty: string, operand: Tree<V>)
    | Binary(op: Kind, left: Tree<V>, right: Tree<V>)

  /** The operators of the value type; nothing where they throw. The type is that of a cast. */
  datatype Ops<!V> = Ops(
    unop: (Kind, string, V) -> Maybe<V>, binop: (Kind, V, V) -> Maybe<V>, truth: V -> Maybe<bool>, flag: bool -> V)

  /** Evaluation that remembers nothing: locals first, then the global constants. */
  function Plain<V>(ops: Ops<V>, consts: map<string, V>, locals: map<string, V>, t: Tree<V>): Maybe<V>
    decreases t
  {
    match t
    case Lit(v) => Just(v)
    case Name(name) => if name in locals then Just(locals[name]) else if name in consts then Just(consts[name]) else Nothing
    case Unary(op, ty, operand) =>
      var x := Plain(ops, consts, locals, operand);
      if op.PLUS? then x else Applied(ops, op, ty, x)
    case Binary(op, left, right) =>
      var x := Plain(ops, consts, locals, left);
      if op.AND? || op.OR? then
        if Decides(ops, op, x) then Decided(ops, x) else Decided(ops, Plain(ops, consts, locals, right))
      else Combined(ops, op, x, Plain(ops, consts, locals, right))
  }

  function Applied<V>(ops: Ops<V>, op: Kind, ty: string, x: Maybe<V>): Maybe<V> {
    if x.Nothing? then Nothing else ops.unop(op, ty, x.value)
  }

  function Combined<V>(ops: Ops<V>, op: Kind, x: Maybe<V>, y: Maybe<V>): Maybe<V> {
    if x.Nothing? || y.Nothing? then Nothing else ops.binop(op, x.value, y.value)
  }

  /** The left operand of AND or OR settles the matter, be it by throwing or by having no truth value. */
  predicate Decides<V>(ops: Ops<V>, op: Kind, x: Maybe<V>) {
    x.Nothing? || var b := ops.truth(x.value); b.Nothing? || b.value == op.OR?
  }

  function Decided<V>(ops: Ops<V>, x: Maybe<V>): Maybe<V> {
    if x.Nothing? then Nothing else
      var b := ops.truth(x.value);
      if b.Nothing? then Nothing else Just(ops.flag(b.value))
  }

  /** Every name is a global constant. */
  predicate Closed<V>(consts: map<string, V>, t: Tree<V>) {
    match t
    case Lit(_) => true
    case Name(name) => name in consts
    case Unary(_, _, x) => Closed(consts, x)
    case Binary(_, l, r) => Closed(consts, l) && Closed(consts, r)
  }

  /** No name in the tree is that of a constant and of a local with another value. */
  predicate Unshadowed<V(==)>(consts: map<string, V>, locals: map<string, V>, t: Tree<V>) {
    match t
    case Lit(_) => true
    case Name(name) => name in consts && name in locals ==> locals[name] == consts[name]
    case Unary(_, _, x) => Unshadowed(consts, locals, x)
    case Binary(_, l, r) => Unshadowed(consts, locals, l) && Unshadowed(consts, locals, r)
  }

  /** The value of a closed expression does not depend on the locals. */
  lemma {:induction false} ClosedIgnoresLocals<V>(ops: Ops<V>, consts: map<string, V>, locals: map<string, V>, t: Tree<V>)
    requires Closed(consts, t) && Unshadowed(consts, locals, t)
    ensures Plain(ops, consts, locals, t) == Plain(ops, consts, map[], t)
  {
    match t
    case Lit(_) =>
    case Name(_) =>
    case Unary(_, _, x) => ClosedIgnoresLocals(ops, consts, locals, x);
    case Binary(_, l, r) =>
      ClosedIgnoresLocals(ops, consts, locals, l);
      ClosedIgnoresLocals(ops, consts, locals, r);
  }

  // ------------------------------------------------------------------ boxes

  class Store<V> {
    var boxes: seq<V>

    constructor ()
      ensures boxes == []
    {
      boxes := [];
    }

    method New(v: V) returns (h: nat)
      modifies this
      ensures boxes == old(boxes) + [v] && h == |old(boxes)|
    {
      h := |boxes|;
      boxes := boxes + [v];
    }

    /** What anybody who was given a box can do. */
    method Assign(h: nat, v: V)
      requires h < |boxes|
      modifies this
      ensures boxes == old(boxes)[h := v]
    {
      boxes := boxes[h := v];
    }
  }

  /** The value in a box that may be missing. */
  function In<V>(boxes: seq<V>, h: Maybe<nat>): Maybe<V> {
    if h.Just? && h.value < |boxes| then Just(boxes[h.value]) else Nothing
  }

  ghost predicate Boxed<V>(locals: map<string, nat>, boxes: seq<V>) {
    forall name :: name in locals ==> locals[name] < |boxes|
  }

  ghost function Values<V>(locals: map<string, nat>, boxes: seq<V>): map<string, V>
    requires Boxed(locals, boxes)
  {
    map name | name in locals :: boxes[locals[name]]
  }

  lemma ValuesStay<V>(locals: map<string, nat>, boxes: seq<V>, more: seq<V>)
    requires Boxed(locals, boxes) && boxes <= more
    ensures Boxed(locals, more) && Values(locals, more) == Values(locals, boxes)
  {
  }

  // ------------------------------------------------------------------ nodes

  /** A symbol remembers its value once it was found among the global constants, an operator once its
      operands remember theirs. What they remember is a box, which they give out again and again. */
  class Node<V(==)> {
    ghost const repr: set<Node<V>>
    const tree: Tree<V>
    const left: Node?<V>
    const right: Node?<V>
    var primary: bool
    var primaryVal: nat

    /** The operand nodes form the tree, and share nothing. */
    ghost predicate Built() {
      && this in repr
      && (left != null ==> left in repr && left.repr <= repr && this !in left.repr)
      && (right != null ==> right in repr && right.repr <= repr && this !in right.repr)
      && (left != null && right != null ==> left.repr !! right.repr)
      && match tree
         case Lit(_) => left == null && right == null
         case Name(_) => left == null && right == null
         case Unary(_, _, x) => left != null && right == null && left.tree == x
         case Binary(_, l, r) => left != null && right != null && left.tree == l && right.tree == r
    }

    /** A node that is marked depends on constants only, and keeps a box. Literals always are. */
    ghost predicate Valid(consts: map<string, V>, boxes: seq<V>)
      reads this, repr
      decreases repr
    {
      && Built() && (tree.Lit? ==> primary)
      && (primary ==> primaryVal < |boxes| && Closed(consts, tree))
      && (left != null ==> left.Valid(consts, boxes))
      && (right != null ==> right.Valid(consts, boxes))
    }

    /** Every kept box holds the value of its expression: nobody has stored into it. */
    ghost predicate Intact(ops: Ops<V>, consts: map<string, V>, boxes: seq<V>)
      requires Built()
      reads this, repr
      decreases repr
    {
      && (primary ==> In(boxes, Just(primaryVal)) == Plain(ops, consts, map[], tree))
      && (left != null ==> left.Built() && left.Intact(ops, consts, boxes))
      && (right != null ==> right.Built() && right.Intact(ops, consts, boxes))
    }

    lemma Grows(ops: Ops<V>, consts: map<string, V>, boxes: seq<V>, more: seq<V>)
      requires Valid(consts, boxes) && |boxes| <= |more|
      ensures Valid(consts, more) && (boxes <= more && Intact(ops, consts, boxes) ==> Intact(ops, consts, more))
      decreases repr
    {
      if left != null {
        left.Grows(ops, consts, boxes, more);
      }
      if right != null {
        right.Grows(ops, consts, boxes, more);
      }
    }

    constructor Literal(v: V, box: nat)
      ensures tree == Lit(v) && repr == {this} && left == null && right == null && primary && primaryVal == box
    {
      tree, left, right, primary, primaryVal := Lit(v), null, null, true, box;
      repr := {this};
    }

    constructor Symbol(name: string)
      ensures tree == Name(name) && repr == {this} && left == null && right == null && !primary
    {
      tree, left, right, primary, primaryVal := Name(name), null, null, false, 0;
      repr := {this};
    }

    constructor Operator(op: Kind, ty: string, left: Node<V>, right: Node?<V>)
      requires left.Built() && (right != null ==> right.Built() && left.repr !! right.repr)
      ensures Built() && !primary && this.left == left && this.right == right
      ensures tree == (if right == null then Unary(op, ty, left.tree) else Binary(op, left.tree, right.tree))
      ensures repr == {this} + left.repr + (if right == null then {} else right.repr)
    {
      tree := if right == null then Unary(op, ty, left.tree) else Binary(op, left.tree, right.tree);
      this.left, this.right, primary, primaryVal := left, right, false, 0;
      repr := {this} + left.repr + (if right == null then {} else right.repr);
    }

    /** What one evaluation promises. It stores into no box there was. As long as nobody else does,
        all kept boxes stay right, and each of any number of evaluations gives the plain result for
        the locals at hand unless one of them shadows a constant of the tree with another value.
        A marked node gives out its box, whatever is in it and whatever the locals are; an operator
        is marked when its operands are. */
    twostate predicate Evaluated(ops: Ops<V>, consts: map<string, V>, locals: map<string, nat>, s: Store<V>, new r: Maybe<nat>)
      requires Built()
      reads this, repr, s
    {
      && Valid(consts, s.boxes) && old(s.boxes) <= s.boxes
      && (r.Just? ==> r.value < |s.boxes|)
      && (old(primary) ==> primary && r == Just(old(primaryVal))) && (primary && r.Just? ==> r.value == primaryVal)
      && (r.Just? && tree.Unary? && !tree.op.BITNOT? && left.primary ==> primary)
      && (r.Just? && tree.Binary? && left.primary && right.primary ==> primary)
      && (old(Intact(ops, consts, s.boxes)) ==> Intact(ops, consts, s.boxes) && Agrees(ops, consts, locals, s.boxes, r))
    }

    ghost predicate Agrees(ops: Ops<V>, consts: map<string, V>, locals: map<string, nat>, boxes: seq<V>, r: Maybe<nat>) {
      Boxed(locals, boxes) && Unshadowed(consts, Values(locals, boxes), tree) ==>
        In(boxes, r) == Plain(ops, consts, Values(locals, boxes), tree)
    }

    /** Evaluate, remembering what can be remembered. */
    method Eval(ops: Ops<V>, consts: map<string, V>, locals: map<string, nat>, s: Store<V>) returns (r: Maybe<nat>)
      requires Valid(consts, s.boxes) && Boxed(locals, s.boxes)
      modifies repr, s
      ensures Evaluated(ops, consts, locals, s, r)
      ensures tree.Name? ==>
        && primary == (old(primary) || (tree.name in consts && tree.name !in locals))
        && (!old(primary) ==> In(s.boxes, r) == Plain(ops, consts, Values(locals, s.boxes), tree))
      decreases tree
    {
      if primary {
        if Unshadowed(consts, Values(locals, s.boxes), tree) {
          ClosedIgnoresLocals(ops, consts, Values(locals, s.boxes), tree);
        }
        return Just(primaryVal);
      }
      if tree.Name? {
        r := EvalName(ops, consts, locals, s);
      } else if tree.Unary? {
        r := EvalUnary(ops, consts, locals, s);
      } else {
        r := EvalBinary(ops, consts, locals, s);
      }
    }

    /** A constant is copied into a new box, which the node keeps. */
    method EvalName(ops: Ops<V>, consts: map<string, V>, locals: map<string, nat>, s: Store<V>) returns (r: Maybe<nat>)
      requires Valid(consts, s.boxes) && Boxed(locals, s.boxes) && tree.Name? && !primary
      modifies this, s
      ensures Evaluated(ops, consts, locals, s, r)
      ensures primary == (tree.name in consts && tree.name !in locals)
      ensures Boxed(locals, s.boxes) && In(s.boxes, r) == Plain(ops, consts, Values(locals, s.boxes), tree)
    {
      if tree.name in locals {
        return Just(locals[tree.name]);
      }
      if tree.name !in consts {
        return Nothing;
      }
      var h := s.New(consts[tree.name]);
      primaryVal, primary := h, true;
      r := Just(h);
    }

    /** Plus gives the operand's own box; complement is never remembered. */
    method EvalUnary(ops: Ops<V>, consts: map<string, V>, locals: map<string, nat>, s: Store<V>) returns (r: Maybe<nat>)
      requires Valid(consts, s.boxes) && Boxed(locals, s.boxes) && tree.Unary? && !primary
      modifies repr, s
      ensures Evaluated(ops, consts, locals, s, r)
      decreases tree, 3
    {
      if tree.op.PLUS? {
        r := left.Eval(ops, consts, locals, s);
      } else {
        r := EvalPrefix(ops, consts, locals, s);
      }
      if r.Just? && left.primary && !tree.op.BITNOT? {
        ClosedOperands(consts, s.boxes);
        primaryVal, primary := r.value, true;
      }
    }

    method EvalPrefix(ops: Ops<V>, consts: map<string, V>, locals: map<string, nat>, s: Store<V>) returns (r: Maybe<nat>)
      requires Valid(consts, s.boxes) && Boxed(locals, s.boxes) && tree.Unary? && !tree.op.PLUS? && !primary
      modifies left.repr, s
      ensures Operated(ops, consts, locals, s, r)
      decreases tree, 2
    {
      var x := left.Eval(ops, consts, locals, s);
      label L:
      r := Result(ops, consts, s, Applied(ops, tree.op, tree.ty, In(s.boxes, x)));
      ValuesStay(locals, old@L(s.boxes), s.boxes);
    }

    /** The answer of an operator whose node is not marked yet. */
    twostate predicate Operated(ops: Ops<V>, consts: map<string, V>, locals: map<string, nat>, s: Store<V>, new r: Maybe<nat>)
      requires Built() && !tree.Name?
      reads this, repr, s
    {
      && Valid(consts, s.boxes) && old(s.boxes) <= s.boxes && !primary && (r.Just? ==> r.value < |s.boxes|)
      && (old(Intact(ops, consts, s.boxes)) ==>
        && Intact(ops, consts, s.boxes) && Agrees(ops, consts, locals, s.boxes, r)
        && (OperandsMarked() && r.Just? ==> In(s.boxes, r) == Plain(ops, consts, map[], tree)))
    }

    lemma ClosedOperands(consts: map<string, V>, boxes: seq<V>)
      requires Valid(consts, boxes) && !tree.Name? && OperandsMarked()
      ensures Closed(consts, tree)
    {
    }

    ghost predicate OperandsMarked()
      requires Built()
      reads repr
    {
      (left != null ==> left.primary) && (right != null ==> right.primary)
    }

    /** Put what an operator yields into a new box. */
    method Result(ops: Ops<V>, consts: map<string, V>, s: Store<V>, v: Maybe<V>) returns (r: Maybe<nat>)
      requires Valid(consts, s.boxes)
      modifies s
      ensures Valid(consts, s.boxes) && old(s.boxes) <= s.boxes && (r.Just? ==> r.value < |s.boxes|) && In(s.boxes, r) == v
      ensures old(Intact(ops, consts, s.boxes)) ==> Intact(ops, consts, s.boxes)
    {
      if v.Nothing? {
        return Nothing;
      }
      Grows(ops, consts, s.boxes, s.boxes + [v.value]);
      var h := s.New(v.value);
      r := Just(h);
    }

    method EvalBinary(ops: Ops<V>, consts: map<string, V>, locals: map<string, nat>, s: Store<V>) returns (r: Maybe<nat>)
      requires Valid(consts, s.boxes) && Boxed(locals, s.boxes) && tree.Binary? && !primary
      modifies repr, s
      ensures Evaluated(ops, consts, locals, s, r)
      decreases tree, 4
    {
      r := Operate(ops, consts, locals, s);
      if r.Just? && left.primary && right.primary {
        ClosedOperands(consts, s.boxes);
        primaryVal, primary := r.value, true;
      }
    }

    /** Evaluate the operands and apply the operator. */
    method Operate(ops: Ops<V>, consts: map<string, V>, locals: map<string, nat>, s: Store<V>) returns (r: Maybe<nat>)
      requires Valid(consts, s.boxes) && Boxed(locals, s.boxes) && tree.Binary? && !primary
      modifies left.repr, right.repr, s
      ensures Operated(ops, consts, locals, s, r)
      decreases tree, 3
    {
      if tree.op.AND? || tree.op.OR? {
        r := ShortCircuit(ops, consts, locals, s);
        return;
      }
      var a, b;
      if Semantics.RightFirst(tree.op) {
        b, a := InOrder(ops, consts, locals, s, right, left);
      } else {
        a, b := InOrder(ops, consts, locals, s, left, right);
      }
      label L:
      r := Result(ops, consts, s, Combined(ops, tree.op, In(s.boxes, a), In(s.boxes, b)));
      ValuesStay(locals, old@L(s.boxes), s.boxes);
    }

    /** The right operand is evaluated only if the left one does not decide. */
    method ShortCircuit(ops: Ops<V>, consts: map<string, V>, locals: map<string, nat>, s: Store<V>) returns (r: Maybe<nat>)
      requires Valid(consts, s.boxes) && Boxed(locals, s.boxes) && tree.Binary? && (tree.op.AND? || tree.op.OR?) && !primary
      modifies left.repr, right.repr, s
      ensures Operated(ops, consts, locals, s, r)
      decreases tree, 2
    {
      var a := Deciding(ops, consts, locals, s);
      label L:
      r := Result(ops, consts, s, Decided(ops, In(s.boxes, a)));
      ValuesStay(locals, old@L(s.boxes), s.boxes);
    }

    /** The operand that settles an AND or OR. */
    method Deciding(ops: Ops<V>, consts: map<string, V>, locals: map<string, nat>, s: Store<V>) returns (a: Maybe<nat>)
      requires Valid(consts, s.boxes) && Boxed(locals, s.boxes) && tree.Binary? && (tree.op.AND? || tree.op.OR?) && !primary
      modifies left.repr, right.repr, s
      ensures Valid(consts, s.boxes) && old(s.boxes) <= s.boxes && !primary
      ensures old(Intact(ops, consts, s.boxes)) ==>
        && Intact(ops, consts, s.boxes)
        && (Boxed(locals, s.boxes) && Unshadowed(consts, Values(locals, s.boxes), tree) ==>
              Decided(ops, In(s.boxes, a)) == Plain(ops, consts, Values(locals, s.boxes), tree))
        && (OperandsMarked() && Decided(ops, In(s.boxes, a)).Just? ==> Decided(ops, In(s.boxes, a)) == Plain(ops, consts, map[], tree))
      decreases tree, 1
    {
      a := left.Eval(ops, consts, locals, s);
      right.Grows(ops, consts, old(s.boxes), s.boxes);
      if !Decides(ops, tree.op, In(s.boxes, a)) {
        a := Next(ops, consts, locals, s, left, right, a);
      }
    }

    /** Evaluate one operand and, unless it throws, the other. */
    method InOrder(ops: Ops<V>, consts: map<string, V>, locals: map<string, nat>, s: Store<V>, first: Node<V>, second: Node<V>)
      returns (a: Maybe<nat>, b: Maybe<nat>)
      requires Valid(consts, s.boxes) && Boxed(locals, s.boxes) && tree.Binary? && !primary
      requires (first == left && second == right) || (first == right && second == left)
      modifies first.repr, second.repr, s
      ensures Valid(consts, s.boxes) && old(s.boxes) <= s.boxes && !primary
      ensures (a.Just? ==> a.value < |s.boxes|) && (b.Just? ==> a.Just? && b.value < |s.boxes|)
      ensures old(Intact(ops, consts, s.boxes)) ==>
        && Intact(ops, consts, s.boxes)
        && first.Agrees(ops, consts, locals, s.boxes, a) && (a.Just? ==> second.Agrees(ops, consts, locals, s.boxes, b))
      ensures (first.primary && a.Just? ==> a.value == first.primaryVal) && (second.primary && b.Just? ==> b.value == second.primaryVal)
      decreases tree, 1
    {
      a := first.Eval(ops, consts, locals, s);
      second.Grows(ops, consts, old(s.boxes), s.boxes);
      if a.Nothing? {
        return a, Nothing;
      }
      b := Next(ops, consts, locals, s, first, second, a);
    }

    /** Evaluate one operand after the other has given `a`, which stays right. */
    method Next(ops: Ops<V>, consts: map<string, V>, locals: map<string, nat>, s: Store<V>, first: Node<V>, second: Node<V>, a: Maybe<nat>)
      returns (b: Maybe<nat>)
      requires Valid(consts, s.boxes) && Boxed(locals, s.boxes) && tree.Binary? && !primary && (a.Just? ==> a.value < |s.boxes|)
      requires (first == left && second == right) || (first == right && second == left)
      modifies second.repr, s
      ensures Valid(consts, s.boxes) && old(s.boxes) <= s.boxes && !primary && (b.Just? ==> b.value < |s.boxes|)
      ensures second.primary && b.Just? ==> b.value == second.primaryVal
      ensures old(Intact(ops, consts, s.boxes)) ==> Intact(ops, consts, s.boxes) && second.Agrees(ops, consts, locals, s.boxes, b)
      ensures old(first.Agrees(ops, consts, locals, s.boxes, a)) ==> first.Agrees(ops, consts, locals, s.boxes, a)
      decreases tree, 0
    {
      b := second.Eval(ops, consts, locals, s);
      first.Grows(ops, consts, old(s.boxes), s.boxes);
      ValuesStay(locals, old(s.boxes), s.boxes);
    }
  }

  // ------------------------------------------------------------------ a name, again and again

  /** One evaluation of a name: the locals at hand, and what the box the node keeps, if it keeps
      one, holds by then. */
  datatype Visit<V> = Visit(locals: map<string, V>, kept: V)

  /** Some evaluation found the constant, and the node keeps its box. */
  predicate Marked<V>(consts: map<string, V>, name: string, visits: seq<Visit<V>>) {
    name in consts && exists i :: 0 <= i < |visits| && name !in visits[i].locals
  }

  /** What the node gives: `Node.Eval` is proved to mark and to answer in this way. */
  function Given<V>(ops: Ops<V>, consts: map<string, V>, name: string, visits: seq<Visit<V>>, i: nat): Maybe<V>
    requires i < |visits|
  {
    if Marked(consts, name, visits[..i]) then Just(visits[i].kept) else Plain(ops, consts, visits[i].locals, Name(name))
  }

  /** A name gives the plain value throughout if and only if it is no constant, or each evaluation
      after the first that found the constant finds in the kept box what the name then stands for. */
  lemma NameAgreesIff<V>(ops: Ops<V>, consts: map<string, V>, name: string, visits: seq<Visit<V>>)
    ensures (forall i :: 0 <= i < |visits| ==> Given(ops, consts, name, visits, i) == Plain(ops, consts, visits[i].locals, Name(name))) <==>
      (name in consts ==> forall i, j :: 0 <= i < j < |visits| && name !in visits[i].locals ==>
        visits[j].kept == if name in visits[j].locals then visits[j].locals[name] else consts[name])
  {
    forall j | 0 <= j < |visits|
      ensures Marked(consts, name, visits[..j]) <==> name in consts && exists i :: 0 <= i < j && name !in visits[i].locals
    {
      assert forall i :: 0 <= i < j ==> visits[..j][i] == visits[i];
    }
  }

  /** With boxes nobody stores into that leaves the shadowing: agreement throughout means that no
      local of another value takes the name after the constant was found. */
  lemma UntouchedNameAgreesIff<V>(ops: Ops<V>, consts: map<string, V>, name: string, visits: seq<Visit<V>>)
    requires name in consts && forall v :: v in visits ==> v.kept == consts[name]
    ensures (forall i :: 0 <= i < |visits| ==> Given(ops, consts, name, visits, i) == Plain(ops, consts, visits[i].locals, Name(name))) <==>
      forall i, j :: 0 <= i < j < |visits| && name !in visits[i].locals && name in visits[j].locals ==> visits[j].locals[name] == consts[name]
  {
    NameAgreesIff(ops, consts, name, visits);
  }

  // ------------------------------------------------------------------ misses

  /** A constant read once and then shadowed by a local: the node goes on giving the constant. */
  method ShadowingIsMissed<V(==)>(ops: Ops<V>, name: string, constant: V, local: V) returns (first: Maybe<V>, second: Maybe<V>)
    requires constant != local
    ensures first == Plain(ops, map[name := constant], map[], Name(name))
    ensures second != Plain(ops, map[name := constant], map[name := local], Name(name))
  {
    var s := new Store<V>();
    var node := new Node<V>.Symbol(name);
    var r := node.Eval(ops, map[name := constant], map[], s);
    first := In(s.boxes, r);
    var h := s.New(local);
    r := node.Eval(ops, map[name := constant], map[name := h], s);
    second := In(s.boxes, r);
  }

  method NewSum<V(==)>(ghost ops: Ops<V>, s: Store<V>, x: V, y: V) returns (node: Node<V>)
    modifies s
    ensures fresh(node.repr) && node.tree == Binary(PLUS, Lit(x), Lit(y))
    ensures node.Valid(map[], s.boxes) && node.Intact(ops, map[], s.boxes)
  {
    var hx := s.New(x);
    var hy := s.New(y);
    var left := new Node<V>.Literal(x, hx);
    var right := new Node<V>.Literal(y, hy);
    node := new Node<V>.Operator(PLUS, "", left, right);
  }

  /** No name is involved here: a sum of literals is passed on, the receiver stores into the box it
      was given, and the next evaluation passes on what was stored. */
  method StoringReachesTheNode<V(==)>(ops: Ops<V>, x: V, y: V, stored: V) returns (first: Maybe<V>, second: Maybe<V>)
    ensures var sum := Binary(PLUS, Lit(x), Lit(y));
      first == Plain(ops, map[], map[], sum) && second == if first.Just? then Just(stored) else Nothing
  {
    var s := new Store<V>();
    var node := NewSum(ops, s, x, y);
    var r := node.Eval(ops, map[], map[], s);
    assert Values(map[], s.boxes) == map[];
    assert Unshadowed(map[], map[], Lit(x)) && Unshadowed(map[], map[], Lit(y));
    assert node.left.tree.Lit? && node.right.tree.Lit?;
    first := In(s.boxes, r);
    if r.Just? {
      node.Grows(ops, map[], s.boxes, s.boxes[r.value := stored]);
      s.Assign(r.value, stored);
    }
    r := node.Eval(ops, map[], map[], s);
    second := In(s.boxes, r);
  }
}
