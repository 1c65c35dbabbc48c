/** When the code generator accepts an expression, and which boxes its literals get. */
module CodegenLaws {
  import opened Syntax
  import opened Ast
  import opened Semantics
  import opened Codegen
  import opened Wrappers

  /** No missing operand, no forbidden cast, no empty character literal anywhere. */
  predicate Translatable(d: Dialect<Val>, a: Ast)
    decreases a
  {
    !Malformed(a) &&
    match a
    case Binary(_, l, r) => Translatable(d, l) && Translatable(d, r)
    case Ternary(_, c, t, f) => Translatable(d, c) && Translatable(d, t) && Translatable(d, f)
    case Unary(op, ty, x) => Translatable(d, x) && !(op.TYPECAST? && ty in d.forbiddenCasts)
    case Suffix(_, x) => Translatable(d, x)
    case Literal(kind, text) => !(kind.ChrLit? && text == "")
    case Array(items) => forall i :: 0 <= i < |items| ==> Translatable(d, items[i])
    case Apply(f, args) => Translatable(d, f) && forall i :: 0 <= i < |args| ==> Translatable(d, args[i])
    case _ => true
  }

  /** The values of a tree's literals other than `undefined`, left to right. */
  function LiteralValues(d: Dialect<Val>, a: Ast): seq<Val>
    decreases a
  {
    match a
    case Binary(_, l, r) => LiteralValues(d, l) + LiteralValues(d, r)
    case Ternary(_, c, t, f) => LiteralValues(d, c) + LiteralValues(d, t) + LiteralValues(d, f)
    case Unary(_, _, x) => LiteralValues(d, x)
    case Suffix(_, x) => LiteralValues(d, x)
    case Literal(kind, text) => if kind.UndefinedLit? then [] else [d.literalValue(kind, text)]
    case Array(items) => AllLiteralValues(d, items)
    case Apply(f, args) => LiteralValues(d, f) + AllLiteralValues(d, args)
    case _ => []
  }

  function AllLiteralValues(d: Dialect<Val>, asts: seq<Ast>): seq<Val>
    decreases asts
  {
    if asts == [] then [] else LiteralValues(d, asts[0]) + AllLiteralValues(d, asts[1..])
  }

  /** The boxes that the nodes of an expression own, left to right. */
  function BoxesOf(e: Expr): seq<nat>
    decreases e
  {
    match e
    case Primary(box) => if box.Just? then [box.value] else []
    case Prefix(_, x) => BoxesOf(x)
    case Cast(_, x) => BoxesOf(x)
    case Postfix(x, _) => BoxesOf(x)
    case Binop(_, l, r) => BoxesOf(l) + BoxesOf(r)
    case Ternop(c, t, f) => BoxesOf(c) + BoxesOf(t) + BoxesOf(f)
    case Call(f, args) => BoxesOf(f) + BoxesOfAll(args)
    case _ => []
  }

  function BoxesOfAll(es: seq<Expr>): seq<nat>
    decreases es
  {
    if es == [] then [] else BoxesOf(es[0]) + BoxesOfAll(es[1..])
  }

  function Upto(from: nat, count: nat): (r: seq<nat>)
    ensures |r| == count && forall i :: 0 <= i < count ==> r[i] == from + i
  {
    seq(count, i requires 0 <= i => from + i)
  }

  lemma TwoParts(boxes: seq<Val>, xs: seq<Val>, ys: seq<Val>)
    ensures boxes + xs + ys == boxes + (xs + ys)
    ensures Upto(|boxes|, |xs|) + Upto(|boxes + xs|, |ys|) == Upto(|boxes|, |xs + ys|)
  {
  }

  lemma ThreeParts(boxes: seq<Val>, xs: seq<Val>, ys: seq<Val>, zs: seq<Val>)
    ensures boxes + xs + ys + zs == boxes + (xs + ys + zs)
    ensures Upto(|boxes|, |xs|) + Upto(|boxes + xs|, |ys|) + Upto(|boxes + xs + ys|, |zs|) == Upto(|boxes|, |xs + ys + zs|)
  {
  }

  /** Accepted exactly when translatable; then the boxes gained are the values of the literals in
      order, and the literals own consecutive boxes: no two share one. */
  ghost predicate Owns(d: Dialect<Val>, a: Ast, boxes: seq<Val>) {
    var r := Chop(d, a, boxes);
    && (r.Chopped? <==> Translatable(d, a))
    && (r.Chopped? ==> r.boxes == boxes + LiteralValues(d, a) && BoxesOf(r.expr) == Upto(|boxes|, |LiteralValues(d, a)|))
  }

  lemma {:induction false} ChopOwns(d: Dialect<Val>, a: Ast, boxes: seq<Val>)
    ensures Owns(d, a, boxes)
    decreases a, 1
  {
    if !Malformed(a) {
      match a
      case Binary(_, _, _) => ChopOwnsBinary(d, a, boxes);
      case Ternary(_, _, _, _) => ChopOwnsTernary(d, a, boxes);
      case Unary(_, _, x) => ChopOwns(d, x, boxes);
      case Suffix(_, x) => ChopOwns(d, x, boxes);
      case Array(items) => ChopOwnsAll(d, items, boxes);
      case Apply(_, _) => ChopOwnsApply(d, a, boxes);
      case _ =>
    }
  }

  lemma {:induction false} ChopOwnsBinary(d: Dialect<Val>, a: Ast, boxes: seq<Val>)
    requires a.Binary? && !Malformed(a)
    ensures Owns(d, a, boxes)
    decreases a, 0
  {
    ChopOwns(d, a.left, boxes);
    var l := Chop(d, a.left, boxes);
    if l.Chopped? {
      ChopOwns(d, a.right, l.boxes);
      TwoParts(boxes, LiteralValues(d, a.left), LiteralValues(d, a.right));
    }
  }

  lemma {:induction false} ChopOwnsApply(d: Dialect<Val>, a: Ast, boxes: seq<Val>)
    requires a.Apply? && !Malformed(a)
    ensures Owns(d, a, boxes)
    decreases a, 0
  {
    ChopOwns(d, a.func, boxes);
    var f := Chop(d, a.func, boxes);
    if f.Chopped? {
      ChopOwnsAll(d, a.args, f.boxes);
      TwoParts(boxes, LiteralValues(d, a.func), AllLiteralValues(d, a.args));
    }
  }

  lemma {:induction false} ChopOwnsTernary(d: Dialect<Val>, a: Ast, boxes: seq<Val>)
    requires a.Ternary? && !Malformed(a)
    ensures Owns(d, a, boxes)
    decreases a, 0
  {
    ChopOwns(d, a.condition, boxes);
    var c := Chop(d, a.condition, boxes);
    if c.Chopped? {
      ChopOwns(d, a.trueExpr, c.boxes);
      var t := Chop(d, a.trueExpr, c.boxes);
      if t.Chopped? {
        ChopOwns(d, a.falseExpr, t.boxes);
        ThreeParts(boxes, LiteralValues(d, a.condition), LiteralValues(d, a.trueExpr), LiteralValues(d, a.falseExpr));
      }
    }
  }

  predicate AllTranslatable(d: Dialect<Val>, asts: seq<Ast>) {
    forall i :: 0 <= i < |asts| ==> Translatable(d, asts[i])
  }

  ghost predicate OwnsAll(d: Dialect<Val>, asts: seq<Ast>, boxes: seq<Val>) {
    var r := ChopAll(d, asts, boxes);
    && (r.ChoppedArgs? <==> AllTranslatable(d, asts))
    && (r.ChoppedArgs? ==> r.boxes == boxes + AllLiteralValues(d, asts) && BoxesOfAll(r.exprs) == Upto(|boxes|, |AllLiteralValues(d, asts)|))
  }

  lemma AllTranslatableIff(d: Dialect<Val>, asts: seq<Ast>)
    requires asts != []
    ensures AllTranslatable(d, asts) <==> Translatable(d, asts[0]) && AllTranslatable(d, asts[1..])
  {
    assert forall i :: 0 < i < |asts| ==> asts[i] == asts[1..][i - 1];
  }

  lemma {:induction false} ChopOwnsAll(d: Dialect<Val>, asts: seq<Ast>, boxes: seq<Val>)
    ensures OwnsAll(d, asts, boxes)
    decreases asts, 0
  {
    if asts != [] {
      ChopOwns(d, asts[0], boxes);
      AllTranslatableIff(d, asts);
      var x := Chop(d, asts[0], boxes);
      if x.Chopped? {
        ChopOwnsAll(d, asts[1..], x.boxes);
        var xs := ChopAll(d, asts[1..], x.boxes);
        assert xs.ChoppedArgs? ==> ([x.expr] + xs.exprs)[1..] == xs.exprs;
        TwoParts(boxes, LiteralValues(d, asts[0]), AllLiteralValues(d, asts[1..]));
      }
    }
  }
}
