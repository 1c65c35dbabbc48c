/** Every tree the parser emits has source text, up to missing operands: its nodes are the ones
    the code generator dispatches on, and printing it and parsing again changes nothing. */
module ParserLaws {
  import opened Syntax
  import opened Ast
  import opened Grammar
  import opened Printer
  import RoundTrip

  /** Every node is one the grammar writes, though operands may be missing. */
  predicate Shaped<V>(d: Dialect<V>, a: Ast)
    decreases a, 1
  {
    a.Null? || (Spellable(d, a) && ShapedParts(d, a))
  }

  predicate ShapedParts<V>(d: Dialect<V>, a: Ast)
    decreases a, 0
  {
    match a
    case Binary(_, l, r) => Shaped(d, l) && Shaped(d, r)
    case Ternary(_, c, t, f) => Shaped(d, c) && Shaped(d, t) && Shaped(d, f)
    case Unary(_, _, x) => Shaped(d, x)
    case Suffix(_, x) => Shaped(d, x)
    case Array(items) => AllShaped(d, items)
    case Apply(f, args) => Shaped(d, f) && AllShaped(d, args)
    case _ => true
  }

  predicate AllShaped<V>(d: Dialect<V>, asts: seq<Ast>)
    decreases asts
  {
    forall i :: 0 <= i < |asts| ==> Shaped(d, asts[i])
  }

  /** No operand is missing. */
  predicate Complete(a: Ast) {
    match a
    case Null => false
    case Binary(_, l, r) => Complete(l) && Complete(r)
    case Ternary(_, c, t, f) => Complete(c) && Complete(t) && Complete(f)
    case Unary(_, _, x) => Complete(x)
    case Suffix(_, x) => Complete(x)
    case Array(items) => forall i :: 0 <= i < |items| ==> Complete(items[i])
    case Apply(f, args) => Complete(f) && forall i :: 0 <= i < |args| ==> Complete(args[i])
    case _ => true
  }

  lemma {:induction false} PrintableIffComplete<V>(d: Dialect<V>, a: Ast)
    ensures Printable(d, a) <==> Shaped(d, a) && Complete(a)
    decreases a, 1
  {
    match a
    case Binary(_, l, r) =>
      PrintableIffComplete(d, l);
      PrintableIffComplete(d, r);
    case Ternary(_, c, t, f) =>
      PrintableIffComplete(d, c);
      PrintableIffComplete(d, t);
      PrintableIffComplete(d, f);
    case Unary(_, _, x) => PrintableIffComplete(d, x);
    case Suffix(_, x) => PrintableIffComplete(d, x);
    case Array(items) => AllPrintableIffComplete(d, items);
    case Apply(f, args) =>
      PrintableIffComplete(d, f);
      AllPrintableIffComplete(d, args);
    case _ => assert PrintableParts(d, a) && ShapedParts(d, a) && (Complete(a) <==> !a.Null?);
  }

  lemma {:induction false} AllPrintableIffComplete<V>(d: Dialect<V>, asts: seq<Ast>)
    ensures AllPrintable(d, asts) <==> AllShaped(d, asts) && forall i :: 0 <= i < |asts| ==> Complete(asts[i])
    decreases asts, 0
  {
    if asts != [] {
      PrintableIffComplete(d, asts[0]);
      AllPrintableIffComplete(d, asts[1..]);
      assert forall i :: 0 < i < |asts| ==> asts[i] == asts[1..][i - 1];
    }
  }

  // ------------------------------------------------------------------ what the routines emit

  ghost predicate Emits<V>(d: Dialect<V>, r: Parsed) {
    r.Parsed? ==> Shaped(d, r.ast)
  }

  ghost predicate EmitsAll<V>(d: Dialect<V>, r: ParsedList) {
    r.ParsedList? ==> AllShaped(d, r.asts)
  }

  /** The parser emits shaped trees only. */
  lemma {:induction false} EmitsExpr<V>(d: Dialect<V>, ts: seq<Token>, pos: nat)
    requires pos <= |ts|
    ensures Emits(d, ParseExpr(d, ts, pos))
    decreases |ts| - pos, 41
  {
    EmitsBinary(d, ts, 15, pos);
    var l := ParseBinary(d, ts, 15, pos);
    if l.Parsed? {
      if IsAssign(KindAt(ts, l.pos)) {
        EmitsExpr(d, ts, l.pos + 1);
      } else if KindAt(ts, l.pos).QUESTION? {
        EmitsBranches(d, ts, l.ast, l.pos);
      }
    }
  }

  lemma {:induction false} EmitsBranches<V>(d: Dialect<V>, ts: seq<Token>, cond: Ast, pos: nat)
    requires pos < |ts| && Shaped(d, cond)
    ensures Emits(d, ParseBranches(d, ts, cond, pos))
    decreases |ts| - pos, 40
  {
    EmitsExpr(d, ts, pos + 1);
    var t := ParseExpr(d, ts, pos + 1);
    if t.Parsed? && KindAt(ts, t.pos).COLON? {
      EmitsExpr(d, ts, t.pos + 1);
    }
  }

  lemma {:induction false} EmitsBinary<V>(d: Dialect<V>, ts: seq<Token>, k: nat, pos: nat)
    requires pos <= |ts| && 4 <= k <= 15
    ensures Emits(d, ParseBinary(d, ts, k, pos))
    decreases |ts| - pos, 2 * k + 1
  {
    if k == 4 {
      EmitsPrefix(d, ts, pos);
    } else {
      EmitsBinary(d, ts, k - 1, pos);
      var l := ParseBinary(d, ts, k - 1, pos);
      if l.Parsed? {
        EmitsTail(d, ts, k, l.ast, l.pos);
      }
    }
  }

  lemma {:induction false} EmitsTail<V>(d: Dialect<V>, ts: seq<Token>, k: nat, left: Ast, pos: nat)
    requires pos <= |ts| && 5 <= k <= 15 && Shaped(d, left)
    ensures Emits(d, BinaryTail(d, ts, k, left, pos))
    decreases |ts| - pos, 2 * k
  {
    if BinaryLevel(KindAt(ts, pos)) == k {
      EmitsBinary(d, ts, k - 1, pos + 1);
      var r := ParseBinary(d, ts, k - 1, pos + 1);
      if r.Parsed? {
        EmitsTail(d, ts, k, Binary(KindAt(ts, pos), left, r.ast), r.pos);
      }
    }
  }

  lemma {:induction false} EmitsPrefix<V>(d: Dialect<V>, ts: seq<Token>, pos: nat)
    requires pos <= |ts|
    ensures Emits(d, ParsePrefix(d, ts, pos))
    decreases |ts| - pos, 8
  {
    if IsPrefix(KindAt(ts, pos)) {
      EmitsPrefix(d, ts, pos + 1);
    } else if CastAt(d, ts, pos) {
      EmitsPrefix(d, ts, pos + 3);
    } else {
      EmitsPrimary(d, ts, pos);
      var p := ParsePrimary(d, ts, pos);
      if p.Parsed? {
        EmitsChain(d, ts, p.ast, p.pos);
      }
    }
  }

  lemma {:induction false} EmitsChain<V>(d: Dialect<V>, ts: seq<Token>, left: Ast, pos: nat)
    requires pos <= |ts| && Shaped(d, left)
    ensures Emits(d, ChainTail(d, ts, left, pos))
    decreases |ts| - pos, 6
  {
    var k := KindAt(ts, pos);
    if k.LPAREN? {
      EmitsCall(d, ts, left, pos);
    } else if k.LBRACKET? {
      EmitsIndex(d, ts, left, pos);
    } else if k.DOT? {
      EmitsMember(d, ts, left, pos);
    }
  }

  lemma {:induction false} EmitsCall<V>(d: Dialect<V>, ts: seq<Token>, left: Ast, pos: nat)
    requires pos < |ts| && Shaped(d, left)
    ensures Emits(d, ParseCall(d, ts, left, pos))
    decreases |ts| - pos, 5
  {
    var args := if KindAt(ts, pos + 1).RPAREN? then ParsedList([], pos + 2) else ParseArgs(d, ts, pos + 1, []);
    EmitsArgs(d, ts, pos + 1, []);
    if args.ParsedList? {
      EmitsChain(d, ts, Apply(left, args.asts), args.pos);
    }
  }

  lemma {:induction false} EmitsIndex<V>(d: Dialect<V>, ts: seq<Token>, left: Ast, pos: nat)
    requires pos < |ts| && Shaped(d, left)
    ensures Emits(d, ParseIndex(d, ts, left, pos))
    decreases |ts| - pos, 5
  {
    EmitsExpr(d, ts, pos + 1);
    var i := ParseExpr(d, ts, pos + 1);
    if i.Parsed? && KindAt(ts, i.pos).RBRACKET? {
      EmitsChain(d, ts, Binary(LBRACKET, left, i.ast), i.pos + 1);
    }
  }

  lemma {:induction false} EmitsMember<V>(d: Dialect<V>, ts: seq<Token>, left: Ast, pos: nat)
    requires pos < |ts| && Shaped(d, left)
    ensures Emits(d, ParseMember(d, ts, left, pos))
    decreases |ts| - pos, 5
  {
    EmitsPrimary(d, ts, pos + 1);
    var m := ParsePrimary(d, ts, pos + 1);
    if m.Parsed? {
      EmitsChain(d, ts, Binary(DOT, left, m.ast), m.pos);
    }
  }

  lemma {:induction false} EmitsArgs<V>(d: Dialect<V>, ts: seq<Token>, pos: nat, acc: seq<Ast>)
    requires pos <= |ts| && AllShaped(d, acc)
    ensures EmitsAll(d, ParseArgs(d, ts, pos, acc))
    decreases |ts| - pos, 42
  {
    EmitsExpr(d, ts, pos);
    var e := ParseExpr(d, ts, pos);
    if e.Parsed? {
      if e.ast.Null? {
        if KindAt(ts, e.pos).RPAREN? {
          EmitsArgs(d, ts, e.pos + 1, acc);
        }
      } else if KindAt(ts, e.pos).COMMA? {
        EmitsArgs(d, ts, e.pos + 1, acc + [e.ast]);
      }
    }
  }

  lemma {:induction false} EmitsItems<V>(d: Dialect<V>, ts: seq<Token>, pos: nat, acc: seq<Ast>)
    requires pos <= |ts| && AllShaped(d, acc)
    ensures EmitsAll(d, ParseItems(d, ts, pos, acc))
    decreases |ts| - pos, 42
  {
    if !KindAt(ts, pos).RBRACKET? {
      EmitsExpr(d, ts, pos);
      var e := ParseExpr(d, ts, pos);
      if e.Parsed? && !e.ast.Null? {
        EmitsItems(d, ts, if KindAt(ts, e.pos).COMMA? then e.pos + 1 else e.pos, acc + [e.ast]);
      }
    }
  }

  lemma {:induction false} EmitsPrimary<V>(d: Dialect<V>, ts: seq<Token>, pos: nat)
    requires pos <= |ts|
    ensures Emits(d, ParsePrimary(d, ts, pos))
    decreases |ts| - pos, 5
  {
    if KindAt(ts, pos).LPAREN? {
      EmitsExpr(d, ts, pos + 1);
    } else if KindAt(ts, pos).LBRACKET? {
      EmitsItems(d, ts, pos + 1, []);
    }
  }

  /** Printing a parsed tree and parsing the result gives the tree back, whenever nothing was missing. */
  lemma ReparsedIsSame<V>(d: Dialect<V>, spell: map<Kind, string>, ts: seq<Token>, pos: nat)
    requires pos <= |ts| && ParseExpr(d, ts, pos).Parsed? && Complete(ParseExpr(d, ts, pos).ast)
    ensures var a := ParseExpr(d, ts, pos).ast; ParseExpr(d, Print(spell, a, 16), 0) == Parsed(a, |Print(spell, a, 16)|)
  {
    var a := ParseExpr(d, ts, pos).ast;
    EmitsExpr(d, ts, pos);
    PrintableIffComplete(d, a);
    RoundTrip.ExpressionRoundTrip(d, spell, a, [], []);
    assert [] + Print(spell, a, 16) + [] == Print(spell, a, 16);
  }
}
