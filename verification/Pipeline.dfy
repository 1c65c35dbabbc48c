/** From tokens to behaviour: a body the parser accepts, once translated, means what its text says,
    and ends by returning, by throwing or by falling off its end. */
module Pipeline {
  import opened Syntax
  import opened Ast
  import opened Semantics
  import opened Grammar
  import opened StatementGrammar
  import opened Codegen
  import opened BlockCollapse
  import Interpreter

  /** The body written at `pos`, translated with the blocks as they are written, and as the
      generator translates it. */
  function Written(d: Dialect<Val>, ts: seq<Token>, pos: nat, boxes: seq<Val>): ChoppedStmt
    requires pos <= |ts| && ParseBody(d, ts, pos).ParsedTree?
  {
    NestedIsWhole(ParseBody(d, ts, pos).tree, false);
    ChopTree(d, AsWritten, ParseBody(d, ts, pos).tree, boxes)
  }

  function Generated(d: Dialect<Val>, ts: seq<Token>, pos: nat, boxes: seq<Val>): ChoppedStmt
    requires pos <= |ts| && ParseBody(d, ts, pos).ParsedTree?
  {
    NestedIsWhole(ParseBody(d, ts, pos).tree, false);
    ChopTree(d, BlockOf, ParseBody(d, ts, pos).tree, boxes)
  }

  /** An accepted body is translated to a statement whose jumps stay inside loops, so running it
      never ends with the break or the continue flag. */
  lemma AcceptedBodyNeverJumps(d: Dialect<Val>, ts: seq<Token>, pos: nat, boxes: seq<Val>, w: World, fuel: nat, m: Mem)
    requires pos <= |ts| && ParseBody(d, ts, pos).ParsedTree? && |m.frames| > 0
    requires Generated(d, ts, pos, boxes).ChoppedStmt?
    ensures var s := Generated(d, ts, pos, boxes).stmt;
      WellNested(s, false) && var o := ExecStmt(w, fuel, s, m).0; o == Normal || o.Returned? || o.Raising?
  {
    ChopKeepsNesting(d, ParseBody(d, ts, pos).tree, false, boxes);
    Interpreter.NoStrayJump(w, fuel, Generated(d, ts, pos, boxes).stmt, false, m);
  }

  /** Outcome, returned handle, boxes and every binding below the body's own frame are those of
      the body as written, in a world whose functions were translated the same way. */
  lemma AcceptedBodyMeansItsText(d: Dialect<Val>, ts: seq<Token>, pos: nat, boxes: seq<Val>, w: World, fuel: nat, m: Mem)
    requires pos <= |ts| && ParseBody(d, ts, pos).ParsedTree? && |m.frames| > 0
    requires Written(d, ts, pos, boxes).ChoppedStmt? && HarmlessWorld(w) && HarmlessFunction(Written(d, ts, pos, boxes).stmt)
    ensures Generated(d, ts, pos, boxes).ChoppedStmt? && Generated(d, ts, pos, boxes).boxes == Written(d, ts, pos, boxes).boxes
    ensures SameButTop(ExecStmt(CollapseWorld(w), fuel, Generated(d, ts, pos, boxes).stmt, m), ExecStmt(w, fuel, Written(d, ts, pos, boxes).stmt, m))
  {
    var tree := ParseBody(d, ts, pos).tree;
    NestedIsWhole(tree, false);
    GeneratorCollapses(d, tree, boxes);
    SameBody(w, fuel, Written(d, ts, pos, boxes).stmt, m);
  }
}
