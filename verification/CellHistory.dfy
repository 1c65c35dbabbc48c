/** What stateful cells hold: their fields and value are a fold of their body over the arguments of
    their executions, under both schedulers. */
module CellHistory {
  import opened CellGraph
  import opened CycleScheduler
  import opened ThreadedScheduler
  import opened Wrappers

  /** The body of a cell type run on one argument list after the other: the fields it ends with, and
      what it returned last, if it ever returned. */
  function Lived<V, S>(body: (seq<V>, S) -> (Ending<V>, S), self: S, inputs: seq<seq<V>>): (S, Maybe<V>) {
    if inputs == [] then (self, Nothing)
    else
      var (s, v) := Lived(body, self, inputs[..|inputs| - 1]);
      var (ending, s') := body(inputs[|inputs| - 1], s);
      (s', if ending.Returned? then Just(ending.value) else v)
  }

  function OrElse<V>(v: Maybe<V>, other: V): V {
    if v.Just? then v.value else other
  }

  lemma OneMoreRun<V, S>(body: (seq<V>, S) -> (Ending<V>, S), self: S, inputs: seq<seq<V>>, args: seq<V>)
    ensures var (s, v) := Lived(body, self, inputs);
      var (ending, s') := body(args, s);
      Lived(body, self, inputs + [args]) == (s', if ending.Returned? then Just(ending.value) else v)
  {
    assert (inputs + [args])[..|inputs|] == inputs;
  }

  /** The type of the worker exists and takes as many arguments, and each of these names a cell. */
  ghost predicate Runnable<V, S>(g: Graph<V, S>, w: string)
    requires w in g.workers
  {
    var wk := g.workers[w];
    && wk.typeName in g.types && |wk.args| == g.types[wk.typeName].arity
    && forall i :: 0 <= i < |wk.args| ==> Names(g, wk.args[i])
  }

  predicate Names<V, S>(g: Graph<V, S>, a: Arg<V>) {
    a.FromCell? ==> a.cell in g.workers || a.cell in g.inputs || a.cell in g.externs
  }

  lemma {:induction false} ReadsIffNamed<V, S>(g: Graph<V, S>, values: map<string, V>, args: seq<Arg<V>>)
    requires g.workers.Keys <= values.Keys
    ensures ReadArgs(g, values, args).Just? <==> forall i :: 0 <= i < |args| ==> Names(g, args[i])
    ensures ReadArgs(g, values, args).Just? ==>
      forall i :: 0 <= i < |args| ==> ArgValue(g, values, args[i]) == Just(ReadArgs(g, values, args).value[i])
    decreases |args|
  {
    if args != [] {
      var front, last := args[..|args| - 1], args[|args| - 1];
      ReadsIffNamed(g, values, front);
      assert forall i :: 0 <= i < |front| ==> args[i] == front[i];
      assert ArgValue(g, values, last).Just? <==> Names(g, last);
    }
  }

  /** The body throws for the arguments the cell would find. */
  ghost predicate Throws<V, S>(g: Graph<V, S>, c: Cells<V, S>, w: string)
    requires Covers(g, c) && w in g.workers
  {
    var wk := g.workers[w];
    var args := ReadArgs(g, c.values, wk.args);
    args.Just? && wk.typeName in g.types && g.types[wk.typeName].body(args.value, c.selfs[w]).0.Threw?
  }

  /** A cell fails if and only if it cannot be run or its body throws; in the first case nothing at
      all has changed. */
  lemma FailsIff<V, S>(g: Graph<V, S>, c: Cells<V, S>, w: string)
    requires Covers(g, c) && w in g.workers
    ensures var r := RunCell(g, c, w);
      (r.failure.Just? <==> !Runnable(g, w) || Throws(g, c, w)) && (!Runnable(g, w) ==> r.cells == c)
  {
    ReadsIffNamed(g, c.values, g.workers[w].args);
  }

  // ------------------------------------------------------------------ one pass

  /** The arguments worker `w` finds if it is executed now; nothing if its body is not run. */
  function Finds<V, S>(g: Graph<V, S>, c: Cells<V, S>, w: string): Maybe<seq<V>>
    requires Covers(g, c) && w in g.workers
  {
    var wk := g.workers[w];
    if wk.typeName in g.types && |wk.args| == g.types[wk.typeName].arity then ReadArgs(g, c.values, wk.args) else Nothing
  }

  /** The arguments of the successive runs of `w` when the workers of `order` are executed. */
  function Inputs<V, S>(g: Graph<V, S>, order: seq<string>, c: Cells<V, S>, w: string): seq<seq<V>>
    requires Covers(g, c) && forall i :: 0 <= i < |order| ==> order[i] in g.workers
  {
    if order == [] then []
    else
      var before, front := Inputs(g, order[..|order| - 1], c, w), RunCells(g, order[..|order| - 1], c);
      if front.failure.Just? || order[|order| - 1] != w || Finds(g, front.cells, w).Nothing? then before
      else before + [Finds(g, front.cells, w).value]
  }

  /** Fields and value of `w`, and the output it feeds, after the runs on `inputs`. */
  ghost predicate HasLived<V(!new), S(!new)>(g: Graph<V, S>, c: Cells<V, S>, w: string, inputs: seq<seq<V>>, c': Cells<V, S>)
    requires Covers(g, c) && Covers(g, c') && w in g.workers
  {
    var wk := g.workers[w];
    if wk.typeName !in g.types then inputs == [] && c'.selfs[w] == c.selfs[w] && c'.values[w] == c.values[w]
    else
      var (s, v) := Lived(g.types[wk.typeName].body, c.selfs[w], inputs);
      && c'.selfs[w] == s && c'.values[w] == OrElse(v, c.values[w])
      && Feeds(wk.output, v, c, c')
  }

  /** The output holds the value, or is as it was if there is none. */
  ghost predicate Feeds<V(!new), S>(output: string, v: Maybe<V>, c: Cells<V, S>, c': Cells<V, S>) {
    output != "" ==>
      if v.Just? then output in c'.outputs && c'.outputs[output] == v.value
      else (output in c'.outputs <==> output in c.outputs) && (output in c.outputs ==> c'.outputs[output] == c.outputs[output])
  }

  /** One execution: the fields and value of the cell are those of one more run of its body; those of
      all other cells are as before. */
  lemma ExecutionLives<V(!new), S(!new)>(g: Graph<V, S>, c0: Cells<V, S>, c: Cells<V, S>, x: string, w: string, inputs: seq<seq<V>>)
    requires Covers(g, c0) && Covers(g, c) && x in g.workers && w in g.workers && UniqueOutputs(g) && HasLived(g, c0, w, inputs, c)
    ensures var r := RunCell(g, c, x);
      Covers(g, r.cells) && HasLived(g, c0, w, if x == w && Finds(g, c, w).Just? then inputs + [Finds(g, c, w).value] else inputs, r.cells)
  {
    if x == w && Finds(g, c, w).Just? {
      OneMoreRun(g.types[g.workers[w].typeName].body, c0.selfs[w], inputs, Finds(g, c, w).value);
    }
  }

  /** After any sequence of executions, failing or not, the fields of a cell are the fold of its body
      over the arguments it found, and its value and output are what it returned last. */
  lemma {:induction false} CellsLive<V(!new), S(!new)>(g: Graph<V, S>, order: seq<string>, c: Cells<V, S>, w: string)
    requires Covers(g, c) && (forall i :: 0 <= i < |order| ==> order[i] in g.workers) && w in g.workers && UniqueOutputs(g)
    ensures HasLived(g, c, w, Inputs(g, order, c, w), RunCells(g, order, c).cells)
  {
    if order != [] {
      var front := order[..|order| - 1];
      CellsLive(g, front, c, w);
      ExecutionLives(g, c, RunCells(g, front, c).cells, order[|order| - 1], w, Inputs(g, front, c, w));
    }
  }

  predicate Workers<V, S>(g: Graph<V, S>, order: seq<string>) {
    forall i :: 0 <= i < |order| ==> order[i] in g.workers
  }

  lemma OneMoreInput<V, S>(g: Graph<V, S>, order: seq<string>, x: string, c: Cells<V, S>, w: string)
    requires Covers(g, c) && Workers(g, order) && x in g.workers && w in g.workers
    ensures Workers(g, order + [x])
    ensures var before, front := Inputs(g, order, c, w), RunCells(g, order, c);
      Inputs(g, order + [x], c, w) ==
        if front.failure.Just? || x != w || Finds(g, front.cells, w).Nothing? then before else before + [Finds(g, front.cells, w).value]
  {
    var all := order + [x];
    assert all[..|all| - 1] == order && all[|all| - 1] == x;
  }

  lemma OnceAtMost(front: seq<string>, x: string)
    requires Distinct(front + [x])
    ensures Distinct(front) && x !in front
  {
    assert (front + [x])[|front|] == x;
    assert forall i :: 0 <= i < |front| ==> (front + [x])[i] == front[i];
  }

  lemma FindsIfItRuns<V, S>(g: Graph<V, S>, c: Cells<V, S>, w: string)
    requires Covers(g, c) && w in g.workers && RunCell(g, c, w).failure.Nothing?
    ensures Finds(g, c, w).Just?
  {
  }

  /** In a pass without failure every cell is run exactly once. */
  lemma {:induction false} OncePerPass<V(!new), S(!new)>(g: Graph<V, S>, order: seq<string>, c: Cells<V, S>, w: string)
    requires Covers(g, c) && Distinct(order) && (forall i :: 0 <= i < |order| ==> order[i] in g.workers) && w in g.workers
    requires RunCells(g, order, c).failure.Nothing?
    ensures |Inputs(g, order, c, w)| == if w in order then 1 else 0
  {
    if order != [] {
      var front, x := order[..|order| - 1], order[|order| - 1];
      OncePerPass(g, front, c, w);
      assert order == front + [x];
      OnceAtMost(front, x);
      FindsIfItRuns(g, RunCells(g, front, c).cells, x);
      OneMoreInput(g, front, x, c, w);
    }
  }

  // ------------------------------------------------------------------ many passes

  function Joined(cycles: seq<seq<string>>): seq<string> {
    if cycles == [] then [] else Joined(cycles[..|cycles| - 1]) + cycles[|cycles| - 1]
  }

  lemma OneMoreCell<V, S>(g: Graph<V, S>, order: seq<string>, x: string, c: Cells<V, S>)
    requires Covers(g, c) && Workers(g, order) && x in g.workers
    ensures Workers(g, order + [x])
    ensures RunCells(g, order + [x], c) == var front := RunCells(g, order, c); if front.failure.Just? then front else RunCell(g, front.cells, x)
  {
    var all := order + [x];
    assert all[..|all| - 1] == order && all[|all| - 1] == x;
  }

  lemma {:induction false} RunsJoin<V, S>(g: Graph<V, S>, a: seq<string>, b: seq<string>, c: Cells<V, S>)
    requires Covers(g, c) && Workers(g, a) && Workers(g, b)
    ensures Workers(g, a + b)
    ensures RunCells(g, a + b, c) == var front := RunCells(g, a, c); if front.failure.Just? then front else RunCells(g, b, front.cells)
    decreases |b|
  {
    if b == [] {
      assert a + b == a;
    } else {
      var before, x := b[..|b| - 1], b[|b| - 1];
      assert b == before + [x] && a + b == (a + before) + [x];
      RunsJoin(g, a, before, c);
      OneMoreCell(g, a + before, x, c);
      OneMoreCell(g, before, x, RunCells(g, a, c).cells);
    }
  }

  /** Passes one after the other are one long sequence of executions. */
  lemma {:induction false} PassesJoin<V, S>(g: Graph<V, S>, cycles: seq<seq<string>>, c: Cells<V, S>)
    requires Covers(g, c) && forall i, j :: 0 <= i < |cycles| && 0 <= j < |cycles[i]| ==> cycles[i][j] in g.workers
    ensures forall i :: 0 <= i < |Joined(cycles)| ==> Joined(cycles)[i] in g.workers
    ensures RunCells(g, Joined(cycles), c) == RunCycles(g, cycles, c)
  {
    if cycles != [] {
      var front, last := cycles[..|cycles| - 1], cycles[|cycles| - 1];
      PassesJoin(g, front, c);
      RunsJoin(g, Joined(front), last, c);
    }
  }

  /** So after any passes in any orders. */
  lemma CellsLiveOn<V(!new), S(!new)>(g: Graph<V, S>, cycles: seq<seq<string>>, c: Cells<V, S>, w: string)
    requires Covers(g, c) && (forall i, j :: 0 <= i < |cycles| && 0 <= j < |cycles[i]| ==> cycles[i][j] in g.workers)
    requires w in g.workers && UniqueOutputs(g)
    ensures forall i :: 0 <= i < |Joined(cycles)| ==> Joined(cycles)[i] in g.workers
    ensures HasLived(g, c, w, Inputs(g, Joined(cycles), c, w), RunCycles(g, cycles, c).cells)
  {
    PassesJoin(g, cycles, c);
    CellsLive(g, Joined(cycles), c, w);
  }

  // ------------------------------------------------------------------ any number of threads

  /** The step of a thread that stands at `pc` runs the body of `w`, on these arguments. */
  function BodyRuns<V, S>(g: Graph<V, S>, pc: Thread<V>, w: string): Maybe<seq<V>>
    requires w in g.workers
  {
    if pc.Reading? && pc.cell == w && |pc.got| == |g.workers[w].args| && g.workers[w].typeName in g.types then Just(pc.got) else Nothing
  }

  /** The arguments of the runs of the body of `w` among the first `i` steps, in the order of these steps. */
  function Executed<V, S>(g: Graph<V, S>, run: seq<State<V, S>>, sched: seq<nat>, w: string, i: nat): seq<seq<V>>
    requires w in g.workers && i <= |sched| < |run|
  {
    if i == 0 then []
    else
      var before, threads := Executed(g, run, sched, w, i - 1), run[i - 1].threads;
      if sched[i - 1] < |threads| && BodyRuns(g, threads[sched[i - 1]], w).Just? then before + [threads[sched[i - 1]].got] else before
  }

  /** The thread inside `w`, if any. */
  function Holder<V, S>(s: State<V, S>, w: string): Thread<V> {
    if w in s.shared.holder && s.shared.holder[w] < |s.threads| then s.threads[s.shared.holder[w]] else Idle
  }

  /** What the cell returned last, but for a value that still has to be stored. */
  function Shown<V, S>(body: (seq<V>, S) -> (Ending<V>, S), self: S, inputs: seq<seq<V>>, pending: bool): Maybe<V> {
    Lived(body, self, if pending && inputs != [] then inputs[..|inputs| - 1] else inputs).1
  }

  /** The fields of `w` after the runs on `inputs`, when the thread inside it stands at `pc`; its
      value and output follow as soon as that thread has stored them. */
  ghost predicate LivesAt<V(!new), S(!new)>(g: Graph<V, S>, c: Cells<V, S>, w: string, inputs: seq<seq<V>>, c': Cells<V, S>, pc: Thread<V>)
    requires Covers(g, c) && Covers(g, c') && w in g.workers && g.workers[w].typeName in g.types
  {
    var wk := g.workers[w];
    var body, self := g.types[wk.typeName].body, c.selfs[w];
    && c'.selfs[w] == Lived(body, self, inputs).0
    && c'.values[w] == OrElse(Shown(body, self, inputs, pc.Writing?), c.values[w])
    && Feeds(wk.output, Shown(body, self, inputs, pc.Writing? || pc.Reporting?), c, c')
    && (pc.Writing? || pc.Reporting? ==> inputs != [] && Lived(body, self, inputs).1 == Just(pc.v))
  }

  ghost predicate Lives<V(!new), S(!new)>(g: Graph<V, S>, c: Cells<V, S>, w: string, inputs: seq<seq<V>>, s: State<V, S>)
    requires Covers(g, c) && Covers(g, s.shared.cells) && w in g.workers && g.workers[w].typeName in g.types
  {
    LivesAt(g, c, w, inputs, s.shared.cells, Holder(s, w))
  }

  /** A step inside the cell. */
  lemma InsideLives<V(!new), S(!new)>(g: Graph<V, S>, flat: seq<string>, c: Cells<V, S>, w: string, inputs: seq<seq<V>>, m: Shared<V, S>, t: nat, pc: Thread<V>)
    requires ThreadedScheduler.Fits(g, flat, m) && WellFormed(g, pc) && Inside(pc) == Just(w)
    requires Covers(g, c) && w in g.workers && g.workers[w].typeName in g.types && LivesAt(g, c, w, inputs, m.cells, pc)
    ensures var (m', pc') := Move(g, flat, m, t, pc);
      LivesAt(g, c, w, if BodyRuns(g, pc, w).Just? then inputs + [pc.got] else inputs, m'.cells, if Inside(pc') == Just(w) then pc' else Idle)
  {
    if BodyRuns(g, pc, w).Just? {
      OneMoreRun(g.types[g.workers[w].typeName].body, c.selfs[w], inputs, pc.got);
      assert (inputs + [pc.got])[..|inputs|] == inputs;
    }
  }

  /** A step elsewhere. */
  lemma OutsideLives<V(!new), S(!new)>(g: Graph<V, S>, flat: seq<string>, m: Shared<V, S>, t: nat, pc: Thread<V>, w: string)
    requires ThreadedScheduler.Fits(g, flat, m) && WellFormed(g, pc) && Inside(pc) != Just(w) && w in g.workers && UniqueOutputs(g)
    ensures var (m', pc') := Move(g, flat, m, t, pc);
      && m'.cells.selfs[w] == m.cells.selfs[w] && m'.cells.values[w] == m.cells.values[w]
      && Feeds(g.workers[w].output, Nothing, m.cells, m'.cells) && (Inside(pc') == Just(w) ==> pc' == Reading(w, []))
      && BodyRuns(g, pc, w).Nothing?
  {
  }

  lemma HolderMoves<V(!new), S(!new)>(g: Graph<V, S>, flat: seq<string>, s: State<V, S>, t: nat, w: string)
    requires Runs(g, flat, s) && LocksMatch(s) && t < |s.threads|
    ensures var pc, s' := s.threads[t], Step(g, flat, s, t);
      if Inside(pc) == Just(w) then
        Holder(s, w) == pc && Holder(s', w) == if Inside(s'.threads[t]) == Just(w) then s'.threads[t] else Idle
      else if Inside(s'.threads[t]) == Just(w) then Holder(s, w) == Idle && Holder(s', w) == s'.threads[t]
      else Holder(s', w) == Holder(s, w)
  {
    MoveEffect(g, flat, s.shared, t, s.threads[t]);
    StepKeepsLocks(g, flat, s, t);
  }

  lemma StepLives<V(!new), S(!new)>(g: Graph<V, S>, flat: seq<string>, c: Cells<V, S>, w: string, inputs: seq<seq<V>>, s: State<V, S>, t: nat)
    requires Runs(g, flat, s) && LocksMatch(s) && t < |s.threads| && UniqueOutputs(g)
    requires Covers(g, c) && w in g.workers && g.workers[w].typeName in g.types && Lives(g, c, w, inputs, s)
    ensures Lives(g, c, w, if BodyRuns(g, s.threads[t], w).Just? then inputs + [s.threads[t].got] else inputs, Step(g, flat, s, t))
  {
    HolderMoves(g, flat, s, t, w);
    if Inside(s.threads[t]) == Just(w) {
      InsideLives(g, flat, c, w, inputs, s.shared, t, s.threads[t]);
    } else {
      OutsideLives(g, flat, s.shared, t, s.threads[t], w);
    }
  }

  /** In every interleaving, the fields of a cell are the fold of its body over the arguments of its
      executions in the order of their locks, and its value and output are what it returned last,
      but for a value on its way. */
  lemma {:induction false} ThreadedCellsLive<V(!new), S(!new)>(g: Graph<V, S>, flat: seq<string>, run: seq<State<V, S>>, sched: seq<nat>, w: string, i: nat)
    requires IsRun(g, flat, run, sched) && LocksMatch(run[0]) && i < |run| && UniqueOutputs(g)
    requires w in g.workers && g.workers[w].typeName in g.types && w !in run[0].shared.holder
    ensures Lives(g, run[0].shared.cells, w, Executed(g, run, sched, w, i), run[i])
  {
    if i > 0 {
      ThreadedCellsLive(g, flat, run, sched, w, i - 1);
      MutualExclusion(g, flat, run, sched, i - 1);
      assert run[i] == Step(g, flat, run[i - 1], sched[i - 1]);
      StepLives(g, flat, run[0].shared.cells, w, Executed(g, run, sched, w, i - 1), run[i - 1], sched[i - 1]);
    }
  }
}
