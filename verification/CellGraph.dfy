/** The data-flow graph: cells wired to cells, what one execution of a cell does, and
    what a settled graph means. */
module CellGraph {
  import opened Wrappers

  /** An actual argument of a worker: another cell, or an already evaluated constant. */
  datatype Arg<+V> = FromCell(cell: string) | Constant(value: V)

  /** How the body of a cell ended. */
  datatype Ending<+V> = Returned(value: V) | NoReturn | Threw

  /** A cell template. The body maps arguments and instance fields to an ending and new fields. */
  datatype CellType<!V, !S> = CellType(arity: nat, body: (seq<V>, S) -> (Ending<V>, S))

  /** A worker instance; `output` is empty when the cell feeds no named output. */
  datatype Worker<+V> = Worker(typeName: string, args: seq<Arg<V>>, output: string)

  datatype Graph<!V, !S> = Graph(
    workers: map<string, Worker<V>>,
    types: map<string, CellType<V, S>>,
    inputs: map<string, V>,
    externs: map<string, V>)

  /** Everything a cycle may change. */
  datatype Cells<+V, +S> = Cells(values: map<string, V>, selfs: map<string, S>, outputs: map<string, V>)

  datatype Failure = ArityMismatch(worker: string) | InputNotFound(worker: string) | CellNotFound(worker: string)
                   | BodyThrew(worker: string)

  datatype Ran<+V, +S> = Ran(cells: Cells<V, S>, failure: Maybe<Failure>)

  ghost predicate Covers<V, S>(g: Graph<V, S>, c: Cells<V, S>) {
    g.workers.Keys <= c.values.Keys && g.workers.Keys <= c.selfs.Keys
  }

  /** Value of a cell name: workers hide inputs, inputs hide external cells. */
  function CellValue<V, S>(g: Graph<V, S>, values: map<string, V>, name: string): Maybe<V>
    requires g.workers.Keys <= values.Keys
  {
    if name in g.workers then Just(values[name])
    else if name in g.inputs then Just(g.inputs[name])
    else if name in g.externs then Just(g.externs[name])
    else Nothing
  }

  function ArgValue<V, S>(g: Graph<V, S>, values: map<string, V>, a: Arg<V>): Maybe<V>
    requires g.workers.Keys <= values.Keys
  {
    match a
    case FromCell(name) => CellValue(g, values, name)
    case Constant(v) => Just(v)
  }

  /** The arguments read in order; Nothing as soon as one names no cell. */
  function ReadArgs<V, S>(g: Graph<V, S>, values: map<string, V>, args: seq<Arg<V>>): (r: Maybe<seq<V>>)
    requires g.workers.Keys <= values.Keys
    ensures r.Just? ==> |r.value| == |args|
  {
    if args == [] then Just([])
    else
      var front := ReadArgs(g, values, args[..|args| - 1]);
      var last := ArgValue(g, values, args[|args| - 1]);
      if front.Nothing? || last.Nothing? then Nothing else Just(front.value + [last.value])
  }

  /** What returning `v` does to a worker's value and to the output it feeds. */
  function Deliver<V, S>(g: Graph<V, S>, c: Cells<V, S>, w: string, v: V): Cells<V, S>
    requires w in g.workers
  {
    c.(values := c.values[w := v],
       outputs := if g.workers[w].output == "" then c.outputs else c.outputs[g.workers[w].output := v])
  }

  /** One execution of worker `w`, as the scheduler performs it. */
  function RunCell<V, S>(g: Graph<V, S>, c: Cells<V, S>, w: string): Ran<V, S>
    requires Covers(g, c) && w in g.workers
  {
    var wk := g.workers[w];
    if wk.typeName in g.types && |wk.args| != g.types[wk.typeName].arity then Ran(c, Just(ArityMismatch(w)))
    else
      var args := ReadArgs(g, c.values, wk.args);
      if args.Nothing? then Ran(c, Just(InputNotFound(w)))
      else if wk.typeName !in g.types then Ran(c, Just(CellNotFound(w)))
      else
        var (ending, self) := g.types[wk.typeName].body(args.value, c.selfs[w]);
        var c' := c.(selfs := c.selfs[w := self]);
        match ending
        case Returned(v) => Ran(Deliver(g, c', w, v), Nothing)
        case NoReturn => Ran(c', Nothing)
        case Threw => Ran(c', Just(BodyThrew(w)))
  }

  /** Execute the workers of `order` one after another, stopping at the first failure. */
  function RunCells<V, S>(g: Graph<V, S>, order: seq<string>, c: Cells<V, S>): (r: Ran<V, S>)
    requires Covers(g, c) && forall i :: 0 <= i < |order| ==> order[i] in g.workers
    ensures Covers(g, r.cells)
  {
    if order == [] then Ran(c, Nothing)
    else
      var front := RunCells(g, order[..|order| - 1], c);
      if front.failure.Just? then front else RunCell(g, front.cells, order[|order| - 1])
  }

  // ------------------------------------------------------------------ denotation

  /** `fs` gives the function each cell type computes: the type always returns, without
      looking at its instance fields. */
  ghost predicate Computes<V(!new), S(!new)>(g: Graph<V, S>, fs: map<string, seq<V> -> V>) {
    && g.types.Keys <= fs.Keys
    && forall t, args: seq<V>, s: S :: t in g.types && |args| == g.types[t].arity ==> g.types[t].body(args, s).0 == Returned(fs[t](args))
  }

  /** Every worker can be executed: its template exists, the argument count fits, every
      argument names a cell. */
  ghost predicate WellWired<V, S>(g: Graph<V, S>) {
    forall w :: w in g.workers ==>
      && g.workers[w].typeName in g.types
      && |g.workers[w].args| == g.types[g.workers[w].typeName].arity
      && forall i :: 0 <= i < |g.workers[w].args| && g.workers[w].args[i].FromCell? ==>
           var name := g.workers[w].args[i].cell;
           name in g.workers || name in g.inputs || name in g.externs
  }

  /** The graph is acyclic: along every edge between workers the rank grows. */
  ghost predicate Ranked<V, S>(g: Graph<V, S>, rank: map<string, nat>) {
    && g.workers.Keys <= rank.Keys
    && forall w :: w in g.workers ==>
         && rank[w] > 0
         && forall i :: 0 <= i < |g.workers[w].args| && g.workers[w].args[i].FromCell? && g.workers[w].args[i].cell in g.workers
              ==> rank[g.workers[w].args[i].cell] < rank[w]
  }

  ghost predicate UniqueOutputs<V, S>(g: Graph<V, S>) {
    forall v, w :: v in g.workers && w in g.workers && v != w && g.workers[v].output != "" ==>
      g.workers[v].output != g.workers[w].output
  }

  /** A graph that converges: executable, stateless, always returning, acyclic. */
  ghost predicate Settling<V(!new), S(!new)>(g: Graph<V, S>, fs: map<string, seq<V> -> V>, rank: map<string, nat>) {
    WellWired(g) && Computes(g, fs) && Ranked(g, rank) && UniqueOutputs(g)
  }

  /** The value a worker has once its whole upstream has been evaluated. */
  ghost function Denote<V(!new), S(!new)>(g: Graph<V, S>, fs: map<string, seq<V> -> V>, rank: map<string, nat>, w: string): V
    requires Settling(g, fs, rank) && w in g.workers
    decreases rank[w], 1
  {
    fs[g.workers[w].typeName](DenoteArgs(g, fs, rank, w, |g.workers[w].args|))
  }

  /** The settled values of the first `n` arguments of `w`. */
  ghost function DenoteArgs<V(!new), S(!new)>(g: Graph<V, S>, fs: map<string, seq<V> -> V>, rank: map<string, nat>, w: string, n: nat): (r: seq<V>)
    requires Settling(g, fs, rank) && w in g.workers && n <= |g.workers[w].args|
    ensures |r| == n
    decreases rank[w], 0, n
  {
    if n == 0 then []
    else
      var a := g.workers[w].args[n - 1];
      DenoteArgs(g, fs, rank, w, n - 1) +
      [if a.Constant? then a.value
       else if a.cell in g.workers then Denote(g, fs, rank, a.cell)
       else if a.cell in g.inputs then g.inputs[a.cell]
       else g.externs[a.cell]]
  }

  /** The settled value does not depend on the ranking chosen to witness acyclicity. */
  lemma {:induction false} DenoteRankIrrelevant<V(!new), S(!new)>(
    g: Graph<V, S>, fs: map<string, seq<V> -> V>, rank: map<string, nat>, rank': map<string, nat>, w: string)
    requires Settling(g, fs, rank) && Settling(g, fs, rank') && w in g.workers
    ensures Denote(g, fs, rank, w) == Denote(g, fs, rank', w)
    decreases rank[w], 1
  {
    DenoteArgsRankIrrelevant(g, fs, rank, rank', w, |g.workers[w].args|);
  }

  lemma {:induction false} DenoteArgsRankIrrelevant<V(!new), S(!new)>(
    g: Graph<V, S>, fs: map<string, seq<V> -> V>, rank: map<string, nat>, rank': map<string, nat>, w: string, n: nat)
    requires Settling(g, fs, rank) && Settling(g, fs, rank') && w in g.workers && n <= |g.workers[w].args|
    ensures DenoteArgs(g, fs, rank, w, n) == DenoteArgs(g, fs, rank', w, n)
    decreases rank[w], 0, n
  {
    if n > 0 {
      DenoteArgsRankIrrelevant(g, fs, rank, rank', w, n - 1);
      var a := g.workers[w].args[n - 1];
      if a.FromCell? && a.cell in g.workers {
        DenoteRankIrrelevant(g, fs, rank, rank', a.cell);
      }
    }
  }

  /** Worker `w` and the output it feeds hold the settled value. */
  ghost predicate Holds<V(!new), S(!new)>(g: Graph<V, S>, fs: map<string, seq<V> -> V>, rank: map<string, nat>, c: Cells<V, S>, w: string)
    requires Settling(g, fs, rank) && Covers(g, c) && w in g.workers
  {
    var d := Denote(g, fs, rank, w);
    && c.values[w] == d
    && (g.workers[w].output != "" ==> g.workers[w].output in c.outputs && c.outputs[g.workers[w].output] == d)
  }

  /** If the worker arguments among the first `n` hold settled values, that is what is read. */
  lemma {:induction false} ReadsSettled<V(!new), S(!new)>(
    g: Graph<V, S>, fs: map<string, seq<V> -> V>, rank: map<string, nat>, values: map<string, V>, w: string, n: nat)
    requires Settling(g, fs, rank) && g.workers.Keys <= values.Keys && w in g.workers && n <= |g.workers[w].args|
    requires forall u :: u in g.workers && rank[u] < rank[w] ==> values[u] == Denote(g, fs, rank, u)
    ensures ReadArgs(g, values, g.workers[w].args[..n]) == Just(DenoteArgs(g, fs, rank, w, n))
  {
    if n > 0 {
      var args := g.workers[w].args;
      ReadsSettled(g, fs, rank, values, w, n - 1);
      assert args[..n][..n - 1] == args[..n - 1] && args[..n][n - 1] == args[n - 1];
    }
  }
}
