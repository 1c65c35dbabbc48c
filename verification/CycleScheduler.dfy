/** The single-threaded scheduler: one cycle executes every worker once, in the order in
    which the worker dictionary happens to be traversed. */
module CycleScheduler {
  import opened CellGraph
  import opened Wrappers

  ghost predicate Distinct(order: seq<string>) {
    forall i, j :: 0 <= i < j < |order| ==> order[i] != order[j]
  }

  /** A traversal of the worker dictionary: each worker exactly once. */
  ghost predicate Traverses<V, S>(g: Graph<V, S>, order: seq<string>) {
    Distinct(order) && forall w :: w in order <==> w in g.workers
  }

  class Runtime<V, S> {
    const workers: map<string, Worker<V>>
    const types: map<string, CellType<V, S>>
    const inputNames: map<string, string>
    var inputs: map<string, V>
    var externs: map<string, V>
    var values: map<string, V>
    var selfs: map<string, S>
    var outputs: map<string, V>

    constructor (workers: map<string, Worker<V>>, types: map<string, CellType<V, S>>, inputNames: map<string, string>,
                 inputs: map<string, V>, externs: map<string, V>, values: map<string, V>, selfs: map<string, S>)
      requires workers.Keys <= values.Keys && workers.Keys <= selfs.Keys
      ensures Valid() && Net() == Graph(workers, types, inputs, externs) && Snapshot() == Cells(values, selfs, map[])
      ensures this.inputNames == inputNames
    {
      this.workers, this.types, this.inputNames := workers, types, inputNames;
      this.inputs, this.externs := inputs, externs;
      this.values, this.selfs, this.outputs := values, selfs, map[];
    }

    function Net(): Graph<V, S>
      reads this
    {
      Graph(workers, types, inputs, externs)
    }

    function Snapshot(): Cells<V, S>
      reads this
    {
      Cells(values, selfs, outputs)
    }

    ghost predicate Valid()
      reads this
    {
      Covers(Net(), Snapshot())
    }

    /** Hosts address inputs by their external name, which maps to the name of the cell. */
    method SetInput(name: string, v: V) returns (ok: bool)
      requires Valid()
      modifies this`inputs
      ensures Valid() && ok == (name in inputNames)
      ensures inputs == if ok then old(inputs)[inputNames[name] := v] else old(inputs)
    {
      ok := name in inputNames;
      if ok {
        inputs := inputs[inputNames[name] := v];
      }
    }

    /** Read the actual arguments of `w`, resolving each name. */
    method CollectArgs(w: string) returns (args: Maybe<seq<V>>)
      requires Valid() && w in workers
      ensures args == ReadArgs(Net(), values, workers[w].args)
    {
      var infos := workers[w].args;
      var got: seq<V> := [];
      var i := 0;
      while i < |infos|
        invariant 0 <= i <= |infos|
        invariant ReadArgs(Net(), values, infos[..i]) == Just(got)
      {
        assert infos[..i + 1][..i] == infos[..i];
        var a: Maybe<V> := Nothing;
        match infos[i] {
          case FromCell(name) =>
            if name in workers {
              a := Just(values[name]);
            } else if name in inputs {
              a := Just(inputs[name]);
            } else if name in externs {
              a := Just(externs[name]);
            }
          case Constant(v) =>
            a := Just(v);
        }
        if a.Nothing? {
          MissingStays(Net(), values, infos, i + 1);
          return Nothing;
        }
        got := got + [a.value];
        i := i + 1;
      }
      assert infos[..i] == infos;
      return Just(got);
    }

    method RunWorker(w: string) returns (failure: Maybe<Failure>)
      requires Valid() && w in workers
      modifies this`values, this`selfs, this`outputs
      ensures Valid()
      ensures Ran(Snapshot(), failure) == RunCell(Net(), old(Snapshot()), w)
    {
      var wk := workers[w];
      if wk.typeName in types && |wk.args| != types[wk.typeName].arity {
        return Just(ArityMismatch(w));
      }
      var args := CollectArgs(w);
      if args.Nothing? {
        return Just(InputNotFound(w));
      }
      if wk.typeName !in types {
        return Just(CellNotFound(w));
      }
      var (ending, self) := types[wk.typeName].body(args.value, selfs[w]);
      selfs := selfs[w := self];
      if ending.Threw? {
        return Just(BodyThrew(w));
      }
      if ending.Returned? {
        values := values[w := ending.value];
        if wk.output != "" {
          outputs := outputs[wk.output := ending.value];
        }
      }
      return Nothing;
    }

    /** One cycle; `order` is the traversal order of the worker dictionary. */
    method RunCycle(order: seq<string>) returns (failure: Maybe<Failure>)
      requires Valid() && Traverses(Net(), order)
      modifies this`values, this`selfs, this`outputs
      ensures Valid()
      ensures Ran(Snapshot(), failure) == RunCells(Net(), order, old(Snapshot()))
    {
      var i := 0;
      while i < |order|
        invariant 0 <= i <= |order| && Valid()
        invariant Ran(Snapshot(), Nothing) == RunCells(Net(), order[..i], old(Snapshot()))
      {
        assert order[..i + 1][..i] == order[..i];
        failure := RunWorker(order[i]);
        if failure.Just? {
          FailureStays(Net(), order, i + 1, old(Snapshot()));
          return;
        }
        i := i + 1;
      }
      assert order[..i] == order;
      return Nothing;
    }
  }

  lemma {:induction false} MissingStays<V, S>(g: Graph<V, S>, values: map<string, V>, args: seq<Arg<V>>, n: nat)
    requires g.workers.Keys <= values.Keys && n <= |args| && ReadArgs(g, values, args[..n]).Nothing?
    ensures ReadArgs(g, values, args).Nothing?
    decreases |args| - n
  {
    if n < |args| {
      assert args[..n + 1][..n] == args[..n];
      MissingStays(g, values, args, n + 1);
    } else {
      assert args[..n] == args;
    }
  }

  /** A cycle stops at its first failure: the workers after it are not executed. */
  lemma {:induction false} FailureStays<V, S>(g: Graph<V, S>, order: seq<string>, n: nat, c: Cells<V, S>)
    requires Covers(g, c) && (forall i :: 0 <= i < |order| ==> order[i] in g.workers) && n <= |order|
    requires RunCells(g, order[..n], c).failure.Just?
    ensures RunCells(g, order, c) == RunCells(g, order[..n], c)
    decreases |order| - n
  {
    if n < |order| {
      assert order[..n + 1][..n] == order[..n];
      FailureStays(g, order, n + 1, c);
    } else {
      assert order[..n] == order;
    }
  }

  // ------------------------------------------------------------------ convergence

  /** All workers of rank at most `k`, and the outputs they feed, hold settled values. */
  ghost predicate SettledUpTo<V(!new), S(!new)>(g: Graph<V, S>, fs: map<string, seq<V> -> V>, rank: map<string, nat>, c: Cells<V, S>, k: nat)
    requires Settling(g, fs, rank) && Covers(g, c)
  {
    forall w :: w in g.workers && rank[w] <= k ==> Holds(g, fs, rank, c, w)
  }

  /** Executing a worker whose upstream is settled settles it, and touches nobody else. */
  lemma SettlesOne<V(!new), S(!new)>(g: Graph<V, S>, fs: map<string, seq<V> -> V>, rank: map<string, nat>, c: Cells<V, S>, w: string)
    requires Settling(g, fs, rank) && Covers(g, c) && w in g.workers
    ensures var r := RunCell(g, c, w);
      && r.failure.Nothing? && Covers(g, r.cells)
      && (forall u :: u in g.workers && u != w && Holds(g, fs, rank, c, u) ==> Holds(g, fs, rank, r.cells, u))
      && ((forall u :: u in g.workers && rank[u] < rank[w] ==> c.values[u] == Denote(g, fs, rank, u))
            ==> Holds(g, fs, rank, r.cells, w))
  {
    var wk := g.workers[w];
    ReadsSomething(g, c.values, wk.args);
    var args := ReadArgs(g, c.values, wk.args).value;
    assert g.types[wk.typeName].body(args, c.selfs[w]).0 == Returned(fs[wk.typeName](args));
    if forall u :: u in g.workers && rank[u] < rank[w] ==> c.values[u] == Denote(g, fs, rank, u) {
      ReadsSettled(g, fs, rank, c.values, w, |wk.args|);
      assert wk.args[..|wk.args|] == wk.args;
    }
  }

  lemma {:induction false} ReadsSomething<V, S>(g: Graph<V, S>, values: map<string, V>, args: seq<Arg<V>>)
    requires g.workers.Keys <= values.Keys
    requires forall i :: 0 <= i < |args| && args[i].FromCell? ==>
               args[i].cell in g.workers || args[i].cell in g.inputs || args[i].cell in g.externs
    ensures ReadArgs(g, values, args).Just?
  {
    if args != [] {
      ReadsSomething(g, values, args[..|args| - 1]);
    }
  }

  /** Through a cycle: ranks up to `k` stay settled, and the executed workers of rank `k + 1` settle. */
  lemma {:induction false} CycleProgress<V(!new), S(!new)>(
    g: Graph<V, S>, fs: map<string, seq<V> -> V>, rank: map<string, nat>, order: seq<string>, c: Cells<V, S>, k: nat)
    requires Settling(g, fs, rank) && Covers(g, c) && Distinct(order)
    requires forall i :: 0 <= i < |order| ==> order[i] in g.workers
    requires SettledUpTo(g, fs, rank, c, k)
    ensures var r := RunCells(g, order, c);
      && r.failure.Nothing? && SettledUpTo(g, fs, rank, r.cells, k)
      && forall w :: w in order && rank[w] == k + 1 ==> Holds(g, fs, rank, r.cells, w)
  {
    if order != [] {
      var front, w := order[..|order| - 1], order[|order| - 1];
      CycleProgress(g, fs, rank, front, c, k);
      var mid := RunCells(g, front, c).cells;
      SettlesOne(g, fs, rank, mid, w);
      assert rank[w] <= k + 1 ==> forall u :: u in g.workers && rank[u] < rank[w] ==> Holds(g, fs, rank, mid, u);
      assert forall u :: u in order ==> u in front || u == w;
    }
  }

  /** The cells after `cycles`, each with a traversal order of its own. */
  function RunCycles<V, S>(g: Graph<V, S>, cycles: seq<seq<string>>, c: Cells<V, S>): (r: Ran<V, S>)
    requires Covers(g, c) && forall i, j :: 0 <= i < |cycles| && 0 <= j < |cycles[i]| ==> cycles[i][j] in g.workers
    ensures Covers(g, r.cells)
  {
    if cycles == [] then Ran(c, Nothing)
    else
      var front := RunCycles(g, cycles[..|cycles| - 1], c);
      if front.failure.Just? then front else RunCells(g, cycles[|cycles| - 1], front.cells)
  }

  /** Whatever the initial values and the traversal orders, `k` cycles settle every worker
      of rank at most `k`, together with the output it feeds. */
  lemma {:induction false} Convergence<V(!new), S(!new)>(
    g: Graph<V, S>, fs: map<string, seq<V> -> V>, rank: map<string, nat>, cycles: seq<seq<string>>, c: Cells<V, S>)
    requires Settling(g, fs, rank) && Covers(g, c)
    requires forall i :: 0 <= i < |cycles| ==> Traverses(g, cycles[i])
    ensures forall i, j :: 0 <= i < |cycles| && 0 <= j < |cycles[i]| ==> cycles[i][j] in g.workers
    ensures RunCycles(g, cycles, c).failure.Nothing?
    ensures SettledUpTo(g, fs, rank, RunCycles(g, cycles, c).cells, |cycles|)
  {
    forall i, j | 0 <= i < |cycles| && 0 <= j < |cycles[i]| ensures cycles[i][j] in g.workers {
      assert Traverses(g, cycles[i]) && cycles[i][j] in cycles[i];
    }
    if cycles != [] {
      var n := |cycles| - 1;
      Convergence(g, fs, rank, cycles[..n], c);
      CycleProgress(g, fs, rank, cycles[n], RunCycles(g, cycles[..n], c).cells, n);
      assert Traverses(g, cycles[n]);
    }
  }

  /** Once every rank is settled, further cycles change neither values nor outputs. */
  lemma {:induction false} SettledIsStable<V(!new), S(!new)>(
    g: Graph<V, S>, fs: map<string, seq<V> -> V>, rank: map<string, nat>, order: seq<string>, c: Cells<V, S>)
    requires Settling(g, fs, rank) && Covers(g, c) && (forall i :: 0 <= i < |order| ==> order[i] in g.workers)
    requires forall w :: w in g.workers ==> Holds(g, fs, rank, c, w)
    ensures var r := RunCells(g, order, c);
      r.failure.Nothing? && r.cells.values == c.values && r.cells.outputs == c.outputs
  {
    if order != [] {
      var w := order[|order| - 1];
      SettledIsStable(g, fs, rank, order[..|order| - 1], c);
      var mid := RunCells(g, order[..|order| - 1], c).cells;
      SettlesOne(g, fs, rank, mid, w);
      assert forall u :: u in g.workers ==> Holds(g, fs, rank, c, u) ==> Holds(g, fs, rank, mid, u);
      var r := RunCell(g, mid, w).cells;
      assert Holds(g, fs, rank, c, w) && Holds(g, fs, rank, r, w);
      assert r.values == mid.values[w := r.values[w]] == mid.values;
      assert r.outputs == mid.outputs;
    }
  }

  /** A traversal that happens to be topological settles the whole graph in one cycle. */
  lemma {:induction false} TopologicalOrderSettlesAtOnce<V(!new), S(!new)>(
    g: Graph<V, S>, fs: map<string, seq<V> -> V>, rank: map<string, nat>, order: seq<string>, c: Cells<V, S>)
    requires Settling(g, fs, rank) && Covers(g, c) && Distinct(order)
    requires forall i :: 0 <= i < |order| ==> order[i] in g.workers
    requires forall i, u :: 0 <= i < |order| && u in g.workers && rank[u] < rank[order[i]] ==> u in order[..i]
    ensures var r := RunCells(g, order, c);
      r.failure.Nothing? && forall w :: w in order ==> Holds(g, fs, rank, r.cells, w)
  {
    if order != [] {
      var n := |order| - 1;
      var front, w := order[..n], order[n];
      forall i, u | 0 <= i < n && u in g.workers && rank[u] < rank[front[i]] ensures u in front[..i] {
        assert front[..i] == order[..i];
      }
      TopologicalOrderSettlesAtOnce(g, fs, rank, front, c);
      SettlesOne(g, fs, rank, RunCells(g, front, c).cells, w);
      assert forall u :: u in g.workers && rank[u] < rank[order[n]] ==> u in order[..n];
      assert forall u :: u in order ==> u in front || u == w;
    }
  }
}
