/** Threads never wait: a ticket is dealt with in a bounded number of a thread's own steps. */
module ThreadProgress {
  import opened CellGraph
  import opened ThreadedScheduler
  import opened Wrappers

  /** How many steps of its own a thread takes at most until it has dealt with its ticket. */
  function Left<V, S>(g: Graph<V, S>, pc: Thread<V>): nat
    requires WellFormed(g, pc)
  {
    match pc
    case Idle => 0
    case Failed => 0
    case Drawn(w) => |g.workers[w].args| + 5
    case Reading(w, got) => |g.workers[w].args| - |got| + 4
    case Writing(_, _) => 3
    case Reporting(_, _) => 2
    case Leaving(_) => 1
  }

  predicate Done<V>(pc: Thread<V>) {
    pc.Idle? || pc.Failed?
  }

  /** Every step brings it nearer, whoever holds which lock. */
  lemma StepBringsNearer<V, S>(g: Graph<V, S>, flat: seq<string>, s: State<V, S>, t: nat)
    requires Runs(g, flat, s) && t < |s.threads| && !Done(s.threads[t])
    ensures Left(g, Step(g, flat, s, t).threads[t]) < Left(g, s.threads[t])
    ensures Done(Step(g, flat, s, t).threads[t]) || Left(g, Step(g, flat, s, t).threads[t]) > 0
  {
  }

  /** The steps of thread `t` among those from `i` to `j`. */
  function OwnSteps(sched: seq<nat>, t: nat, i: nat, j: nat): nat
    requires i <= j <= |sched|
    decreases j - i
  {
    if i == j then 0 else (if sched[i] == t then 1 else 0) + OwnSteps(sched, t, i + 1, j)
  }

  /** In every run, a thread that takes as many steps as it has left is done in between: it found the
      cell locked, failed, or executed the cell and released the lock. */
  lemma {:induction false} TicketsAreDealtWith<V, S>(
    g: Graph<V, S>, flat: seq<string>, run: seq<State<V, S>>, sched: seq<nat>, t: nat, i: nat, j: nat) returns (k: nat)
    requires IsRun(g, flat, run, sched) && i <= j <= |sched| && t < |run[i].threads|
    requires OwnSteps(sched, t, i, j) >= Left(g, run[i].threads[t])
    ensures i <= k <= j && t < |run[k].threads| && Done(run[k].threads[t])
    decreases j - i
  {
    if Done(run[i].threads[t]) {
      return i;
    }
    assert i < j;
    assert run[i + 1] == Step(g, flat, run[i], sched[i]);
    if sched[i] == t {
      StepBringsNearer(g, flat, run[i], t);
    }
    k := TicketsAreDealtWith(g, flat, run, sched, t, i + 1, j);
  }

  /** A cell that a thread is inside of is unlocked, or locked by another, once that thread has taken
      its steps. */
  lemma LocksAreReleased<V, S>(
    g: Graph<V, S>, flat: seq<string>, run: seq<State<V, S>>, sched: seq<nat>, w: string, i: nat, j: nat) returns (k: nat)
    requires IsRun(g, flat, run, sched) && LocksMatch(run[0]) && i <= j <= |sched| && w in run[i].shared.holder
    requires w in g.workers && run[i].shared.holder[w] < |run[i].threads|
    requires OwnSteps(sched, run[i].shared.holder[w], i, j) >= |g.workers[w].args| + 4
    ensures i <= k <= j && !(w in run[k].shared.holder && run[k].shared.holder[w] == run[i].shared.holder[w])
  {
    var t := run[i].shared.holder[w];
    MutualExclusion(g, flat, run, sched, i);
    k := TicketsAreDealtWith(g, flat, run, sched, t, i, j);
    MutualExclusion(g, flat, run, sched, k);
  }
}
