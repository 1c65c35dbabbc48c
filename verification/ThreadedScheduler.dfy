/** The multi-threaded scheduler as a state machine. A schedule is the sequence of threads that take
    the successive steps. */
module ThreadedScheduler {
  import opened CellGraph
  import opened Wrappers

  /** Where a thread stands. It draws a ticket from a shared counter, tries the lock of the cell the
      ticket names, and, when it got it, reads the arguments one by one, runs the body, stores the
      value, stores the output and unlocks. All but the first two hold the lock of `cell`. */
  datatype Thread<+V> =
    | Idle
    | Drawn(cell: string)
    | Reading(cell: string, got: seq<V>)
    | Writing(cell: string, v: V)
    | Reporting(cell: string, v: V)
    | Leaving(cell: string)
    | Failed

  /** What the threads share: the cells, the ticket counter, who holds which lock, the failure flag. */
  datatype Shared<+V, +S> = Shared(cells: Cells<V, S>, ticket: nat, holder: map<string, nat>, failure: bool)

  datatype State<+V, +S> = State(shared: Shared<V, S>, threads: seq<Thread<V>>)

  ghost predicate WellFormed<V, S>(g: Graph<V, S>, pc: Thread<V>) {
    match pc
    case Idle => true
    case Failed => true
    case Reading(w, got) => w in g.workers && |got| <= |g.workers[w].args|
    case other => other.cell in g.workers
  }

  ghost predicate Fits<V, S>(g: Graph<V, S>, flat: seq<string>, m: Shared<V, S>) {
    && Covers(g, m.cells) && |flat| > 0
    && forall i :: 0 <= i < |flat| ==> flat[i] in g.workers
  }

  ghost predicate Runs<V, S>(g: Graph<V, S>, flat: seq<string>, s: State<V, S>) {
    Fits(g, flat, s.shared) && forall t :: 0 <= t < |s.threads| ==> WellFormed(g, s.threads[t])
  }

  /** A body or a lookup threw: the lock is released on the way out, the failure is recorded. */
  function Fail<V, S>(m: Shared<V, S>, w: string): (Shared<V, S>, Thread<V>) {
    (m.(holder := m.holder - {w}, failure := true), Failed)
  }

  /** The body runs once all arguments have been read. */
  function RunBody<V, S>(g: Graph<V, S>, m: Shared<V, S>, w: string, got: seq<V>): (Shared<V, S>, Thread<V>)
    requires w in g.workers && w in m.cells.selfs
  {
    var wk := g.workers[w];
    if wk.typeName !in g.types then Fail(m, w)
    else
      var (ending, self) := g.types[wk.typeName].body(got, m.cells.selfs[w]);
      var m' := m.(cells := m.cells.(selfs := m.cells.selfs[w := self]));
      match ending
      case Returned(v) => (m', Writing(w, v))
      case NoReturn => (m', Leaving(w))
      case Threw => Fail(m', w)
  }

  /** The next step of a thread that stands at `pc`. */
  function Move<V, S>(g: Graph<V, S>, flat: seq<string>, m: Shared<V, S>, t: nat, pc: Thread<V>): (r: (Shared<V, S>, Thread<V>))
    requires Fits(g, flat, m) && WellFormed(g, pc)
    ensures Fits(g, flat, r.0) && WellFormed(g, r.1)
  {
    match pc
    case Idle =>
      if m.failure then (m, pc) else (m.(ticket := m.ticket + 1), Drawn(flat[m.ticket % |flat|]))
    case Drawn(w) =>
      if w in m.holder then (m, Idle)
      else
        var wk := g.workers[w];
        if wk.typeName in g.types && |wk.args| != g.types[wk.typeName].arity then Fail(m, w)
        else (m.(holder := m.holder[w := t]), Reading(w, []))
    case Reading(w, got) =>
      if |got| == |g.workers[w].args| then RunBody(g, m, w, got)
      else
        var v := ArgValue(g, m.cells.values, g.workers[w].args[|got|]);
        if v.Nothing? then Fail(m, w) else (m, Reading(w, got + [v.value]))
    case Writing(w, v) =>
      (m.(cells := m.cells.(values := m.cells.values[w := v])), Reporting(w, v))
    case Reporting(w, v) =>
      var out := g.workers[w].output;
      (if out == "" then m else m.(cells := m.cells.(outputs := m.cells.outputs[out := v])), Leaving(w))
    case Leaving(w) => (m.(holder := m.holder - {w}), Idle)
    case Failed => (m, pc)
  }

  /** The next step of thread `t`. */
  function Step<V, S>(g: Graph<V, S>, flat: seq<string>, s: State<V, S>, t: nat): (s': State<V, S>)
    requires Runs(g, flat, s) && t < |s.threads|
    ensures Runs(g, flat, s') && |s'.threads| == |s.threads|
  {
    var (m, pc) := Move(g, flat, s.shared, t, s.threads[t]);
    State(m, s.threads[t := pc])
  }

  /** `run` lists the successive states when the threads of `sched` take their steps in turn. */
  ghost predicate IsRun<V, S>(g: Graph<V, S>, flat: seq<string>, run: seq<State<V, S>>, sched: seq<nat>) {
    && |run| == |sched| + 1
    && (forall i :: 0 <= i < |run| ==> Runs(g, flat, run[i]))
    && forall i {:trigger sched[i]} :: 0 <= i < |sched| ==> sched[i] < |run[i].threads| && run[i + 1] == Step(g, flat, run[i], sched[i])
  }

  // ------------------------------------------------------------------ mutual exclusion

  /** The cell whose lock the thread holds. */
  function Inside<V>(pc: Thread<V>): Maybe<string> {
    match pc
    case Idle => Nothing
    case Drawn(_) => Nothing
    case Failed => Nothing
    case other => Just(other.cell)
  }

  /** `holder` records exactly which thread is inside which cell. */
  ghost predicate LocksMatch<V, S>(s: State<V, S>) {
    && (forall t :: 0 <= t < |s.threads| && Inside(s.threads[t]).Just? ==>
          Inside(s.threads[t]).value in s.shared.holder && s.shared.holder[Inside(s.threads[t]).value] == t)
    && (forall w :: w in s.shared.holder ==>
          s.shared.holder[w] < |s.threads| && Inside(s.threads[s.shared.holder[w]]) == Just(w))
  }

  /** A move changes the lock table only where the thread is: it enters a free cell, leaves its
      cell, or stays where it was. */
  lemma MoveEffect<V, S>(g: Graph<V, S>, flat: seq<string>, m: Shared<V, S>, t: nat, pc: Thread<V>)
    requires Fits(g, flat, m) && WellFormed(g, pc)
    ensures var (m', pc') := Move(g, flat, m, t, pc);
      match (Inside(pc), Inside(pc'))
      case (Nothing, Nothing) => m'.holder == m.holder
      case (Nothing, Just(w)) => w !in m.holder && m'.holder == m.holder[w := t]
      case (Just(w), Nothing) => m'.holder == m.holder - {w}
      case (Just(w), Just(w')) => w == w' && m'.holder == m.holder
  {
    if pc.Drawn? && pc.cell !in m.holder {
      assert m.holder - {pc.cell} == m.holder;
    }
  }

  lemma StepKeepsLocks<V, S>(g: Graph<V, S>, flat: seq<string>, s: State<V, S>, t: nat)
    requires Runs(g, flat, s) && t < |s.threads| && LocksMatch(s)
    ensures LocksMatch(Step(g, flat, s, t))
  {
    MoveEffect(g, flat, s.shared, t, s.threads[t]);
  }

  /** At any moment of any run at most one thread is inside a given cell. */
  lemma {:induction false} MutualExclusion<V, S>(g: Graph<V, S>, flat: seq<string>, run: seq<State<V, S>>, sched: seq<nat>, i: nat)
    requires IsRun(g, flat, run, sched) && LocksMatch(run[0]) && i < |run|
    ensures LocksMatch(run[i])
    ensures forall t, u :: 0 <= t < u < |run[i].threads| && Inside(run[i].threads[t]).Just? ==>
              Inside(run[i].threads[t]) != Inside(run[i].threads[u])
  {
    if i > 0 {
      MutualExclusion(g, flat, run, sched, i - 1);
      StepKeepsLocks(g, flat, run[i - 1], sched[i - 1]);
    }
  }

  // ------------------------------------------------------------------ convergence

  /** A thread at `pc` that is executing `w` has seen settled arguments only. */
  ghost predicate OnTrack<V(!new), S(!new)>(g: Graph<V, S>, fs: map<string, seq<V> -> V>, rank: map<string, nat>, c: Cells<V, S>, w: string, pc: Thread<V>)
    requires Settling(g, fs, rank) && Covers(g, c) && w in g.workers
  {
    Inside(pc) == Just(w) ==>
      match pc
      case Reading(_, got) => |got| <= |g.workers[w].args| && got == DenoteArgs(g, fs, rank, w, |got|)
      case Writing(_, v) => v == Denote(g, fs, rank, w)
      case Reporting(_, v) => v == Denote(g, fs, rank, w) && c.values[w] == v
      case _ => Holds(g, fs, rank, c, w)
  }

  ghost predicate InFlightOk<V(!new), S(!new)>(g: Graph<V, S>, fs: map<string, seq<V> -> V>, rank: map<string, nat>, s: State<V, S>, w: string)
    requires Settling(g, fs, rank) && Covers(g, s.shared.cells) && w in g.workers
  {
    forall t :: 0 <= t < |s.threads| ==> OnTrack(g, fs, rank, s.shared.cells, w, s.threads[t])
  }

  /** `w` holds its settled value and no execution in flight can undo that. */
  ghost predicate Settled<V(!new), S(!new)>(g: Graph<V, S>, fs: map<string, seq<V> -> V>, rank: map<string, nat>, s: State<V, S>, w: string)
    requires Settling(g, fs, rank) && Covers(g, s.shared.cells) && w in g.workers
  {
    InFlightOk(g, fs, rank, s, w) && Holds(g, fs, rank, s.shared.cells, w)
  }

  ghost predicate SettledBelow<V(!new), S(!new)>(g: Graph<V, S>, fs: map<string, seq<V> -> V>, rank: map<string, nat>, s: State<V, S>, k: nat)
    requires Settling(g, fs, rank) && Covers(g, s.shared.cells)
  {
    forall w :: w in g.workers && rank[w] < k ==> Settled(g, fs, rank, s, w)
  }

  ghost predicate Good<V(!new), S(!new)>(g: Graph<V, S>, fs: map<string, seq<V> -> V>, rank: map<string, nat>, flat: seq<string>, s: State<V, S>) {
    Settling(g, fs, rank) && Runs(g, flat, s) && LocksMatch(s)
  }

  /** A thread not inside `w` touches neither the value of `w` nor the output it feeds. */
  lemma MoveElsewhere<V(!new), S(!new)>(
    g: Graph<V, S>, fs: map<string, seq<V> -> V>, rank: map<string, nat>, flat: seq<string>, m: Shared<V, S>, t: nat, pc: Thread<V>, w: string)
    requires Settling(g, fs, rank) && Fits(g, flat, m) && WellFormed(g, pc) && w in g.workers && Inside(pc) != Just(w)
    ensures var c := Move(g, flat, m, t, pc).0.cells;
      c.values[w] == m.cells.values[w] && (Holds(g, fs, rank, m.cells, w) ==> Holds(g, fs, rank, c, w))
  {
  }

  /** A thread that began `w` after its upstream settled stays on track and leaves it settled. */
  lemma MoveInside<V(!new), S(!new)>(
    g: Graph<V, S>, fs: map<string, seq<V> -> V>, rank: map<string, nat>, flat: seq<string>, m: Shared<V, S>, t: nat, pc: Thread<V>, w: string)
    requires Settling(g, fs, rank) && Fits(g, flat, m) && WellFormed(g, pc) && w in g.workers && Inside(pc) == Just(w)
    requires OnTrack(g, fs, rank, m.cells, w, pc)
    requires forall u :: u in g.workers && rank[u] < rank[w] ==> m.cells.values[u] == Denote(g, fs, rank, u)
    ensures var (m', pc') := Move(g, flat, m, t, pc);
      && OnTrack(g, fs, rank, m'.cells, w, pc')
      && (Holds(g, fs, rank, m.cells, w) || Inside(pc') != Just(w) ==> Holds(g, fs, rank, m'.cells, w))
  {
    if pc.Reading? {
      if |pc.got| == |g.workers[w].args| {
        var ty := g.workers[w].typeName;
        assert g.types[ty].body(pc.got, m.cells.selfs[w]).0 == Returned(fs[ty](pc.got));
      } else {
        var a := g.workers[w].args[|pc.got|];
        assert a.FromCell? ==> a.cell in g.workers || a.cell in g.inputs || a.cell in g.externs;
      }
    }
  }

  lemma StepOnTrack<V(!new), S(!new)>(
    g: Graph<V, S>, fs: map<string, seq<V> -> V>, rank: map<string, nat>, flat: seq<string>, s: State<V, S>, w: string, t: nat)
    requires Good(g, fs, rank, flat, s) && w in g.workers && t < |s.threads|
    requires SettledBelow(g, fs, rank, s, rank[w]) && InFlightOk(g, fs, rank, s, w)
    ensures var s' := Step(g, flat, s, t);
      && InFlightOk(g, fs, rank, s', w)
      && (Holds(g, fs, rank, s.shared.cells, w) ==> Holds(g, fs, rank, s'.shared.cells, w))
      && (w in s.shared.holder && w !in s'.shared.holder ==> Holds(g, fs, rank, s'.shared.cells, w))
  {
    var s' := Step(g, flat, s, t);
    var pc := s.threads[t];
    MoveEffect(g, flat, s.shared, t, pc);
    assert OnTrack(g, fs, rank, s.shared.cells, w, pc);
    if Inside(pc) == Just(w) {
      assert forall u :: u in g.workers && rank[u] < rank[w] ==> Settled(g, fs, rank, s, u);
      MoveInside(g, fs, rank, flat, s.shared, t, pc, w);
    } else {
      MoveElsewhere(g, fs, rank, flat, s.shared, t, pc, w);
    }
    forall u | 0 <= u < |s'.threads| ensures OnTrack(g, fs, rank, s'.shared.cells, w, s'.threads[u]) {
      assert OnTrack(g, fs, rank, s.shared.cells, w, s.threads[u]);
    }
  }

  /** What is settled below a rank stays settled, step by step. */
  lemma StepKeepsSettled<V(!new), S(!new)>(
    g: Graph<V, S>, fs: map<string, seq<V> -> V>, rank: map<string, nat>, flat: seq<string>, s: State<V, S>, t: nat, k: nat)
    requires Good(g, fs, rank, flat, s) && t < |s.threads| && SettledBelow(g, fs, rank, s, k)
    ensures Good(g, fs, rank, flat, Step(g, flat, s, t)) && SettledBelow(g, fs, rank, Step(g, flat, s, t), k)
  {
    StepKeepsLocks(g, flat, s, t);
    forall w | w in g.workers && rank[w] < k ensures Settled(g, fs, rank, Step(g, flat, s, t), w) {
      assert Settled(g, fs, rank, s, w);
      assert SettledBelow(g, fs, rank, s, rank[w]);
      StepOnTrack(g, fs, rank, flat, s, w, t);
    }
  }

  /** No interleaving, and no execution already in flight, undoes a settled value. */
  lemma {:induction false} SettledForever<V(!new), S(!new)>(
    g: Graph<V, S>, fs: map<string, seq<V> -> V>, rank: map<string, nat>, flat: seq<string>, run: seq<State<V, S>>, sched: seq<nat>, i: nat, j: nat, k: nat)
    requires IsRun(g, flat, run, sched) && i <= j < |run|
    requires Good(g, fs, rank, flat, run[i]) && SettledBelow(g, fs, rank, run[i], k)
    ensures Good(g, fs, rank, flat, run[j]) && SettledBelow(g, fs, rank, run[j], k)
  {
    if i < j {
      SettledForever(g, fs, rank, flat, run, sched, i, j - 1, k);
      StepKeepsSettled(g, fs, rank, flat, run[j - 1], sched[j - 1], k);
    }
  }

  /** Between the moments `lo` and `hi` the lock of `w` is seen free, then taken, then free
      again: an execution of `w` started and finished there. */
  ghost predicate RunsStartToFinish<V, S>(run: seq<State<V, S>>, lo: nat, hi: nat, w: string)
    requires hi < |run|
  {
    exists i, m, j :: lo <= i <= m <= j <= hi &&
      w !in run[i].shared.holder && w in run[m].shared.holder && w !in run[j].shared.holder
  }

  /** Where `w` stands at a moment after its upstream settled. `stage` counts what was seen so
      far: 0 nothing, 1 the lock free, 2 then taken, 3 then free again. */
  ghost predicate Reached<V(!new), S(!new)>(g: Graph<V, S>, fs: map<string, seq<V> -> V>, rank: map<string, nat>, flat: seq<string>, s: State<V, S>, w: string, stage: nat) {
    && Good(g, fs, rank, flat, s) && w in g.workers && SettledBelow(g, fs, rank, s, rank[w])
    && (stage > 0 ==>
      && Reached(g, fs, rank, flat, s, w, stage - 1) && InFlightOk(g, fs, rank, s, w)
      && (stage == 2 && w !in s.shared.holder ==> Holds(g, fs, rank, s.shared.cells, w))
      && (stage == 3 ==> Holds(g, fs, rank, s.shared.cells, w)))
  }

  lemma {:induction false} StepReached<V(!new), S(!new)>(
    g: Graph<V, S>, fs: map<string, seq<V> -> V>, rank: map<string, nat>, flat: seq<string>, s: State<V, S>, w: string, t: nat, stage: nat)
    requires t < |s.threads| && Reached(g, fs, rank, flat, s, w, stage)
    ensures Reached(g, fs, rank, flat, Step(g, flat, s, t), w, stage)
  {
    StepKeepsSettled(g, fs, rank, flat, s, t, rank[w]);
    if stage > 0 {
      StepReached(g, fs, rank, flat, s, w, t, stage - 1);
      StepOnTrack(g, fs, rank, flat, s, w, t);
    }
  }

  lemma {:induction false} StaysReached<V(!new), S(!new)>(
    g: Graph<V, S>, fs: map<string, seq<V> -> V>, rank: map<string, nat>, flat: seq<string>, run: seq<State<V, S>>, sched: seq<nat>, w: string, i: nat, j: nat, stage: nat)
    requires IsRun(g, flat, run, sched) && i <= j < |run| && Reached(g, fs, rank, flat, run[i], w, stage)
    ensures Reached(g, fs, rank, flat, run[j], w, stage)
    decreases j
  {
    if i < j {
      StaysReached(g, fs, rank, flat, run, sched, w, i, j - 1, stage);
      assert run[j] == Step(g, flat, run[j - 1], sched[j - 1]);
      StepReached(g, fs, rank, flat, run[j - 1], w, sched[j - 1], stage);
    }
  }

  /** A window in which `w` is executed start to finish settles it, if its upstream was settled. */
  lemma WindowSettles<V(!new), S(!new)>(
    g: Graph<V, S>, fs: map<string, seq<V> -> V>, rank: map<string, nat>, flat: seq<string>, run: seq<State<V, S>>, sched: seq<nat>, w: string, lo: nat, hi: nat)
    requires IsRun(g, flat, run, sched) && lo <= hi < |run| && Reached(g, fs, rank, flat, run[lo], w, 0)
    requires RunsStartToFinish(run, lo, hi, w)
    ensures Settled(g, fs, rank, run[hi], w)
  {
    var i, m, j :| lo <= i <= m <= j <= hi &&
      w !in run[i].shared.holder && w in run[m].shared.holder && w !in run[j].shared.holder;
    NextStage(g, fs, rank, flat, run, sched, w, lo, i, 0);
    NextStage(g, fs, rank, flat, run, sched, w, i, m, 1);
    NextStage(g, fs, rank, flat, run, sched, w, m, j, 2);
    StaysReached(g, fs, rank, flat, run, sched, w, j, hi, 3);
    ReachedMeansSettled(g, fs, rank, flat, run[hi], w);
  }

  /** The lock is seen to be taken after the first stage, and free after the others. */
  lemma NextStage<V(!new), S(!new)>(
    g: Graph<V, S>, fs: map<string, seq<V> -> V>, rank: map<string, nat>, flat: seq<string>, run: seq<State<V, S>>, sched: seq<nat>, w: string, i: nat, j: nat, stage: nat)
    requires IsRun(g, flat, run, sched) && i <= j < |run| && stage <= 2 && Reached(g, fs, rank, flat, run[i], w, stage)
    requires w in run[j].shared.holder <==> stage == 1
    ensures Reached(g, fs, rank, flat, run[j], w, stage + 1)
  {
    StaysReached(g, fs, rank, flat, run, sched, w, i, j, stage);
    if stage == 0 {
      NobodyInside(g, fs, rank, flat, run[j], w);
    }
  }

  lemma ReachedMeansSettled<V(!new), S(!new)>(
    g: Graph<V, S>, fs: map<string, seq<V> -> V>, rank: map<string, nat>, flat: seq<string>, s: State<V, S>, w: string)
    requires Reached(g, fs, rank, flat, s, w, 3)
    ensures Settled(g, fs, rank, s, w)
  {
  }

  lemma NobodyInside<V(!new), S(!new)>(
    g: Graph<V, S>, fs: map<string, seq<V> -> V>, rank: map<string, nat>, flat: seq<string>, s: State<V, S>, w: string)
    requires Good(g, fs, rank, flat, s) && w in g.workers && w !in s.shared.holder
    ensures InFlightOk(g, fs, rank, s, w)
  {
  }

  /** `bounds` cuts an initial part of the run into successive windows. */
  ghost predicate Windows(bounds: seq<nat>, length: nat) {
    && |bounds| > 0
    && (forall n :: 0 <= n < |bounds| ==> bounds[n] < length)
    && forall m, n :: 0 <= m <= n < |bounds| ==> bounds[m] <= bounds[n]
  }

  /** Every worker is executed start to finish in each window. */
  ghost predicate EveryCellEveryWindow<V, S>(g: Graph<V, S>, run: seq<State<V, S>>, bounds: seq<nat>)
    requires Windows(bounds, |run|)
  {
    forall n, w :: 0 < n < |bounds| && w in g.workers ==> RunsStartToFinish(run, bounds[n - 1], bounds[n], w)
  }

  lemma OneMoreRank<V(!new), S(!new)>(
    g: Graph<V, S>, fs: map<string, seq<V> -> V>, rank: map<string, nat>, flat: seq<string>, run: seq<State<V, S>>, sched: seq<nat>, lo: nat, hi: nat, k: nat)
    requires IsRun(g, flat, run, sched) && lo <= hi < |run|
    requires Good(g, fs, rank, flat, run[lo]) && SettledBelow(g, fs, rank, run[lo], k)
    requires forall w :: w in g.workers ==> RunsStartToFinish(run, lo, hi, w)
    ensures Good(g, fs, rank, flat, run[hi]) && SettledBelow(g, fs, rank, run[hi], k + 1)
  {
    SettledForever(g, fs, rank, flat, run, sched, lo, hi, k);
    forall w | w in g.workers && rank[w] == k ensures Settled(g, fs, rank, run[hi], w) {
      WindowSettles(g, fs, rank, flat, run, sched, w, lo, hi);
    }
  }

  lemma {:induction false} WindowsSettle<V(!new), S(!new)>(
    g: Graph<V, S>, fs: map<string, seq<V> -> V>, rank: map<string, nat>, flat: seq<string>, run: seq<State<V, S>>, sched: seq<nat>, bounds: seq<nat>, n: nat)
    requires IsRun(g, flat, run, sched) && Good(g, fs, rank, flat, run[0])
    requires Windows(bounds, |run|) && EveryCellEveryWindow(g, run, bounds) && n < |bounds|
    ensures bounds[n] < |run| && Good(g, fs, rank, flat, run[bounds[n]]) && SettledBelow(g, fs, rank, run[bounds[n]], n + 1)
  {
    if n == 0 {
      SettledForever(g, fs, rank, flat, run, sched, 0, bounds[0], 1);
    } else {
      WindowsSettle(g, fs, rank, flat, run, sched, bounds, n - 1);
      OneMoreRank(g, fs, rank, flat, run, sched, bounds[n - 1], bounds[n], n);
    }
  }

  /** Convergence: after D windows in each of which every worker is executed start to finish,
      under any interleaving of any number of threads and from any state, including one with
      executions in flight, all workers of rank at most D hold their settled values, and they
      keep them at every later moment `i` of the run. */
  lemma ThreadedConvergence<V(!new), S(!new)>(
    g: Graph<V, S>, fs: map<string, seq<V> -> V>, rank: map<string, nat>, flat: seq<string>, run: seq<State<V, S>>, sched: seq<nat>, bounds: seq<nat>, i: nat)
    requires IsRun(g, flat, run, sched) && Good(g, fs, rank, flat, run[0])
    requires Windows(bounds, |run|) && EveryCellEveryWindow(g, run, bounds)
    requires bounds[|bounds| - 1] <= i < |run|
    ensures forall w :: w in g.workers && rank[w] <= |bounds| - 1 ==> Holds(g, fs, rank, run[i].shared.cells, w)
  {
    WindowsSettle(g, fs, rank, flat, run, sched, bounds, |bounds| - 1);
    SettledForever(g, fs, rank, flat, run, sched, bounds[|bounds| - 1], i, |bounds|);
    assert forall w :: w in g.workers && rank[w] < |bounds| ==> Settled(g, fs, rank, run[i], w);
  }

  // ------------------------------------------------------------------ tickets

  /** How many of the tickets lo, lo + 1, ..., hi - 1 name slot `i` of `n`. */
  ghost function Offers(lo: nat, hi: nat, n: nat, i: nat): nat
    requires lo <= hi && i < n
    decreases hi - lo
  {
    if lo == hi then 0 else Offers(lo, hi - 1, n, i) + if (hi - 1) % n == i then 1 else 0
  }

  /** The step of thread `t` draws a ticket that names slot `i`. */
  ghost predicate Draws<V, S>(flat: seq<string>, s: State<V, S>, t: nat, i: nat)
    requires |flat| > 0 && t < |s.threads|
  {
    s.threads[t].Idle? && !s.shared.failure && s.shared.ticket % |flat| == i
  }

  /** How often slot `i` is drawn between the moments `lo` and `hi` of a run. */
  ghost function DrawCount<V, S>(g: Graph<V, S>, flat: seq<string>, run: seq<State<V, S>>, sched: seq<nat>, lo: nat, hi: nat, i: nat): nat
    requires IsRun(g, flat, run, sched) && lo <= hi < |run|
    decreases hi - lo
  {
    if lo == hi then 0
    else DrawCount(g, flat, run, sched, lo, hi - 1, i) + if Draws(flat, run[hi - 1], sched[hi - 1], i) then 1 else 0
  }

  lemma StepTicket<V, S>(g: Graph<V, S>, flat: seq<string>, s: State<V, S>, t: nat)
    requires Runs(g, flat, s) && t < |s.threads|
    ensures Step(g, flat, s, t).shared.ticket == s.shared.ticket + if s.threads[t].Idle? && !s.shared.failure then 1 else 0
  {
  }

  lemma {:induction false} DrawsFollowTickets<V, S>(g: Graph<V, S>, flat: seq<string>, run: seq<State<V, S>>, sched: seq<nat>, lo: nat, hi: nat, i: nat)
    requires IsRun(g, flat, run, sched) && lo <= hi < |run| && i < |flat|
    ensures run[lo].shared.ticket <= run[hi].shared.ticket
    ensures DrawCount(g, flat, run, sched, lo, hi, i) == Offers(run[lo].shared.ticket, run[hi].shared.ticket, |flat|, i)
    decreases hi - lo
  {
    if lo < hi {
      DrawsFollowTickets(g, flat, run, sched, lo, hi - 1, i);
      StepTicket(g, flat, run[hi - 1], sched[hi - 1]);
    }
  }

  lemma {:induction false} OffersOnce(lo: nat, n: nat, i: nat, m: nat)
    requires i < n && m <= n
    ensures Offers(lo, lo + m, n, i) == if (i - lo) % n < m then 1 else 0
  {
    if m > 0 {
      OffersOnce(lo, n, i, m - 1);
      Residue(lo, n, i, m - 1);
    }
  }

  lemma Residue(lo: nat, n: nat, i: nat, m: nat)
    requires i < n && m < n
    ensures (lo + m) % n == i <==> (i - lo) % n == m
  {
    var q, r := (lo + m) / n, (lo + m) % n;
    var p, k := (i - lo) / n, (i - lo) % n;
    assert lo + m == q * n + r && i - lo == p * n + k;
    assert i + m == (p + q) * n + r + k by { assert (p + q) * n == p * n + q * n; }
    var d := p + q;
    if r == i {
      SmallMultiple(d, n, m - k);
    }
    if k == m {
      SmallMultiple(d, n, i - r);
    }
  }

  lemma SmallMultiple(d: int, n: int, x: int)
    requires d * n == x && -n < x < n
    ensures x == 0
  {
    if d != 0 {
      LargeMultiple(d, n);
    }
  }

  lemma LargeMultiple(d: int, n: int)
    requires n > 0 && d != 0
    ensures d * n >= n || d * n <= -n
  {
    if d >= 1 {
      assert d * n == n + (d - 1) * n;
    } else {
      assert d * n == -n - (-d - 1) * n;
    }
  }

  /** Whatever the threads do, while the counter advances by the number of cells every slot
      is drawn exactly once. */
  lemma TicketsAreFair<V, S>(g: Graph<V, S>, flat: seq<string>, run: seq<State<V, S>>, sched: seq<nat>, lo: nat, hi: nat, i: nat)
    requires IsRun(g, flat, run, sched) && lo <= hi < |run| && i < |flat|
    requires run[hi].shared.ticket == run[lo].shared.ticket + |flat|
    ensures DrawCount(g, flat, run, sched, lo, hi, i) == 1
  {
    DrawsFollowTickets(g, flat, run, sched, lo, hi, i);
    OffersOnce(run[lo].shared.ticket, |flat|, i, |flat|);
  }
}
