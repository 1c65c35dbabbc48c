/** The machine never gets stuck: a thread that works on something can take its next step, unless it
    waits for a bin's lock, and then the holder of the lock can. So no run is safe merely because
    some access had nothing to read. */
module AllocatorProgress {
  import opened Allocator
  import opened AllocatorSafety
  import opened Wrappers

  /** The thread waits for a lock that is taken. */
  predicate Blocked(c: Config, s: State, t: nat)
    requires Sized(c, s) && t < |s.threads|
  {
    var pc := s.threads[t];
    pc.Waiting? && BinSize(c, pc.size) && BinIndex(c, pc.size) < |s.locks| && s.locks[BinIndex(c, pc.size)].Just?
  }

  /** Every header, link and bin a busy thread is about to look at is there. */
  lemma BusyThreadsProceed(c: Config, s: State, t: nat, g: Ledger)
    requires Structure(c, s, g) && t < |s.threads| && !s.threads[t].Idle?
    ensures Step(c, s, t, Proceed).Just? <==> !Blocked(c, s, t)
  {
    assert ThreadOk(c, s, g, t);
    match s.threads[t]
    case Counting(b) => assert BlockOk(c, s, g, b);
    case Linking(_) => FreedHasBin(c, s, t, g);
    case Pushing(_) => FreedHasBin(c, s, t, g);
    case Waiting(size) => BinsAndSizes(c, size);
    case Reading(size, h) =>
      var i := BinIndex(c, size);
      BinsAndSizes(c, size);
      assert BlockOk(c, s, g, h);
      assert BinOk(c, s, g, i);
      var k :| 0 <= k < |g.lists[i]| && g.lists[i][k] == h;
      assert InBin(c, s, g, i, g.lists[i][k]);
    case Locked(size) => BinsAndSizes(c, size);
    case Swapping(size, _, _) => BinsAndSizes(c, size);
    case _ =>
  }

  // ------------------------------------------------------------------ locks are held by threads inside

  ghost predicate LockOwned(c: Config, s: State, i: nat)
    requires i < |s.locks|
  {
    s.locks[i].Just? ==>
      var t := s.locks[i].value;
      t < |s.threads| && Inside(s.threads[t]) && BinSize(c, s.threads[t].size) && BinIndex(c, s.threads[t].size) == i
  }

  ghost predicate LocksOwned(c: Config, s: State) {
    forall i :: 0 <= i < |s.locks| ==> LockOwned(c, s, i)
  }

  lemma StepKeepsLocksOwned(c: Config, s: State, t: nat, move: Move, s': State)
    requires Follows(c, s, t, move, s') && LocksOwned(c, s)
    ensures LocksOwned(c, s')
  {
    OffsetMoves(c, s, t, move);
    forall i | 0 <= i < |s'.locks| ensures LockOwned(c, s', i) {
      assert i < |s.locks| && LockOwned(c, s, i);
    }
  }

  /** A thread that works can proceed, or waits for one that can. */
  lemma NeverStuck(c: Config, s: State, t: nat, g: Ledger)
    requires Structure(c, s, g) && LocksOwned(c, s) && t < |s.threads| && !s.threads[t].Idle?
    ensures Step(c, s, t, Proceed).Just? || (Blocked(c, s, t) &&
      var holder := s.locks[BinIndex(c, s.threads[t].size)].value; holder != t && Step(c, s, holder, Proceed).Just?)
  {
    BusyThreadsProceed(c, s, t, g);
    if Blocked(c, s, t) {
      var i := BinIndex(c, s.threads[t].size);
      assert LockOwned(c, s, i);
      BusyThreadsProceed(c, s, s.locks[i].value, g);
    }
  }

  /** So it is in every state that a run of a fresh allocator reaches without carving past a pending
      overshoot: nobody works, or somebody can go on. */
  lemma {:induction false} CalmRunsNeverStick(c: Config, s: State, sched: seq<(nat, Move)>, t: nat)
    requires Sized(c, s) && Good(c, s) && LocksOwned(c, s) && CalmPlay(c, s, sched) && Play(c, s, sched).Just?
    ensures var s' := Play(c, s, sched).value;
      Sized(c, s') && (t < |s'.threads| && !s'.threads[t].Idle? ==>
        Step(c, s', t, Proceed).Just? || (Blocked(c, s', t) && Step(c, s', s'.locks[BinIndex(c, s'.threads[t].size)].value, Proceed).Just?))
    decreases |sched|
  {
    if sched == [] {
      if t < |s.threads| && !s.threads[t].Idle? {
        var g :| Inv(c, s, g);
        NeverStuck(c, s, t, g);
      }
    } else {
      var s' := After(c, s, sched[0].0, sched[0].1);
      StepKeepsGood(c, s, sched[0].0, sched[0].1, s');
      StepKeepsLocksOwned(c, s, sched[0].0, sched[0].1, s');
      CalmRunsNeverStick(c, s', sched[1..], t);
    }
  }

  lemma FreshRunsNeverStick(c: Config, threads: nat, sched: seq<(nat, Move)>, t: nat)
    requires Legal(c) && CalmPlay(c, Initial(c, threads), sched) && Play(c, Initial(c, threads), sched).Just?
    ensures var s := Play(c, Initial(c, threads), sched).value;
      Sized(c, s) && (t < |s.threads| && !s.threads[t].Idle? ==>
        Step(c, s, t, Proceed).Just? || (Blocked(c, s, t) && Step(c, s, s.locks[BinIndex(c, s.threads[t].size)].value, Proceed).Just?))
  {
    InitialIsGood(c, threads);
    CalmRunsNeverStick(c, Initial(c, threads), sched, t);
  }
}
