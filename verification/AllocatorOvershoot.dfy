/** When carving is safe: if two overshoots overlap in time, one block may be carved on top of
    another; if they never do, every schedule is calm. */
module AllocatorOvershoot {
  import opened Allocator
  import opened AllocatorSafety
  import opened Wrappers

  /** A carving step keeps the blocks side by side exactly when no overshoot is pending. */
  lemma CarvesCleanlyIffQuiet(c: Config, s: State, t: nat, move: Move, g: Ledger)
    requires Structure(c, s, g) && Layout(c, s, g) && Carves(c, s, t) && Step(c, s, t, move).Just?
    ensures Quiet(c, s) <==> Tiled(c, NextLedger(c, s, t, move, g).blocks)
  {
    SumZero(Overshoots(c, s.threads));
    assert forall u :: 0 <= u < |s.threads| ==> Overshoots(c, s.threads)[u] == Overshoot(c, s.threads[u]);
    var b := Block(s.offset, s.threads[t].size);
    assert (g.blocks + [b])[..|g.blocks|] == g.blocks && (g.blocks + [b])[|g.blocks|] == b;
    if Quiet(c, s) {
      assert ThreadOk(c, s, g, t);
      TileAtEnd(c, g.blocks, b);
    }
  }

  /** No two threads have an overshoot to give back. Adding to the offset and giving back what
      overshoots are two steps. */
  ghost predicate Solo(c: Config, s: State)
    requires Legal(c)
  {
    forall t, u :: 0 <= t < u < |s.threads| ==> Overshoot(c, s.threads[t]) == 0 || Overshoot(c, s.threads[u]) == 0
  }

  /** While an overshoot is pending the offset is past the buffer. */
  ghost predicate Past(c: Config, s: State)
    requires Legal(c)
  {
    !Quiet(c, s) ==> s.offset > c.memory
  }

  lemma SoloStepIsCalm(c: Config, s: State, t: nat, move: Move, s': State)
    requires Follows(c, s, t, move, s') && Past(c, s) && Solo(c, s) && Solo(c, s')
    ensures Calm(c, s, t) && Past(c, s')
  {
    HeaderIsPositive(c);
    OffsetMoves(c, s, t, move);
    if !Quiet(c, s') {
      var u :| 0 <= u < |s'.threads| && Overshoot(c, s'.threads[u]) != 0;
      if u != t {
        assert s'.threads[u] == s.threads[u];
        assert Overshoot(c, s.threads[t]) == 0;
        assert Overshoot(c, s'.threads[t]) == 0;
      }
    }
  }

  ghost predicate SoloPlay(c: Config, s: State, sched: seq<(nat, Move)>)
    requires Sized(c, s)
    decreases |sched|
  {
    Solo(c, s) && (sched != [] && Step(c, s, sched[0].0, sched[0].1).Just? ==>
      SoloPlay(c, After(c, s, sched[0].0, sched[0].1), sched[1..]))
  }

  /** Schedules in which overshoots do not overlap are calm. */
  lemma {:induction false} SoloPlayIsCalm(c: Config, s: State, sched: seq<(nat, Move)>)
    requires Sized(c, s) && Past(c, s) && SoloPlay(c, s, sched)
    ensures CalmPlay(c, s, sched)
    decreases |sched|
  {
    if sched != [] && Step(c, s, sched[0].0, sched[0].1).Just? {
      var s' := After(c, s, sched[0].0, sched[0].1);
      SoloStepIsCalm(c, s, sched[0].0, sched[0].1, s');
      SoloPlayIsCalm(c, s', sched[1..]);
    }
  }

  /** From a fresh allocator, any number of threads, any schedule without overlapping overshoots. */
  lemma SoloSchedulesAreSafe(c: Config, threads: nat, sched: seq<(nat, Move)>)
    requires Legal(c) && SoloPlay(c, Initial(c, threads), sched) && Play(c, Initial(c, threads), sched).Just?
    ensures Good(c, Play(c, Initial(c, threads), sched).value)
  {
    InitialIsGood(c, threads);
    SoloPlayIsCalm(c, Initial(c, threads), sched);
    CalmPlayStaysGood(c, Initial(c, threads), sched);
  }

  // ------------------------------------------------------------------ one allocating thread

  /** Threads that have never allocated are idle or giving blocks back. */
  ghost predicate OnlyAllocates(s: State, t: nat) {
    forall u :: 0 <= u < |s.threads| && u != t ==>
      s.threads[u].Idle? || s.threads[u].Linking? || s.threads[u].Pushing? || s.threads[u].Discounting?
  }

  /** If one thread does all the allocating, overshoots cannot overlap. */
  lemma {:induction false} OneAllocatorIsSolo(c: Config, s: State, t: nat, sched: seq<(nat, Move)>)
    requires Sized(c, s) && OnlyAllocates(s, t) && forall i :: 0 <= i < |sched| ==> sched[i].1.Allocate? ==> sched[i].0 == t
    ensures SoloPlay(c, s, sched)
    decreases |sched|
  {
    if sched != [] && Step(c, s, sched[0].0, sched[0].1).Just? {
      var s' := After(c, s, sched[0].0, sched[0].1);
      OffsetMoves(c, s, sched[0].0, sched[0].1);
      assert OnlyAllocates(s', t);
      OneAllocatorIsSolo(c, s', t, sched[1..]);
    }
  }

  // ------------------------------------------------------------------ one size

  predicate Asks(pc: Thread, size: nat) {
    (pc.Waiting? || pc.Locked? || pc.Reading? || pc.Swapping? || pc.Bumping? || pc.Checking? || pc.Undoing?) ==> pc.size == size
  }

  ghost predicate Uniform(c: Config, s: State, size: nat) {
    forall t :: 0 <= t < |s.threads| ==> Asks(s.threads[t], size)
  }

  /** While an overshoot is pending, no block of this size fits behind the blocks. */
  ghost predicate Full(c: Config, s: State, g: Ledger, size: nat)
    requires Legal(c)
  {
    !Quiet(c, s) ==> End(c, g.blocks) + FullSize(c, size) > c.memory
  }

  lemma UniformIsCalm(c: Config, s: State, t: nat, g: Ledger, size: nat)
    requires Sized(c, s) && Layout(c, s, g) && Uniform(c, s, size) && Full(c, s, g, size)
    ensures Calm(c, s, t)
  {
    if !Quiet(c, s) {
      var u :| 0 <= u < |s.threads| && Overshoot(c, s.threads[u]) != 0;
      SumAtLeast(Overshoots(c, s.threads), u);
      assert Overshoots(c, s.threads)[u] == FullSize(c, size);
    }
  }

  predicate AsksFor(c: Config, move: Move, size: nat)
    requires Legal(c)
  {
    move.Allocate? ==> SizeToAligned(c, if move.n == 0 then 1 else move.n) == size
  }

  lemma UniformStays(c: Config, s: State, t: nat, move: Move, s': State, size: nat)
    requires Follows(c, s, t, move, s') && Uniform(c, s, size) && AsksFor(c, move, size)
    ensures Uniform(c, s', size)
  {
    OffsetMoves(c, s, t, move);
    assert Asks(s.threads[t], size);
  }

  lemma FullStays(c: Config, s: State, t: nat, move: Move, s': State, g: Ledger, size: nat)
    requires Structure(c, s, g) && Layout(c, s, g) && Follows(c, s, t, move, s') && Uniform(c, s, size) && Full(c, s, g, size)
    ensures Full(c, s', NextLedger(c, s, t, move, g), size)
  {
    OffsetMoves(c, s, t, move);
    UniformIsCalm(c, s, t, g, size);
    if Carves(c, s, t) {
      EndWith(c, g.blocks, Block(s.offset, s.threads[t].size));
    }
    if Quiet(c, s) && !Quiet(c, s') {
      OvershootMeansFull(c, s, t, move, s', g, size);
    }
  }

  /** The first overshoot shows that there is no room. */
  lemma OvershootMeansFull(c: Config, s: State, t: nat, move: Move, s': State, g: Ledger, size: nat)
    requires Sized(c, s) && Layout(c, s, g) && Follows(c, s, t, move, s') && Uniform(c, s, size) && Quiet(c, s) && !Quiet(c, s')
    ensures End(c, g.blocks) + FullSize(c, size) > c.memory && !Carves(c, s, t)
  {
    OffsetMoves(c, s, t, move);
    CarvesAtTheEnd(c, s, g);
    var u :| 0 <= u < |s'.threads| && Overshoot(c, s'.threads[u]) != 0;
    assert u == t && Asks(s.threads[t], size);
  }

  /** If all requests round up to one size, every schedule is safe, overshoots or not. */
  lemma {:induction false} UniformPlayIsSafe(c: Config, s: State, g: Ledger, size: nat, sched: seq<(nat, Move)>)
    requires Inv(c, s, g) && Uniform(c, s, size) && Full(c, s, g, size) && Play(c, s, sched).Just?
    requires forall i :: 0 <= i < |sched| ==> AsksFor(c, sched[i].1, size)
    ensures Good(c, Play(c, s, sched).value)
    decreases |sched|
  {
    if sched != [] {
      var (t, move) := sched[0];
      UniformIsCalm(c, s, t, g, size);
      StepKeepsInv(c, s, t, move, After(c, s, t, move), g);
      UniformStays(c, s, t, move, After(c, s, t, move), size);
      FullStays(c, s, t, move, After(c, s, t, move), g, size);
      UniformPlayIsSafe(c, After(c, s, t, move), NextLedger(c, s, t, move, g), size, sched[1..]);
    }
  }

  // ------------------------------------------------------------------ two sizes, overlapping

  lemma {:induction false} PlayOn(c: Config, s: State, a: seq<(nat, Move)>, b: seq<(nat, Move)>)
    requires Sized(c, s) && Play(c, s, a).Just?
    ensures Sized(c, Play(c, s, a).value) && Play(c, s, a + b) == Play(c, Play(c, s, a).value, b)
    decreases |a|
  {
    if a == [] {
      assert a + b == b;
    } else {
      assert (a + b)[1..] == a[1..] + b;
      PlayOn(c, After(c, s, a[0].0, a[0].1), a[1..], b);
    }
  }

  /** Where the bin is empty, three steps lead from a request to the carving of a block. */
  lemma FindsNothing(c: Config, s: State, t: nat, n: nat)
    requires Sized(c, s) && t < |s.threads| && s.threads[t].Idle? && n > 0 && SizeToAligned(c, n) <= c.maxSize
    requires forall i :: 0 <= i < |s.heads| ==> s.heads[i].Nothing? && s.locks[i].Nothing?
    ensures Play(c, s, [(t, Allocate(n)), (t, Proceed), (t, Proceed)]) == Just(At(s, t, Bumping(SizeToAligned(c, n))))
  {
    AlignedSizes(c, n);
    var size := SizeToAligned(c, n);
    BinsAndSizes(c, size);
    var i := BinIndex(c, size);
    var s1 := After(c, s, t, Allocate(n));
    var s2 := After(c, s1, t, Proceed);
    var s3 := After(c, s2, t, Proceed);
    assert s3.locks == s.locks && s3.threads == s.threads[t := Bumping(size)];
    var m := [(t, Allocate(n)), (t, Proceed), (t, Proceed)];
    assert m[1..] == [(t, Proceed), (t, Proceed)] && m[1..][1..] == [(t, Proceed)];
    assert Play(c, s3, []) == Just(s3);
    assert Play(c, s2, [(t, Proceed)]) == Just(s3);
    assert Play(c, s1, [(t, Proceed), (t, Proceed)]) == Just(s3);
  }

  /** A buffer of 64 bytes with 16-byte headers. */
  const SMALL := Config(64, 16, 64)

  /** Four threads; `carved` says whether there is a header at 32. */
  function Small(offset: int, carved: bool, live: set<int>, bytes: int, threads: seq<Thread>): State {
    State([Nothing, Nothing, Nothing, Nothing], [Nothing, Nothing, Nothing, Nothing],
      if carved then map[32 := Nothing] else map[], if carved then map[32 := 16] else map[], offset, bytes, live, threads)
  }

  ghost predicate Leads(s: State, sched: seq<(nat, Move)>, s': State) {
    Sized(SMALL, s) && Play(SMALL, s, sched) == Just(s')
  }

  lemma Then(s: State, a: seq<(nat, Move)>, s': State, b: seq<(nat, Move)>, s'': State)
    requires Leads(s, a, s') && Leads(s', b, s'')
    ensures Leads(s, a + b, s'')
  {
    PlayOn(SMALL, s, a, b);
  }

  lemma OneStep(s: State, t: nat, s': State)
    requires Sized(SMALL, s) && Step(SMALL, s, t, Proceed) == Just(s')
    ensures Leads(s, [(t, Proceed)], s')
  {
    StepStaysSized(SMALL, s, t, Proceed);
    var none: seq<(nat, Move)> := [];
    assert [(t, Proceed)][1..] == none;
    assert Play(SMALL, s', none) == Just(s');
  }

  function Asking(t: nat, n: nat): seq<(nat, Move)> {
    [(t, Allocate(n)), (t, Proceed), (t, Proceed)]
  }

  /** Thread `t` asks for `n` bytes and adds to the offset. */
  lemma Asks3(offset: int, carved: bool, live: set<int>, bytes: int, threads: seq<Thread>, t: nat, n: nat, threads': seq<Thread>)
    requires |threads| == 4 && t < 4 && threads[t].Idle? && (n == 16 || n == 64) && threads' == threads[t := Checking(n, offset)]
    ensures Leads(Small(offset, carved, live, bytes, threads), Asking(t, n) + [(t, Proceed)], Small(offset + n + 16, carved, live, bytes, threads'))
  {
    var s := Small(offset, carved, live, bytes, threads);
    FindsNothing(SMALL, s, t, n);
    var s' := At(s, t, Bumping(n));
    assert s'.threads[t := Checking(n, offset)] == threads';
    OneStep(s', t, Small(offset + n + 16, carved, live, bytes, threads'));
    Then(s, Asking(t, n), s', [(t, Proceed)], Small(offset + n + 16, carved, live, bytes, threads'));
  }

  /** Thread `t` finds that it overshot and gives the bytes back. */
  lemma GivesBack(offset: int, carved: bool, live: set<int>, bytes: int, threads: seq<Thread>, t: nat, threads': seq<Thread>)
    requires |threads| == 4 && t < 4 && threads[t].Checking? && !Fits(SMALL, threads[t].size, threads[t].prev) && threads' == threads[t := Idle]
    ensures Leads(Small(offset, carved, live, bytes, threads), [(t, Proceed)] + [(t, Proceed)],
      Small(offset - threads[t].size - 16, carved, live, bytes, threads'))
  {
    var s := Small(offset, carved, live, bytes, threads);
    var s' := Small(offset, carved, live, bytes, threads[t := Undoing(threads[t].size)]);
    var s'' := Small(offset - threads[t].size - 16, carved, live, bytes, threads');
    OneStep(s, t, s');
    assert threads[t := Undoing(threads[t].size)][t := Idle] == threads';
    OneStep(s', t, s'');
    Then(s, [(t, Proceed)], s', [(t, Proceed)], s'');
  }

  /** Thread `t` got the 16 bytes at 32. */
  lemma GetsBlock(offset: int, carved: bool, live: set<int>, bytes: int, threads: seq<Thread>, t: nat, threads': seq<Thread>)
    requires |threads| == 4 && t < 4 && threads[t] == Checking(16, 32) && threads' == threads[t := Counting(32)]
    ensures Leads(Small(offset, carved, live, bytes, threads), [(t, Proceed)], Small(offset, true, live, bytes, threads'))
  {
    var s := Small(offset, carved, live, bytes, threads);
    assert s.size[32 := 16] == map[32 := 16] && s.next[32 := Nothing] == map[32 := Nothing];
    OneStep(s, t, Small(offset, true, live, bytes, threads'));
  }

  /** Four requests, two of which overshoot at the same time: the third and the fourth are given the
      same block. */
  lemma OverlappingOvershootsShareABlock() returns (sched: seq<(nat, Move)>, s: State)
    ensures Legal(SMALL) && Leads(Initial(SMALL, 4), sched, s)
    ensures |s.threads| == 4 && s.threads[3] == Counting(32) && 32 in s.live
    ensures !Good(SMALL, s)
  {
    var s0 := Initial(SMALL, 4);
    assert s0 == Small(0, false, {}, 0, [Idle, Idle, Idle, Idle]);
    var sched2, s2 := TwoOvershoots();
    var s3 := Small(32, false, {}, 0, [Idle, Checking(16, 80), Idle, Idle]);
    GivesBack(112, false, {}, 0, s2.threads, 0, s3.threads);
    Then(s0, sched2, s2, [(0, Proceed)] + [(0, Proceed)], s3);
    var sched6, s6 := CarvesPastAnOvershoot(sched2 + ([(0, Proceed)] + [(0, Proceed)]), s0, s3);
    sched, s := CarvesAgain(sched6, s0, s6);
    assert Hand(SMALL, s.threads[3]) == Just(32);
    if Good(SMALL, s) {
      var g :| Inv(SMALL, s, g);
      GoodStateIsSafe(SMALL, s, g);
    }
  }

  /** The first request is larger than the buffer; the second lands behind it. */
  lemma TwoOvershoots() returns (sched: seq<(nat, Move)>, s2: State)
    ensures s2 == Small(112, false, {}, 0, [Checking(64, 0), Checking(16, 80), Idle, Idle])
    ensures Leads(Small(0, false, {}, 0, [Idle, Idle, Idle, Idle]), sched, s2)
  {
    var s0 := Small(0, false, {}, 0, [Idle, Idle, Idle, Idle]);
    var s1 := Small(80, false, {}, 0, [Checking(64, 0), Idle, Idle, Idle]);
    s2 := Small(112, false, {}, 0, [Checking(64, 0), Checking(16, 80), Idle, Idle]);
    Asks3(0, false, {}, 0, s0.threads, 0, 64, s1.threads);
    Asks3(80, false, {}, 0, s1.threads, 1, 16, s2.threads);
    sched := (Asking(0, 64) + [(0, Proceed)]) + (Asking(1, 16) + [(1, Proceed)]);
    Then(s0, Asking(0, 64) + [(0, Proceed)], s1, Asking(1, 16) + [(1, Proceed)], s2);
  }

  /** The third request is carved while the second still owes its overshoot. */
  lemma CarvesPastAnOvershoot(before: seq<(nat, Move)>, s0: State, s3: State) returns (sched: seq<(nat, Move)>, s6: State)
    requires s3 == Small(32, false, {}, 0, [Idle, Checking(16, 80), Idle, Idle]) && Leads(s0, before, s3)
    ensures s6 == Small(32, true, {32}, 16, [Idle, Idle, Idle, Idle]) && Leads(s0, sched, s6)
  {
    var s4 := Small(64, false, {}, 0, [Idle, Checking(16, 80), Checking(16, 32), Idle]);
    Asks3(32, false, {}, 0, s3.threads, 2, 16, s4.threads);
    sched := before + (Asking(2, 16) + [(2, Proceed)]);
    Then(s0, before, s3, Asking(2, 16) + [(2, Proceed)], s4);
    var s5 := Small(64, true, {}, 0, [Idle, Checking(16, 80), Counting(32), Idle]);
    GetsBlock(64, false, {}, 0, s4.threads, 2, s5.threads);
    Then(s0, sched, s4, [(2, Proceed)], s5);
    var s5' := Small(64, true, {32}, 16, [Idle, Checking(16, 80), Idle, Idle]);
    assert s5.threads[2 := Idle] == s5'.threads && s5.live + {32} == {32};
    OneStep(s5, 2, s5');
    Then(s0, sched + [(2, Proceed)], s5, [(2, Proceed)], s5');
    s6 := Small(32, true, {32}, 16, [Idle, Idle, Idle, Idle]);
    GivesBack(64, true, {32}, 16, s5'.threads, 1, s6.threads);
    Then(s0, sched + [(2, Proceed)] + [(2, Proceed)], s5', [(1, Proceed)] + [(1, Proceed)], s6);
    sched := sched + [(2, Proceed)] + [(2, Proceed)] + ([(1, Proceed)] + [(1, Proceed)]);
  }

  /** The fourth request is carved where the third was. */
  lemma CarvesAgain(before: seq<(nat, Move)>, s0: State, s6: State) returns (sched: seq<(nat, Move)>, s: State)
    requires s6 == Small(32, true, {32}, 16, [Idle, Idle, Idle, Idle]) && Leads(s0, before, s6)
    ensures s == Small(64, true, {32}, 16, [Idle, Idle, Idle, Counting(32)]) && Leads(s0, sched, s)
  {
    var s7 := Small(64, true, {32}, 16, [Idle, Idle, Idle, Checking(16, 32)]);
    Asks3(32, true, {32}, 16, s6.threads, 3, 16, s7.threads);
    Then(s0, before, s6, Asking(3, 16) + [(3, Proceed)], s7);
    s := Small(64, true, {32}, 16, [Idle, Idle, Idle, Counting(32)]);
    GetsBlock(64, true, {32}, 16, s7.threads, 3, s.threads);
    sched := before + (Asking(3, 16) + [(3, Proceed)]) + [(3, Proceed)];
    Then(s0, before + (Asking(3, 16) + [(3, Proceed)]), s7, [(3, Proceed)], s);
  }
}
