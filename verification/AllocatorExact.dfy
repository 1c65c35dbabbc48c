/** Exactly when a run of the allocator is safe. One block carved while an overshoot is pending
    leaves a gap behind the blocks; the offset never comes back to where the gap begins, so no later
    step can fill it, and no state from there on is good. */
module AllocatorExact {
  import opened Allocator
  import opened AllocatorSafety
  import opened Wrappers

  /** The block has a header of its size, or a thread is about to write one. */
  ghost predicate Present(c: Config, s: State, b: Block)
    requires Legal(c)
  {
    || (b.start in s.size && s.size[b.start] == b.size)
    || exists u :: 0 <= u < |s.threads| && s.threads[u] == Checking(b.size, b.start) && Carving(c, s.threads[u])
  }

  /** A thread that is about to write a header does so behind the gap, or for one of the old blocks. */
  ghost predicate WritesElsewhere(c: Config, pc: Thread, blocks: seq<Block>)
    requires Legal(c)
  {
    Carving(c, pc) ==> pc.prev > End(c, blocks) || (pc.prev < End(c, blocks) && Block(pc.prev, pc.size) in blocks)
  }

  /** The old blocks are all there, something lies behind them, but nothing begins where they end,
      nor ever will, because the offset stays behind that place. */
  ghost predicate Gapped(c: Config, s: State, blocks: seq<Block>, behind: int)
    requires Legal(c)
  {
    && Tiled(c, blocks) && behind > End(c, blocks) && End(c, blocks) !in s.size
    && s.offset > End(c, blocks) + Sum(Overshoots(c, s.threads))
    && (exists size: nat :: Present(c, s, Block(behind, size)))
    && (forall k :: 0 <= k < |blocks| ==> Present(c, s, blocks[k]))
    && forall u :: 0 <= u < |s.threads| ==> WritesElsewhere(c, s.threads[u], blocks)
  }

  lemma StartsDiffer(c: Config, blocks: seq<Block>, i: nat, j: nat)
    requires Legal(c) && Tiled(c, blocks) && i < |blocks| && j < |blocks| && blocks[i].start == blocks[j].start
    ensures i == j
  {
    HeaderIsPositive(c);
    if i != j {
      StartsGrow(c, blocks, if i < j then i else j, if i < j then j else i);
    }
  }

  // ------------------------------------------------------------------ a gap is never good

  /** A block that is present is one of the ledger's. */
  lemma PresentIsListed(c: Config, s: State, g: Ledger, b: Block)
    requires Inv(c, s, g) && Present(c, s, b)
    ensures b in g.blocks
  {
    if b.start in s.size && s.size[b.start] == b.size {
      assert BlockOk(c, s, g, b.start);
    } else {
      var u :| 0 <= u < |s.threads| && s.threads[u] == Checking(b.size, b.start) && Carving(c, s.threads[u]);
      assert ThreadOk(c, s, g, u);
    }
  }

  /** A tiling that has all blocks of another one begins with it. */
  lemma {:induction false} TilingsAgree(c: Config, old': seq<Block>, now: seq<Block>, k: nat)
    requires Legal(c) && Tiled(c, old') && Tiled(c, now) && k <= |old'| && forall i :: 0 <= i < |old'| ==> old'[i] in now
    ensures k <= |now| && now[..k] == old'[..k]
  {
    if k > 0 {
      TilingsAgree(c, old', now, k - 1);
      var j :| 0 <= j < |now| && now[j] == old'[k - 1];
      NextAgrees(c, old', now, k - 1, j);
    }
  }

  /** Where two tilings agree, the next block of one is the next block of the other, if it occurs there. */
  lemma NextAgrees(c: Config, old': seq<Block>, now: seq<Block>, k: nat, j: nat)
    requires Legal(c) && Tiled(c, old') && Tiled(c, now) && k < |old'| && k <= |now| && now[..k] == old'[..k]
    requires j < |now| && now[j] == old'[k]
    ensures j == k && now[..k + 1] == old'[..k + 1]
  {
    if j < k {
      assert now[..k][j] == old'[..k][j];
      StartsDiffer(c, old', j, k);
    }
    StartsDiffer(c, now, j, k);
  }

  /** A block of the ledger has a header or a thread that is about to write it. */
  lemma ListedHasHeader(c: Config, s: State, g: Ledger, b: int)
    requires Structure(c, s, g) && b in g.place
    ensures b in s.size || exists u :: 0 <= u < |s.threads| && Carving(c, s.threads[u]) && s.threads[u].prev == b
  {
    assert BlockOk(c, s, g, b);
    match g.place[b]
    case Live =>
    case Held(t) => assert b in s.size || Carving(c, s.threads[t]);
    case Listed(i) =>
      assert BinOk(c, s, g, i);
      var k :| 0 <= k < |g.lists[i]| && g.lists[i][k] == b;
      assert InBin(c, s, g, i, g.lists[i][k]);
  }

  /** A ledger that explains a state with a gap would have to have a block that begins it. */
  lemma GapWouldBeFilled(c: Config, s: State, g: Ledger, blocks: seq<Block>, behind: int)
    requires Inv(c, s, g) && Gapped(c, s, blocks, behind)
    ensures |blocks| < |g.blocks| && g.blocks[|blocks|].start == End(c, blocks)
  {
    forall k | 0 <= k < |blocks| ensures blocks[k] in g.blocks {
      PresentIsListed(c, s, g, blocks[k]);
    }
    TilingsAgree(c, blocks, g.blocks, |blocks|);
    assert blocks[..|blocks|] == blocks;
    var size: nat :| Present(c, s, Block(behind, size));
    PresentIsListed(c, s, g, Block(behind, size));
    var j :| 0 <= j < |g.blocks| && g.blocks[j] == Block(behind, size);
    if j < |blocks| {
      assert g.blocks[..|blocks|][j] == blocks[j];
      EndGrows(c, blocks, j);
    }
  }

  lemma GapIsNotGood(c: Config, s: State, blocks: seq<Block>, behind: int)
    requires Legal(c) && Gapped(c, s, blocks, behind)
    ensures !Good(c, s)
  {
    if Good(c, s) {
      var g :| Inv(c, s, g);
      GapWouldBeFilled(c, s, g, blocks, behind);
      ListedHasHeader(c, s, g, End(c, blocks));
    }
  }

  // ------------------------------------------------------------------ a gap stays

  lemma PresentStays(c: Config, s: State, t: nat, move: Move, s': State, b: Block)
    requires Follows(c, s, t, move, s') && Present(c, s, b)
    requires Carving(c, s.threads[t]) && s.threads[t].prev == b.start ==> s.threads[t].size == b.size
    ensures Present(c, s', b)
  {
    OffsetMoves(c, s, t, move);
    if !(b.start in s.size && s.size[b.start] == b.size) {
      var u :| 0 <= u < |s.threads| && s.threads[u] == Checking(b.size, b.start) && Carving(c, s.threads[u]);
      if u != t {
        assert s'.threads[u] == s.threads[u];
      }
    }
  }

  /** Only the thread that writes a header changes a size, and only a thread that adds to the offset
      comes to write one. */
  lemma SizesMove(c: Config, s: State, t: nat, move: Move, s': State)
    requires Follows(c, s, t, move, s')
    ensures t < |s.threads| == |s'.threads|
    ensures s'.size == if Carving(c, s.threads[t]) then s.size[s.threads[t].prev := s.threads[t].size] else s.size
    ensures Carving(c, s'.threads[t]) ==> s.threads[t].Bumping? && s'.threads[t].prev == s.offset
  {
    OffsetMoves(c, s, t, move);
  }

  lemma OldPresentStays(c: Config, s: State, t: nat, move: Move, s': State, blocks: seq<Block>, behind: int, k: nat)
    requires Follows(c, s, t, move, s') && Gapped(c, s, blocks, behind) && k < |blocks|
    ensures Present(c, s', blocks[k])
  {
    OffsetMoves(c, s, t, move);
    var pc := s.threads[t];
    if Carving(c, pc) && pc.prev == blocks[k].start {
      EndGrows(c, blocks, k);
      HeaderIsPositive(c);
      assert WritesElsewhere(c, pc, blocks);
      var j :| 0 <= j < |blocks| && blocks[j] == Block(pc.prev, pc.size);
      StartsDiffer(c, blocks, j, k);
    }
    PresentStays(c, s, t, move, s', blocks[k]);
  }

  lemma BehindStays(c: Config, s: State, t: nat, move: Move, s': State, blocks: seq<Block>, behind: int)
    requires Follows(c, s, t, move, s') && Gapped(c, s, blocks, behind)
    ensures exists size: nat :: Present(c, s', Block(behind, size))
  {
    var size: nat :| Present(c, s, Block(behind, size));
    SizesMove(c, s, t, move, s');
    if Carving(c, s.threads[t]) && s.threads[t].prev == behind {
      assert Present(c, s', Block(behind, s.threads[t].size));
    } else {
      PresentStays(c, s, t, move, s', Block(behind, size));
    }
  }

  lemma GapStays(c: Config, s: State, t: nat, move: Move, s': State, blocks: seq<Block>, behind: int)
    requires Follows(c, s, t, move, s') && Gapped(c, s, blocks, behind)
    ensures Gapped(c, s', blocks, behind)
  {
    OffsetMoves(c, s, t, move);
    OvershootMoves(c, s.threads, t, s'.threads[t]);
    SizesMove(c, s, t, move, s');
    BehindStays(c, s, t, move, s', blocks, behind);
    assert WritesElsewhere(c, s.threads[t], blocks);
    forall k | 0 <= k < |blocks| ensures Present(c, s', blocks[k]) {
      OldPresentStays(c, s, t, move, s', blocks, behind, k);
    }
    forall u | 0 <= u < |s'.threads| ensures WritesElsewhere(c, s'.threads[u], blocks) {
      assert u != t ==> s'.threads[u] == s.threads[u];
    }
  }

  lemma {:induction false} GapStaysForever(c: Config, s: State, sched: seq<(nat, Move)>, blocks: seq<Block>, behind: int)
    requires Sized(c, s) && Gapped(c, s, blocks, behind) && Play(c, s, sched).Just?
    ensures !Good(c, Play(c, s, sched).value)
    decreases |sched|
  {
    if sched == [] {
      GapIsNotGood(c, s, blocks, behind);
    } else {
      var s' := After(c, s, sched[0].0, sched[0].1);
      GapStays(c, s, sched[0].0, sched[0].1, s', blocks, behind);
      GapStaysForever(c, s', sched[1..], blocks, behind);
    }
  }

  // ------------------------------------------------------------------ how a gap comes about

  lemma BlocksArePresent(c: Config, s: State, g: Ledger, k: nat)
    requires Inv(c, s, g) && k < |g.blocks|
    ensures Present(c, s, g.blocks[k])
  {
    var b := g.blocks[k].start;
    assert BlockOk(c, s, g, b);
    ListedHasHeader(c, s, g, b);
    var found: Block;
    if b in s.size {
      found := Block(b, s.size[b]);
    } else {
      var u :| 0 <= u < |s.threads| && Carving(c, s.threads[u]) && s.threads[u].prev == b;
      assert ThreadOk(c, s, g, u);
      found := Block(b, s.threads[u].size);
    }
    assert Present(c, s, found) && found in g.blocks;
    var j :| 0 <= j < |g.blocks| && g.blocks[j] == found;
    StartsDiffer(c, g.blocks, j, k);
  }

  /** Carving while an overshoot is pending leaves a gap. */
  lemma CarvingPastLeavesGap(c: Config, s: State, t: nat, move: Move, s': State, g: Ledger)
    requires Inv(c, s, g) && Follows(c, s, t, move, s') && Carves(c, s, t) && !Quiet(c, s)
    ensures Gapped(c, s', g.blocks, s.offset)
  {
    HeaderIsPositive(c);
    OffsetMoves(c, s, t, move);
    OvershootMoves(c, s.threads, t, s'.threads[t]);
    SumZero(Overshoots(c, s.threads));
    var v :| 0 <= v < |s.threads| && Overshoot(c, s.threads[v]) != 0;
    assert Overshoots(c, s.threads)[v] != 0;
    NothingAtTheEnd(c, s, g);
    assert Present(c, s', Block(s.offset, s.threads[t].size));
    forall k | 0 <= k < |g.blocks| ensures Present(c, s', g.blocks[k]) {
      BlocksArePresent(c, s, g, k);
      PresentStays(c, s, t, move, s', g.blocks[k]);
    }
    forall u | 0 <= u < |s'.threads| ensures WritesElsewhere(c, s'.threads[u], g.blocks) {
      assert ThreadOk(c, s, g, u);
      assert u != t ==> s'.threads[u] == s.threads[u];
    }
  }

  // ------------------------------------------------------------------ the condition

  /** From a good state a run ends in a good state if and only if it never carved a block while an
      overshoot was pending. */
  lemma {:induction false} GoodIffCalm(c: Config, s: State, sched: seq<(nat, Move)>)
    requires Sized(c, s) && Good(c, s) && Play(c, s, sched).Just?
    ensures Good(c, Play(c, s, sched).value) <==> CalmPlay(c, s, sched)
    decreases |sched|
  {
    if sched != [] {
      var (t, move) := sched[0];
      var s' := After(c, s, t, move);
      if Calm(c, s, t) {
        StepKeepsGood(c, s, t, move, s');
        GoodIffCalm(c, s', sched[1..]);
      } else {
        var g :| Inv(c, s, g);
        CarvingPastLeavesGap(c, s, t, move, s', g);
        GapStaysForever(c, s', sched[1..], g.blocks, s.offset);
      }
    }
  }

  /** In particular every run of a fresh allocator. */
  lemma RunIsGoodIffCalm(c: Config, threads: nat, sched: seq<(nat, Move)>)
    requires Legal(c) && Play(c, Initial(c, threads), sched).Just?
    ensures Good(c, Play(c, Initial(c, threads), sched).value) <==> CalmPlay(c, Initial(c, threads), sched)
  {
    InitialIsGood(c, threads);
    GoodIffCalm(c, Initial(c, threads), sched);
  }
}
