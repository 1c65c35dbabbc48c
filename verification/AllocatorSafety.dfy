/** What every run of the allocator keeps, as long as no block is carved while another thread has
    yet to give back an overshoot. */
module AllocatorSafety {
  import opened Allocator
  import opened Wrappers

  datatype Block = Block(start: int, size: nat)

  /** A block is with a client, in the hands of a thread, or in a bin. */
  datatype Place = Live | Held(t: nat) | Listed(i: nat)

  /** What the machine's state does not say: the blocks in the order they were carved, where each
      is, and the contents of the bins, top first. */
  datatype Ledger = Ledger(blocks: seq<Block>, place: map<int, Place>, lists: seq<seq<int>>)

  // ------------------------------------------------------------------ sums

  function Sum(xs: seq<nat>): nat {
    if xs == [] then 0 else Sum(xs[..|xs| - 1]) + xs[|xs| - 1]
  }

  lemma {:induction false} SumUpdate(xs: seq<nat>, i: nat, x: nat)
    requires i < |xs|
    ensures Sum(xs[i := x]) == Sum(xs) - xs[i] + x
    decreases |xs|
  {
    var n := |xs| - 1;
    if i == n {
      assert xs[i := x][..n] == xs[..n];
    } else {
      assert xs[i := x][..n] == xs[..n][i := x];
      SumUpdate(xs[..n], i, x);
    }
  }

  lemma {:induction false} SumAtLeast(xs: seq<nat>, i: nat)
    requires i < |xs|
    ensures xs[i] <= Sum(xs)
    decreases |xs|
  {
    if i < |xs| - 1 {
      SumAtLeast(xs[..|xs| - 1], i);
    }
  }

  lemma {:induction false} SumZero(xs: seq<nat>)
    ensures Sum(xs) == 0 <==> forall i :: 0 <= i < |xs| ==> xs[i] == 0
    decreases |xs|
  {
    if xs != [] {
      SumZero(xs[..|xs| - 1]);
    }
  }

  // ------------------------------------------------------------------ layout

  predicate Fits(c: Config, size: nat, prev: int)
    requires Legal(c)
  {
    prev + FullSize(c, size) <= c.memory
  }

  /** What a thread has added to the offset and has yet to give back. */
  function Overshoot(c: Config, pc: Thread): nat
    requires Legal(c)
  {
    match pc
    case Checking(size, prev) => if Fits(c, size, prev) then 0 else FullSize(c, size)
    case Undoing(size) => FullSize(c, size)
    case _ => 0
  }

  function Overshoots(c: Config, threads: seq<Thread>): seq<nat>
    requires Legal(c)
  {
    seq(|threads|, i requires 0 <= i < |threads| => Overshoot(c, threads[i]))
  }

  lemma OvershootMoves(c: Config, threads: seq<Thread>, t: nat, pc: Thread)
    requires Legal(c) && t < |threads|
    ensures Sum(Overshoots(c, threads[t := pc])) == Sum(Overshoots(c, threads)) - Overshoot(c, threads[t]) + Overshoot(c, pc)
    ensures Sum(Overshoots(c, threads)) >= Overshoot(c, threads[t])
  {
    assert Overshoots(c, threads[t := pc]) == Overshoots(c, threads)[t := Overshoot(c, pc)];
    SumUpdate(Overshoots(c, threads), t, Overshoot(c, pc));
    SumAtLeast(Overshoots(c, threads), t);
  }

  function End(c: Config, blocks: seq<Block>): nat
    requires Legal(c)
  {
    if blocks == [] then 0 else End(c, blocks[..|blocks| - 1]) + FullSize(c, blocks[|blocks| - 1].size)
  }

  /** Blocks lie one after the other from the start of the buffer. */
  ghost predicate Tiled(c: Config, blocks: seq<Block>)
    requires Legal(c)
  {
    forall k :: 0 <= k < |blocks| ==> BinSize(c, blocks[k].size) && blocks[k].start == End(c, blocks[..k])
  }

  /** The carved blocks end inside the buffer; the offset is their end plus what has to be given back. */
  ghost predicate Layout(c: Config, s: State, g: Ledger)
    requires Legal(c)
  {
    && Tiled(c, g.blocks) && End(c, g.blocks) <= c.memory
    && s.offset == End(c, g.blocks) + Sum(Overshoots(c, s.threads))
  }

  // ------------------------------------------------------------------ threads, blocks and bins

  /** A thread that has got its block but not yet written its header. */
  predicate Carving(c: Config, pc: Thread)
    requires Legal(c)
  {
    pc.Checking? && Fits(c, pc.size, pc.prev)
  }

  /** The block in a thread's hands. */
  function Hand(c: Config, pc: Thread): Maybe<int>
    requires Legal(c)
  {
    match pc
    case Checking(size, prev) => if Fits(c, size, prev) then Just(prev) else Nothing
    case Counting(b) => Just(b)
    case Linking(b) => Just(b)
    case Pushing(b) => Just(b)
    case _ => Nothing
  }

  predicate RequestOk(c: Config, pc: Thread) {
    match pc
    case Waiting(size) => BinSize(c, size)
    case Locked(size) => BinSize(c, size)
    case Reading(size, _) => BinSize(c, size)
    case Swapping(size, _, _) => BinSize(c, size)
    case Bumping(size) => BinSize(c, size)
    case Checking(size, _) => BinSize(c, size)
    case Undoing(size) => BinSize(c, size)
    case _ => true
  }

  predicate Inside(pc: Thread) {
    pc.Locked? || pc.Reading? || pc.Swapping?
  }

  /** A popper inside a bin holds its lock; the block it looks at is in that bin, and the link it
      has read is the block's link still. */
  ghost predicate PopperOk(c: Config, s: State, g: Ledger, t: nat)
    requires Sized(c, s) && t < |s.threads| && Inside(s.threads[t]) && BinSize(c, s.threads[t].size)
  {
    var pc, i := s.threads[t], BinIndex(c, s.threads[t].size);
    && i < |s.locks| && s.locks[i] == Just(t)
    && (pc.Reading? || pc.Swapping? ==> pc.h in g.place && g.place[pc.h] == Listed(i))
    && (pc.Swapping? ==> pc.h in s.next && s.next[pc.h] == pc.n)
  }

  ghost predicate ThreadOk(c: Config, s: State, g: Ledger, t: nat)
    requires Sized(c, s) && t < |s.threads|
  {
    var pc := s.threads[t];
    && RequestOk(c, pc)
    && (Hand(c, pc).Just? ==> Hand(c, pc).value in g.place && g.place[Hand(c, pc).value] == Held(t))
    && (Carving(c, pc) ==> pc.prev !in s.size && Block(pc.prev, pc.size) in g.blocks)
    && (Inside(pc) ==> PopperOk(c, s, g, t))
  }

  /** A block is where the ledger says, and has a header unless it is just being carved. */
  ghost predicate BlockOk(c: Config, s: State, g: Ledger, b: int)
    requires Sized(c, s)
  {
    && b in g.place && b < End(c, g.blocks)
    && (b in s.live <==> g.place[b].Live?)
    && (b in s.size ==> BinSize(c, s.size[b]) && b in s.next && Block(b, s.size[b]) in g.blocks)
    && match g.place[b]
       case Live => b in s.size
       case Held(t) => t < |s.threads| && Hand(c, s.threads[t]) == Just(b) && (b in s.size || s.threads[t].Checking?)
       case Listed(i) => i < |g.lists| && b in g.lists[i]
  }

  function First(list: seq<int>): Maybe<int> {
    if list == [] then Nothing else Just(list[0])
  }

  /** From `head`, links lead through exactly the blocks of `list` and stop. */
  ghost predicate IsChain(next: map<int, Maybe<int>>, head: Maybe<int>, list: seq<int>) {
    && head == First(list)
    && forall k :: 0 <= k < |list| ==> list[k] in next && next[list[k]] == First(list[k + 1..])
  }

  ghost predicate Distinct(list: seq<int>) {
    forall j, k :: 0 <= j < k < |list| ==> list[j] != list[k]
  }

  ghost predicate InBin(c: Config, s: State, g: Ledger, i: nat, b: int) {
    b in g.place && g.place[b] == Listed(i) && b in s.size && BinSize(c, s.size[b]) && BinIndex(c, s.size[b]) == i
  }

  /** A bin is a list of distinct blocks of its size. */
  ghost predicate BinOk(c: Config, s: State, g: Ledger, i: nat)
    requires Sized(c, s) && i < |g.lists| == NumBins(c)
  {
    && IsChain(s.next, s.heads[i], g.lists[i]) && Distinct(g.lists[i])
    && forall k :: 0 <= k < |g.lists[i]| ==> InBin(c, s, g, i, g.lists[i][k])
  }

  /** Each block is in exactly one place, and every bin is an acyclic list of free blocks of its size. */
  ghost predicate Structure(c: Config, s: State, g: Ledger) {
    && Sized(c, s) && |g.lists| == NumBins(c)
    && s.size.Keys <= g.place.Keys && s.live <= g.place.Keys
    && (forall k :: 0 <= k < |g.blocks| ==> g.blocks[k].start in g.place)
    && (forall t :: 0 <= t < |s.threads| ==> ThreadOk(c, s, g, t))
    && (forall b :: b in g.place ==> BlockOk(c, s, g, b))
    && (forall i :: 0 <= i < |g.lists| ==> BinOk(c, s, g, i))
  }

  // ------------------------------------------------------------------ counting

  /** Bytes a thread has taken from clients and not yet discounted. */
  function Owed(size: map<int, nat>, pc: Thread): nat {
    match pc
    case Linking(b) => if b in size then size[b] else 0
    case Pushing(b) => if b in size then size[b] else 0
    case Discounting(n) => n
    case _ => 0
  }

  function AllOwed(size: map<int, nat>, threads: seq<Thread>): seq<nat> {
    seq(|threads|, i requires 0 <= i < |threads| => Owed(size, threads[i]))
  }

  /** The bytes in the blocks of `live`. */
  function LiveSizes(blocks: seq<Block>, live: set<int>): seq<nat> {
    seq(|blocks|, k requires 0 <= k < |blocks| => if blocks[k].start in live then blocks[k].size else 0)
  }

  ghost predicate Counted(s: State, g: Ledger) {
    s.allocatedBytes == Sum(LiveSizes(g.blocks, s.live)) + Sum(AllOwed(s.size, s.threads))
  }

  // ------------------------------------------------------------------ the invariant

  ghost predicate Inv(c: Config, s: State, g: Ledger) {
    Structure(c, s, g) && Layout(c, s, g) && Counted(s, g)
  }

  /** No thread has an overshoot to give back. */
  ghost predicate Quiet(c: Config, s: State)
    requires Legal(c)
  {
    forall t :: 0 <= t < |s.threads| ==> Overshoot(c, s.threads[t]) == 0
  }

  /** Thread `t` is about to be given a block of the buffer. */
  ghost predicate Carves(c: Config, s: State, t: nat)
    requires Legal(c)
  {
    t < |s.threads| && s.threads[t].Bumping? && Fits(c, s.threads[t].size, s.offset)
  }

  /** No block is carved while some overshoot is pending. */
  ghost predicate Calm(c: Config, s: State, t: nat)
    requires Legal(c)
  {
    Carves(c, s, t) ==> Quiet(c, s)
  }

  lemma CarvesAtTheEnd(c: Config, s: State, g: Ledger)
    requires Legal(c) && Layout(c, s, g) && Quiet(c, s)
    ensures s.offset == End(c, g.blocks)
  {
    SumZero(Overshoots(c, s.threads));
  }

  // ------------------------------------------------------------------ every step keeps the structure

  /** A bin stays as it is when its blocks do. */
  lemma BinStays(c: Config, s: State, g: Ledger, s': State, g': Ledger, i: nat)
    requires Sized(c, s) && Sized(c, s') && i < |g.lists| == |g'.lists| == NumBins(c) && BinOk(c, s, g, i)
    requires s'.next == s.next && s'.size == s.size && s'.heads[i] == s.heads[i] && g'.lists[i] == g.lists[i]
    requires forall b :: b in g.place && g.place[b] == Listed(i) ==> b in g'.place && g'.place[b] == Listed(i)
    ensures BinOk(c, s', g', i)
  {
    forall k | 0 <= k < |g.lists[i]| ensures InBin(c, s', g', i, g.lists[i][k]) {
      assert InBin(c, s, g, i, g.lists[i][k]);
    }
  }

  /** Steps that move a thread, its lock and the counters only. */
  lemma MovesOnly(c: Config, s: State, t: nat, s': State, g: Ledger)
    requires Structure(c, s, g) && t < |s.threads| == |s'.threads| && |s'.locks| == |s.locks|
    requires s' == At(s, t, s'.threads[t]).(locks := s'.locks, offset := s'.offset, allocatedBytes := s'.allocatedBytes)
    requires Hand(c, s.threads[t]).Nothing? && Hand(c, s'.threads[t]).Nothing? && RequestOk(c, s'.threads[t])
    requires forall i :: 0 <= i < |s.locks| && s.locks[i].Just? && s.locks[i] != Just(t) ==> s'.locks[i] == s.locks[i]
    requires Inside(s'.threads[t]) ==> PopperOk(c, s', g, t)
    ensures Structure(c, s', g)
  {
    forall u | 0 <= u < |s'.threads| ensures ThreadOk(c, s', g, u) {
      assert ThreadOk(c, s, g, u);
    }
    forall b | b in g.place ensures BlockOk(c, s', g, b) {
      assert BlockOk(c, s, g, b);
    }
    forall i | 0 <= i < |g.lists| ensures BinOk(c, s', g, i) {
      assert BinOk(c, s, g, i);
      BinStays(c, s, g, s', g, i);
    }
  }

  lemma Deallocates(c: Config, s: State, t: nat, b: int, g: Ledger)
    requires Structure(c, s, g) && t < |s.threads| && s.threads[t].Idle? && b in s.live
    ensures Structure(c, At(s, t, Linking(b)).(live := s.live - {b}), g.(place := g.place[b := Held(t)]))
  {
    var s', g' := At(s, t, Linking(b)).(live := s.live - {b}), g.(place := g.place[b := Held(t)]);
    assert BlockOk(c, s, g, b);
    forall u | 0 <= u < |s'.threads| ensures ThreadOk(c, s', g', u) {
      assert ThreadOk(c, s, g, u);
    }
    forall x | x in g'.place ensures BlockOk(c, s', g', x) {
      assert BlockOk(c, s, g, x);
    }
    forall i | 0 <= i < |g'.lists| ensures BinOk(c, s', g', i) {
      assert BinOk(c, s, g, i);
      BinStays(c, s, g, s', g', i);
    }
  }

  /** A popper's swap succeeds: the head it saw is the top of the bin, and the link it read is what
      lies below the top. */
  lemma SwapsTheTop(c: Config, s: State, t: nat, g: Ledger)
    requires Structure(c, s, g) && t < |s.threads| && s.threads[t].Swapping?
    requires BinSize(c, s.threads[t].size) && BinIndex(c, s.threads[t].size) < |s.heads|
    requires s.heads[BinIndex(c, s.threads[t].size)] == Just(s.threads[t].h)
    ensures var list := g.lists[BinIndex(c, s.threads[t].size)];
      list != [] && list[0] == s.threads[t].h && s.threads[t].n == First(list[1..])
  {
    var i := BinIndex(c, s.threads[t].size);
    assert ThreadOk(c, s, g, t);
    assert BinOk(c, s, g, i);
    assert g.lists[i][0] in s.next && s.next[g.lists[i][0]] == First(g.lists[i][1..]);
  }

  lemma Takes(c: Config, s: State, t: nat, i: nat, g: Ledger)
    requires Structure(c, s, g) && t < |s.threads| && s.threads[t].Swapping?
    requires BinSize(c, s.threads[t].size) && i == BinIndex(c, s.threads[t].size) < |s.heads| && s.heads[i] == Just(s.threads[t].h)
    ensures g.lists[i] != []
    ensures Structure(c,
      At(s, t, Counting(s.threads[t].h)).(heads := s.heads[i := s.threads[t].n], locks := s.locks[i := Nothing]),
      g.(place := g.place[s.threads[t].h := Held(t)], lists := g.lists[i := g.lists[i][1..]]))
  {
    SwapsTheTop(c, s, t, g);
    var h, n := s.threads[t].h, s.threads[t].n;
    var s' := At(s, t, Counting(h)).(heads := s.heads[i := n], locks := s.locks[i := Nothing]);
    var g' := g.(place := g.place[h := Held(t)], lists := g.lists[i := g.lists[i][1..]]);
    assert BinOk(c, s, g, i) && BlockOk(c, s, g, h) && ThreadOk(c, s, g, t);
    assert InBin(c, s, g, i, g.lists[i][0]);
    forall u | 0 <= u < |s'.threads| ensures ThreadOk(c, s', g', u) {
      assert ThreadOk(c, s, g, u);
    }
    forall x | x in g'.place ensures BlockOk(c, s', g', x) {
      assert BlockOk(c, s, g, x);
      if x != h && g.place[x] == Listed(i) {
        var k :| 0 <= k < |g.lists[i]| && g.lists[i][k] == x;
        assert g'.lists[i][k - 1] == x;
      }
    }
    forall j | 0 <= j < |g'.lists| ensures BinOk(c, s', g', j) {
      assert BinOk(c, s, g, j);
      if j == i {
        PoppedBin(c, s, g, i, s', g');
      } else {
        assert forall k :: 0 <= k < |g.lists[j]| ==> InBin(c, s, g, j, g.lists[j][k]) ==> InBin(c, s', g', j, g.lists[j][k]);
      }
    }
  }

  lemma PoppedBin(c: Config, s: State, g: Ledger, i: nat, s': State, g': Ledger)
    requires Sized(c, s) && Sized(c, s') && i < |g.lists| == |g'.lists| == NumBins(c) && BinOk(c, s, g, i) && g.lists[i] != []
    requires s'.next == s.next && s'.size == s.size && g'.lists[i] == g.lists[i][1..] && s'.heads[i] == First(g.lists[i][1..])
    requires forall b :: b in g.place && b != g.lists[i][0] ==> b in g'.place && g'.place[b] == g.place[b]
    ensures BinOk(c, s', g', i)
  {
    var xs, ys := g.lists[i], g'.lists[i];
    forall k | 0 <= k < |ys|
      ensures ys[k] in s'.next && s'.next[ys[k]] == First(ys[k + 1..]) && InBin(c, s', g', i, ys[k])
    {
      assert ys[k] == xs[k + 1] && ys[k + 1..] == xs[k + 2..];
      assert InBin(c, s, g, i, xs[k + 1]);
    }
  }

  lemma HeaderIsPositive(c: Config)
    requires Legal(c)
    ensures HeaderSize(c) > 0 && HeaderSize(c) % c.alignment == 0
  {
    if c.alignment < 16 {
      AlignedSizes(c, 16);
    } else {
      Multiple(1, c.alignment);
    }
  }

  lemma EndWith(c: Config, blocks: seq<Block>, b: Block)
    requires Legal(c)
    ensures End(c, blocks + [b]) == End(c, blocks) + FullSize(c, b.size)
  {
    assert (blocks + [b])[..|blocks|] == blocks;
  }

  /** The next block is carved where the blocks end. */
  lemma Carve(c: Config, s: State, t: nat, g: Ledger)
    requires Structure(c, s, g) && Carves(c, s, t) && s.offset == End(c, g.blocks)
    ensures var size := s.threads[t].size;
      Structure(c, At(s, t, Checking(size, s.offset)).(offset := s.offset + FullSize(c, size)),
        Ledger(g.blocks + [Block(s.offset, size)], g.place[s.offset := Held(t)], g.lists))
  {
    var size := s.threads[t].size;
    var s' := At(s, t, Checking(size, s.offset)).(offset := s.offset + FullSize(c, size));
    var g' := Ledger(g.blocks + [Block(s.offset, size)], g.place[s.offset := Held(t)], g.lists);
    forall u | 0 <= u < |s'.threads| ensures ThreadOk(c, s', g', u) {
      CarvedThread(c, s, t, g, u);
    }
    forall x | x in g'.place ensures BlockOk(c, s', g', x) {
      CarvedBlock(c, s, t, g, x);
    }
    NothingAtTheEnd(c, s, g);
    forall i | 0 <= i < |g.lists| ensures BinOk(c, s', g', i) {
      assert BinOk(c, s, g, i);
      BinStays(c, s, g, s', g', i);
    }
  }

  lemma NothingAtTheEnd(c: Config, s: State, g: Ledger)
    requires Structure(c, s, g)
    ensures forall x :: x in g.place ==> x < End(c, g.blocks)
  {
    forall x | x in g.place ensures x < End(c, g.blocks) {
      assert BlockOk(c, s, g, x);
    }
  }

  lemma CarvedThread(c: Config, s: State, t: nat, g: Ledger, u: nat)
    requires Structure(c, s, g) && Carves(c, s, t) && s.offset == End(c, g.blocks) && u < |s.threads|
    ensures var size := s.threads[t].size;
      ThreadOk(c, At(s, t, Checking(size, s.offset)).(offset := s.offset + FullSize(c, size)),
        Ledger(g.blocks + [Block(s.offset, size)], g.place[s.offset := Held(t)], g.lists), u)
  {
    NothingAtTheEnd(c, s, g);
    KeepsBlocks(g.blocks, Block(s.offset, s.threads[t].size));
    assert ThreadOk(c, s, g, u);
  }

  lemma KeepsBlocks(blocks: seq<Block>, b: Block)
    ensures forall x :: x in blocks + [b] <==> x in blocks || x == b
  {
  }

  lemma CarvedBlock(c: Config, s: State, t: nat, g: Ledger, x: int)
    requires Structure(c, s, g) && Carves(c, s, t) && s.offset == End(c, g.blocks) && (x in g.place || x == s.offset)
    ensures var size := s.threads[t].size;
      BlockOk(c, At(s, t, Checking(size, s.offset)).(offset := s.offset + FullSize(c, size)),
        Ledger(g.blocks + [Block(s.offset, size)], g.place[s.offset := Held(t)], g.lists), x)
  {
    HeaderIsPositive(c);
    var b := Block(s.offset, s.threads[t].size);
    EndWith(c, g.blocks, b);
    KeepsBlocks(g.blocks, b);
    assert ThreadOk(c, s, g, t);
    if x in g.place {
      assert BlockOk(c, s, g, x);
    }
  }

  lemma WritesHeader(c: Config, s: State, t: nat, g: Ledger)
    requires Structure(c, s, g) && t < |s.threads| && Carving(c, s.threads[t])
    ensures var prev, size := s.threads[t].prev, s.threads[t].size;
      Structure(c, At(s, t, Counting(prev)).(size := s.size[prev := size], next := s.next[prev := Nothing]), g)
  {
    var prev, size := s.threads[t].prev, s.threads[t].size;
    var s' := At(s, t, Counting(prev)).(size := s.size[prev := size], next := s.next[prev := Nothing]);
    assert ThreadOk(c, s, g, t) && BlockOk(c, s, g, prev);
    forall u | 0 <= u < |s'.threads| ensures ThreadOk(c, s', g, u) {
      assert ThreadOk(c, s, g, u);
    }
    forall x | x in g.place ensures BlockOk(c, s', g, x) {
      assert BlockOk(c, s, g, x);
    }
    OtherLinks(c, s, s', g, prev);
  }

  /** The link of a block outside the bins may change. */
  lemma OtherLinks(c: Config, s: State, s': State, g: Ledger, b: int)
    requires Sized(c, s) && Sized(c, s') && |g.lists| == NumBins(c) && s'.heads == s.heads
    requires forall i :: 0 <= i < |g.lists| ==> BinOk(c, s, g, i)
    requires b in g.place && !g.place[b].Listed?
    requires forall x :: x in s.next && x != b ==> x in s'.next && s'.next[x] == s.next[x]
    requires forall x :: x in s.size && x != b ==> x in s'.size && s'.size[x] == s.size[x]
    ensures forall i :: 0 <= i < |g.lists| ==> BinOk(c, s', g, i)
  {
    forall i | 0 <= i < |g.lists| ensures BinOk(c, s', g, i) {
      assert BinOk(c, s, g, i);
      forall k | 0 <= k < |g.lists[i]|
        ensures InBin(c, s', g, i, g.lists[i][k])
        ensures g.lists[i][k] in s'.next && s'.next[g.lists[i][k]] == First(g.lists[i][k + 1..])
      {
        assert InBin(c, s, g, i, g.lists[i][k]);
      }
    }
  }

  lemma HandsOver(c: Config, s: State, t: nat, s': State, g: Ledger)
    requires Structure(c, s, g) && t < |s.threads| && s.threads[t].Counting?
    requires s' == At(s, t, Idle).(live := s.live + {s.threads[t].b}, allocatedBytes := s'.allocatedBytes)
    ensures Structure(c, s', g.(place := g.place[s.threads[t].b := Live]))
  {
    var b := s.threads[t].b;
    var g' := g.(place := g.place[b := Live]);
    assert ThreadOk(c, s, g, t) && BlockOk(c, s, g, b);
    forall u | 0 <= u < |s'.threads| ensures ThreadOk(c, s', g', u) {
      assert ThreadOk(c, s, g, u);
    }
    forall x | x in g'.place ensures BlockOk(c, s', g', x) {
      assert BlockOk(c, s, g, x);
    }
    forall i | 0 <= i < |g.lists| ensures BinOk(c, s', g', i) {
      assert BinOk(c, s, g, i);
      BinStays(c, s, g, s', g', i);
    }
  }

  predicate Freeing(pc: Thread) {
    pc.Linking? || pc.Pushing?
  }

  lemma FreedHasBin(c: Config, s: State, t: nat, g: Ledger)
    requires Structure(c, s, g) && t < |s.threads| && Freeing(s.threads[t])
    ensures var b := s.threads[t].b;
      b in s.size && b in s.next && BinSize(c, s.size[b]) && BinIndex(c, s.size[b]) < |s.heads| && b in g.place && g.place[b] == Held(t)
  {
    assert ThreadOk(c, s, g, t) && BlockOk(c, s, g, s.threads[t].b);
    BinsAndSizes(c, s.size[s.threads[t].b]);
  }

  lemma Links(c: Config, s: State, t: nat, link: Maybe<int>, g: Ledger)
    requires Structure(c, s, g) && t < |s.threads| && Freeing(s.threads[t])
    ensures Structure(c, At(s, t, Pushing(s.threads[t].b)).(next := s.next[s.threads[t].b := link]), g)
  {
    FreedHasBin(c, s, t, g);
    var b := s.threads[t].b;
    var s' := At(s, t, Pushing(b)).(next := s.next[b := link]);
    forall u | 0 <= u < |s'.threads| ensures ThreadOk(c, s', g, u) {
      assert ThreadOk(c, s, g, u);
    }
    forall x | x in g.place ensures BlockOk(c, s', g, x) {
      assert BlockOk(c, s, g, x);
    }
    OtherLinks(c, s, s', g, b);
  }

  /** A pusher's swap succeeds: the block becomes the top of its bin. */
  lemma Pushes(c: Config, s: State, t: nat, i: nat, g: Ledger)
    requires Structure(c, s, g) && t < |s.threads| && s.threads[t].Pushing?
    requires var b := s.threads[t].b;
      b in s.size && b in s.next && BinSize(c, s.size[b]) && i == BinIndex(c, s.size[b]) < |s.heads| && s.heads[i] == s.next[b]
    ensures var b := s.threads[t].b;
      Structure(c, At(s, t, Discounting(s.size[b])).(heads := s.heads[i := Just(b)]),
        g.(place := g.place[b := Listed(i)], lists := g.lists[i := [b] + g.lists[i]]))
  {
    FreedHasBin(c, s, t, g);
    var b := s.threads[t].b;
    var s' := At(s, t, Discounting(s.size[b])).(heads := s.heads[i := Just(b)]);
    var g' := g.(place := g.place[b := Listed(i)], lists := g.lists[i := [b] + g.lists[i]]);
    assert g'.lists[i][0] == b;
    forall u | 0 <= u < |s'.threads| ensures ThreadOk(c, s', g', u) {
      assert ThreadOk(c, s, g, u);
    }
    forall x | x in g'.place ensures BlockOk(c, s', g', x) {
      assert BlockOk(c, s, g, x);
    }
    forall j | 0 <= j < |g'.lists| ensures BinOk(c, s', g', j) {
      assert BinOk(c, s, g, j);
      if j == i {
        PushedBin(c, s, g, i, b, s', g');
      } else {
        assert forall k :: 0 <= k < |g.lists[j]| ==> InBin(c, s, g, j, g.lists[j][k]) ==> InBin(c, s', g', j, g.lists[j][k]);
      }
    }
  }

  lemma PushedBin(c: Config, s: State, g: Ledger, i: nat, b: int, s': State, g': Ledger)
    requires Sized(c, s) && Sized(c, s') && i < |g.lists| == |g'.lists| == NumBins(c) && BinOk(c, s, g, i)
    requires s'.next == s.next && s'.size == s.size && g'.lists[i] == [b] + g.lists[i] && s'.heads[i] == Just(b)
    requires b in g.place && g.place[b].Held? && b in s.next && s.next[b] == s.heads[i] && InBin(c, s', g', i, b)
    requires forall x :: x in g.place && x != b ==> x in g'.place && g'.place[x] == g.place[x]
    ensures BinOk(c, s', g', i)
  {
    var xs, ys := g.lists[i], g'.lists[i];
    forall k | 0 <= k < |xs| ensures xs[k] != b && InBin(c, s', g', i, xs[k]) {
      assert InBin(c, s, g, i, xs[k]);
    }
    forall k | 0 <= k < |ys|
      ensures ys[k] in s'.next && s'.next[ys[k]] == First(ys[k + 1..]) && InBin(c, s', g', i, ys[k])
    {
      assert ys[k + 1..] == xs[k..];
      if k > 0 {
        assert ys[k] == xs[k - 1];
      } else {
        assert xs[0..] == xs;
      }
    }
  }

  /** How a step changes the ledger. */
  function NextLedger(c: Config, s: State, t: nat, move: Move, g: Ledger): Ledger
    requires Sized(c, s) && Step(c, s, t, move).Just? && |g.lists| == NumBins(c)
  {
    match s.threads[t]
    case Idle => if move.Deallocate? then g.(place := g.place[move.b := Held(t)]) else g
    case Swapping(size, h, n) =>
      var i := BinIndex(c, size);
      if s.heads[i] != Just(h) || g.lists[i] == [] then g
      else g.(place := g.place[h := Held(t)], lists := g.lists[i := g.lists[i][1..]])
    case Bumping(size) =>
      if Fits(c, size, s.offset) then Ledger(g.blocks + [Block(s.offset, size)], g.place[s.offset := Held(t)], g.lists) else g
    case Counting(b) => g.(place := g.place[b := Live])
    case Pushing(b) =>
      var i := BinIndex(c, s.size[b]);
      if s.heads[i] != s.next[b] then g
      else g.(place := g.place[b := Listed(i)], lists := g.lists[i := [b] + g.lists[i]])
    case _ => g
  }

  lemma PopKeepsStructure(c: Config, s: State, t: nat, move: Move, g: Ledger)
    requires Structure(c, s, g) && t < |s.threads| && Step(c, s, t, move).Just?
    requires s.threads[t].Waiting? || s.threads[t].Locked? || s.threads[t].Reading? || s.threads[t].Swapping?
    ensures Structure(c, Step(c, s, t, move).value, NextLedger(c, s, t, move, g))
  {
    var s' := Step(c, s, t, move).value;
    var size := s.threads[t].size;
    var i := BinIndex(c, size);
    assert ThreadOk(c, s, g, t);
    assert BinOk(c, s, g, i);
    if s.threads[t].Swapping? && s.heads[i] == Just(s.threads[t].h) {
      Takes(c, s, t, i, g);
    } else {
      if s'.threads[t].Reading? {
        assert g.lists[i] != [];
        assert InBin(c, s, g, i, g.lists[i][0]);
      }
      MovesOnly(c, s, t, s', g);
    }
  }

  lemma BeginKeepsStructure(c: Config, s: State, t: nat, move: Move, g: Ledger)
    requires Structure(c, s, g) && t < |s.threads| && Step(c, s, t, move).Just? && s.threads[t].Idle?
    ensures Structure(c, Step(c, s, t, move).value, NextLedger(c, s, t, move, g))
  {
    if move.Allocate? {
      AlignedSizes(c, if move.n == 0 then 1 else move.n);
      MovesOnly(c, s, t, Step(c, s, t, move).value, g);
    } else {
      Deallocates(c, s, t, move.b, g);
    }
  }

  lemma BumpKeepsStructure(c: Config, s: State, t: nat, move: Move, g: Ledger)
    requires Structure(c, s, g) && t < |s.threads| && Step(c, s, t, move).Just?
    requires s.threads[t].Bumping? || s.threads[t].Checking? || s.threads[t].Undoing?
    requires Carves(c, s, t) ==> s.offset == End(c, g.blocks)
    ensures Structure(c, Step(c, s, t, move).value, NextLedger(c, s, t, move, g))
  {
    assert ThreadOk(c, s, g, t);
    if Carves(c, s, t) {
      Carve(c, s, t, g);
    } else if Carving(c, s.threads[t]) {
      WritesHeader(c, s, t, g);
    } else {
      MovesOnly(c, s, t, Step(c, s, t, move).value, g);
    }
  }

  lemma StepKeepsStructure(c: Config, s: State, t: nat, move: Move, g: Ledger)
    requires Structure(c, s, g) && Step(c, s, t, move).Just?
    requires Carves(c, s, t) ==> s.offset == End(c, g.blocks)
    ensures Structure(c, Step(c, s, t, move).value, NextLedger(c, s, t, move, g))
  {
    var s' := Step(c, s, t, move).value;
    match s.threads[t]
    case Idle => BeginKeepsStructure(c, s, t, move, g);
    case Counting(_) => HandsOver(c, s, t, s', g);
    case Linking(b) =>
      FreedHasBin(c, s, t, g);
      Links(c, s, t, s.heads[BinIndex(c, s.size[b])], g);
    case Pushing(b) =>
      FreedHasBin(c, s, t, g);
      var i := BinIndex(c, s.size[b]);
      if s.heads[i] == s.next[b] {
        Pushes(c, s, t, i, g);
      } else {
        Links(c, s, t, s.heads[i], g);
      }
    case Discounting(_) => MovesOnly(c, s, t, s', g);
    case Bumping(_) => BumpKeepsStructure(c, s, t, move, g);
    case Checking(_, _) => BumpKeepsStructure(c, s, t, move, g);
    case Undoing(_) => BumpKeepsStructure(c, s, t, move, g);
    case _ => PopKeepsStructure(c, s, t, move, g);
  }

  // ------------------------------------------------------------------ every step keeps layout and counts

  /** The offset changes by what the thread comes to owe, and by the block it carves. */
  lemma OffsetMoves(c: Config, s: State, t: nat, move: Move)
    requires Sized(c, s) && Step(c, s, t, move).Just?
    ensures var s' := Step(c, s, t, move).value;
      && t < |s.threads| == |s'.threads| && s'.threads == s.threads[t := s'.threads[t]]
      && s'.offset - s.offset == Overshoot(c, s'.threads[t]) - Overshoot(c, s.threads[t])
        + if Carves(c, s, t) then FullSize(c, s.threads[t].size) else 0
  {
  }

  lemma TileAtEnd(c: Config, blocks: seq<Block>, b: Block)
    requires Legal(c) && Tiled(c, blocks) && b.start == End(c, blocks) && BinSize(c, b.size)
    ensures Tiled(c, blocks + [b]) && End(c, blocks + [b]) == End(c, blocks) + FullSize(c, b.size)
  {
    var blocks' := blocks + [b];
    EndWith(c, blocks, b);
    forall k | 0 <= k < |blocks'|
      ensures BinSize(c, blocks'[k].size) && blocks'[k].start == End(c, blocks'[..k])
    {
      assert blocks'[..k] == blocks[..k];
    }
  }

  lemma StepKeepsLayout(c: Config, s: State, t: nat, move: Move, g: Ledger)
    requires Structure(c, s, g) && Layout(c, s, g) && Step(c, s, t, move).Just?
    requires Carves(c, s, t) ==> s.offset == End(c, g.blocks)
    ensures Layout(c, Step(c, s, t, move).value, NextLedger(c, s, t, move, g))
  {
    var s', g' := Step(c, s, t, move).value, NextLedger(c, s, t, move, g);
    assert ThreadOk(c, s, g, t);
    OffsetMoves(c, s, t, move);
    OvershootMoves(c, s.threads, t, s'.threads[t]);
    if Carves(c, s, t) {
      TileAtEnd(c, g.blocks, Block(s.offset, s.threads[t].size));
    } else {
      assert g'.blocks == g.blocks;
    }
  }

  lemma OwedMoves(size: map<int, nat>, threads: seq<Thread>, t: nat, pc: Thread)
    requires t < |threads|
    ensures Sum(AllOwed(size, threads[t := pc])) == Sum(AllOwed(size, threads)) - Owed(size, threads[t]) + Owed(size, pc)
  {
    assert AllOwed(size, threads[t := pc]) == AllOwed(size, threads)[t := Owed(size, pc)];
    SumUpdate(AllOwed(size, threads), t, Owed(size, pc));
  }

  lemma {:induction false} StartsGrow(c: Config, blocks: seq<Block>, i: nat, j: nat)
    requires Legal(c) && Tiled(c, blocks) && i < j < |blocks|
    ensures blocks[i].start + FullSize(c, blocks[i].size) <= blocks[j].start
    decreases j
  {
    var front := blocks[..j];
    assert front[..j - 1] == blocks[..j - 1];
    if i < j - 1 {
      StartsGrow(c, blocks, i, j - 1);
    }
  }

  /** Adding or removing one block changes the live bytes by its size. */
  lemma LiveMoves(c: Config, blocks: seq<Block>, live: set<int>, b: int, size: nat)
    requires Legal(c) && Tiled(c, blocks) && Block(b, size) in blocks && b !in live
    ensures Sum(LiveSizes(blocks, live + {b})) == Sum(LiveSizes(blocks, live)) + size
  {
    HeaderIsPositive(c);
    var k :| 0 <= k < |blocks| && blocks[k] == Block(b, size);
    forall j | 0 <= j < |blocks| && j != k ensures blocks[j].start != b {
      StartsGrow(c, blocks, if j < k then j else k, if j < k then k else j);
    }
    assert LiveSizes(blocks, live + {b}) == LiveSizes(blocks, live)[k := size];
    SumUpdate(LiveSizes(blocks, live), k, size);
  }

  lemma LiveGrows(blocks: seq<Block>, b: Block, live: set<int>)
    requires b.start !in live
    ensures Sum(LiveSizes(blocks + [b], live)) == Sum(LiveSizes(blocks, live))
  {
    assert LiveSizes(blocks + [b], live)[..|blocks|] == LiveSizes(blocks, live);
  }

  /** A header written where nobody looks changes no thread's debt. */
  lemma OwedSame(c: Config, s: State, g: Ledger, prev: int, size: nat)
    requires Structure(c, s, g) && prev !in s.size
    ensures AllOwed(s.size[prev := size], s.threads) == AllOwed(s.size, s.threads)
  {
    forall u | 0 <= u < |s.threads| ensures Owed(s.size[prev := size], s.threads[u]) == Owed(s.size, s.threads[u]) {
      if Freeing(s.threads[u]) {
        FreedHasBin(c, s, u, g);
      }
    }
  }

  /** The bytes a step hands to a client, or takes from one. */
  function ClientGain(s: State, t: nat, move: Move): int
    requires t < |s.threads|
  {
    match s.threads[t]
    case Counting(b) => if b in s.size then s.size[b] else 0
    case Idle => if move.Deallocate? && move.b in s.size then -(s.size[move.b] as int) else 0
    case _ => 0
  }

  /** The counter changes by what the thread comes to owe and by what clients gain or lose. */
  lemma BytesMove(c: Config, s: State, t: nat, move: Move, g: Ledger)
    requires Structure(c, s, g) && Step(c, s, t, move).Just?
    ensures var s' := Step(c, s, t, move).value;
      && t < |s'.threads| == |s.threads| && s'.threads == s.threads[t := s'.threads[t]]
      && s'.allocatedBytes - s.allocatedBytes == Owed(s.size, s'.threads[t]) - Owed(s.size, s.threads[t])
        + ClientGain(s, t, move)
      && (Carving(c, s.threads[t]) || s'.size == s.size)
  {
    assert ThreadOk(c, s, g, t);
    if s.threads[t].Idle? && move.Deallocate? {
      assert BlockOk(c, s, g, move.b);
    } else if Freeing(s.threads[t]) {
      FreedHasBin(c, s, t, g);
    }
  }

  /** A block is handed over by the step that counts it and given back by the call that frees it. */
  function NextLive(s: State, t: nat, move: Move): set<int>
    requires t < |s.threads|
  {
    match s.threads[t]
    case Counting(b) => s.live + {b}
    case Idle => if move.Deallocate? then s.live - {move.b} else s.live
    case _ => s.live
  }

  ghost function NextBlocks(c: Config, s: State, t: nat, g: Ledger): seq<Block>
    requires Legal(c)
  {
    if Carves(c, s, t) then g.blocks + [Block(s.offset, s.threads[t].size)] else g.blocks
  }

  lemma LiveMovesOn(c: Config, s: State, t: nat, move: Move, g: Ledger)
    requires Structure(c, s, g) && Step(c, s, t, move).Just?
    ensures Step(c, s, t, move).value.live == NextLive(s, t, move)
    ensures NextLedger(c, s, t, move, g).blocks == NextBlocks(c, s, t, g)
  {
  }

  lemma LiveKeepsCount(c: Config, s: State, t: nat, move: Move, g: Ledger)
    requires Structure(c, s, g) && Layout(c, s, g) && t < |s.threads|
    requires Carves(c, s, t) ==> s.offset == End(c, g.blocks)
    requires s.threads[t].Idle? && move.Deallocate? ==> move.b in s.live
    ensures Sum(LiveSizes(NextBlocks(c, s, t, g), NextLive(s, t, move))) == Sum(LiveSizes(g.blocks, s.live)) + ClientGain(s, t, move)
  {
    if s.threads[t].Counting? {
      HandoverCounts(c, s, t, g);
    } else if s.threads[t].Idle? && move.Deallocate? {
      ReleaseCounts(c, s, move.b, g);
    } else if Carves(c, s, t) {
      NothingAtTheEnd(c, s, g);
      LiveGrows(g.blocks, Block(s.offset, s.threads[t].size), s.live);
    }
  }

  lemma HandoverCounts(c: Config, s: State, t: nat, g: Ledger)
    requires Structure(c, s, g) && Layout(c, s, g) && t < |s.threads| && s.threads[t].Counting?
    ensures var b := s.threads[t].b;
      b in s.size && Sum(LiveSizes(g.blocks, s.live + {b})) == Sum(LiveSizes(g.blocks, s.live)) + s.size[b]
  {
    var b := s.threads[t].b;
    assert ThreadOk(c, s, g, t) && BlockOk(c, s, g, b);
    LiveMoves(c, g.blocks, s.live, b, s.size[b]);
  }

  lemma ReleaseCounts(c: Config, s: State, b: int, g: Ledger)
    requires Structure(c, s, g) && Layout(c, s, g) && b in s.live
    ensures b in s.size && Sum(LiveSizes(g.blocks, s.live - {b})) == Sum(LiveSizes(g.blocks, s.live)) - s.size[b]
  {
    assert BlockOk(c, s, g, b);
    LiveMoves(c, g.blocks, s.live - {b}, b, s.size[b]);
    assert s.live - {b} + {b} == s.live;
  }

  lemma StepKeepsCount(c: Config, s: State, t: nat, move: Move, g: Ledger)
    requires Structure(c, s, g) && Layout(c, s, g) && Counted(s, g) && Step(c, s, t, move).Just?
    requires Carves(c, s, t) ==> s.offset == End(c, g.blocks)
    ensures Counted(Step(c, s, t, move).value, NextLedger(c, s, t, move, g))
  {
    var s' := Step(c, s, t, move).value;
    BytesMove(c, s, t, move, g);
    LiveMovesOn(c, s, t, move, g);
    LiveKeepsCount(c, s, t, move, g);
    OwedMoves(s.size, s.threads, t, s'.threads[t]);
    if Carving(c, s.threads[t]) {
      assert ThreadOk(c, s, g, t);
      OwedSame(c, s, g, s.threads[t].prev, s.threads[t].size);
      OwedMoves(s'.size, s.threads, t, s'.threads[t]);
    }
  }

  // ------------------------------------------------------------------ runs

  /** A state with a ledger that explains it. */
  ghost predicate Good(c: Config, s: State) {
    exists g :: Inv(c, s, g)
  }

  ghost predicate Follows(c: Config, s: State, t: nat, move: Move, s': State) {
    Sized(c, s) && Step(c, s, t, move) == Just(s')
  }

  /** A step that does not carve past a pending overshoot keeps the invariant. */
  lemma StepKeepsInv(c: Config, s: State, t: nat, move: Move, s': State, g: Ledger)
    requires Inv(c, s, g) && Follows(c, s, t, move, s') && Calm(c, s, t)
    ensures Inv(c, s', NextLedger(c, s, t, move, g))
  {
    if Carves(c, s, t) {
      CarvesAtTheEnd(c, s, g);
    }
    StepKeepsStructure(c, s, t, move, g);
    StepKeepsLayout(c, s, t, move, g);
    StepKeepsCount(c, s, t, move, g);
  }

  lemma StepKeepsGood(c: Config, s: State, t: nat, move: Move, s': State)
    requires Good(c, s) && Follows(c, s, t, move, s') && Calm(c, s, t)
    ensures Good(c, s')
  {
    var g :| Inv(c, s, g);
    StepKeepsInv(c, s, t, move, s', g);
  }

  lemma InitialIsGood(c: Config, n: nat)
    requires Legal(c)
    ensures Good(c, Initial(c, n))
  {
    var s, g := Initial(c, n), Ledger([], map[], seq(NumBins(c), _ => []));
    SumZero(Overshoots(c, s.threads));
    SumZero(AllOwed(s.size, s.threads));
    SumZero(LiveSizes(g.blocks, s.live));
    forall t | 0 <= t < |s.threads| ensures ThreadOk(c, s, g, t) {
    }
    forall i | 0 <= i < |g.lists| ensures BinOk(c, s, g, i) {
    }
    assert Inv(c, s, g);
  }

  /** The schedule never carves past a pending overshoot. */
  ghost predicate CalmPlay(c: Config, s: State, sched: seq<(nat, Move)>)
    requires Sized(c, s)
    decreases |sched|
  {
    sched != [] && Step(c, s, sched[0].0, sched[0].1).Just? ==>
      Calm(c, s, sched[0].0) && CalmPlay(c, After(c, s, sched[0].0, sched[0].1), sched[1..])
  }

  /** Whatever a calm schedule leads to is good, under every interleaving of pushes, pops and carvings. */
  lemma {:induction false} CalmPlayStaysGood(c: Config, s: State, sched: seq<(nat, Move)>)
    requires Sized(c, s) && Good(c, s) && CalmPlay(c, s, sched) && Play(c, s, sched).Just?
    ensures Good(c, Play(c, s, sched).value)
    decreases |sched|
  {
    if sched != [] {
      var s' := After(c, s, sched[0].0, sched[0].1);
      StepKeepsGood(c, s, sched[0].0, sched[0].1, s');
      CalmPlayStaysGood(c, s', sched[1..]);
    }
  }

  // ------------------------------------------------------------------ what this means

  /** The range of the buffer that a block takes, header included. */
  predicate Apart(c: Config, a: int, sizeA: nat, b: int, sizeB: nat)
    requires Legal(c)
  {
    a + FullSize(c, sizeA) <= b || b + FullSize(c, sizeB) <= a
  }

  lemma {:induction false} EndGrows(c: Config, blocks: seq<Block>, k: nat)
    requires Legal(c) && Tiled(c, blocks) && k < |blocks|
    ensures 0 <= blocks[k].start && blocks[k].start + FullSize(c, blocks[k].size) <= End(c, blocks)
    ensures blocks[k].start % c.alignment == 0
    decreases |blocks| - k
  {
    var n := |blocks| - 1;
    if k < n {
      StartsGrow(c, blocks, k, n);
    }
    EndAligned(c, blocks[..k]);
    assert forall j :: 0 <= j < k ==> blocks[..k][..j] == blocks[..j];
  }

  lemma {:induction false} EndAligned(c: Config, blocks: seq<Block>)
    requires Legal(c) && forall k :: 0 <= k < |blocks| ==> BinSize(c, blocks[k].size)
    ensures End(c, blocks) % c.alignment == 0
    decreases |blocks|
  {
    if blocks != [] {
      var n := |blocks| - 1;
      EndAligned(c, blocks[..n]);
      HeaderIsPositive(c);
      SumOfMultiples(End(c, blocks[..n]), blocks[n].size, c.alignment);
      SumOfMultiples(End(c, blocks[..n]) + blocks[n].size, HeaderSize(c), c.alignment);
    }
  }

  lemma SumOfMultiples(x: nat, y: nat, a: nat)
    requires a > 0 && x % a == 0 && y % a == 0
    ensures (x + y) % a == 0
  {
    assert x == x / a * a && y == y / a * a;
    assert x + y == (x / a + y / a) * a;
    Multiple(x / a + y / a, a);
  }

  /** A header belongs to a block of the ledger. */
  lemma HeaderIsListed(c: Config, s: State, g: Ledger, b: int) returns (k: nat)
    requires Inv(c, s, g) && b in s.size
    ensures k < |g.blocks| && g.blocks[k] == Block(b, s.size[b])
  {
    assert BlockOk(c, s, g, b);
    k :| 0 <= k < |g.blocks| && g.blocks[k] == Block(b, s.size[b]);
  }

  lemma HeaderIsInside(c: Config, s: State, g: Ledger, b: int)
    requires Inv(c, s, g) && b in s.size
    ensures 0 <= b && b % c.alignment == 0 && b + FullSize(c, s.size[b]) <= c.memory
  {
    var k := HeaderIsListed(c, s, g, b);
    EndGrows(c, g.blocks, k);
  }

  lemma HeadersAreApart(c: Config, s: State, g: Ledger, a: int, b: int)
    requires Inv(c, s, g) && a in s.size && b in s.size && a != b
    ensures Apart(c, a, s.size[a], b, s.size[b])
  {
    var j := HeaderIsListed(c, s, g, a);
    var k := HeaderIsListed(c, s, g, b);
    StartsGrow(c, g.blocks, if j < k then j else k, if j < k then k else j);
  }

  lemma LiveIsNotListed(c: Config, s: State, g: Ledger, b: int)
    requires Structure(c, s, g) && b in s.live
    ensures b in s.size && g.place[b].Live? && forall i :: 0 <= i < |g.lists| ==> b !in g.lists[i]
  {
    assert BlockOk(c, s, g, b);
    forall i | 0 <= i < |g.lists| ensures b !in g.lists[i] {
      assert BinOk(c, s, g, i);
      forall k | 0 <= k < |g.lists[i]| ensures g.lists[i][k] != b {
        assert InBin(c, s, g, i, g.lists[i][k]);
      }
    }
  }

  lemma HandIsHeld(c: Config, s: State, g: Ledger, t: nat)
    requires Structure(c, s, g) && t < |s.threads|
    ensures Hand(c, s.threads[t]).Just? ==> Hand(c, s.threads[t]).value in g.place && g.place[Hand(c, s.threads[t]).value] == Held(t)
  {
    assert ThreadOk(c, s, g, t);
  }

  /** In a good state, blocks with headers are aligned, inside the buffer and apart from each other,
      and a block a client holds is in no bin and in no thread's hands. */
  lemma GoodStateIsSafe(c: Config, s: State, g: Ledger)
    requires Inv(c, s, g)
    ensures forall b :: b in s.size ==> 0 <= b && b % c.alignment == 0 && b + FullSize(c, s.size[b]) <= c.memory
    ensures forall a, b :: a in s.size && b in s.size && a != b ==> Apart(c, a, s.size[a], b, s.size[b])
    ensures s.live <= s.size.Keys
    ensures forall b, i :: b in s.live && 0 <= i < |g.lists| ==> b !in g.lists[i]
    ensures forall b, t :: b in s.live && 0 <= t < |s.threads| ==> Hand(c, s.threads[t]) != Just(b)
    ensures forall t, u :: 0 <= t < u < |s.threads| && Hand(c, s.threads[t]).Just? ==> Hand(c, s.threads[t]) != Hand(c, s.threads[u])
  {
    forall b | b in s.size ensures 0 <= b && b % c.alignment == 0 && b + FullSize(c, s.size[b]) <= c.memory {
      HeaderIsInside(c, s, g, b);
    }
    forall a, b | a in s.size && b in s.size && a != b ensures Apart(c, a, s.size[a], b, s.size[b]) {
      HeadersAreApart(c, s, g, a, b);
    }
    OwnersAreUnique(c, s, g);
  }

  lemma OwnersAreUnique(c: Config, s: State, g: Ledger)
    requires Structure(c, s, g)
    ensures s.live <= s.size.Keys
    ensures forall b, i :: b in s.live && 0 <= i < |g.lists| ==> b !in g.lists[i]
    ensures forall b, t :: b in s.live && 0 <= t < |s.threads| ==> Hand(c, s.threads[t]) != Just(b)
    ensures forall t, u :: 0 <= t < u < |s.threads| && Hand(c, s.threads[t]).Just? ==> Hand(c, s.threads[t]) != Hand(c, s.threads[u])
  {
    forall b | b in s.live ensures b in s.size && g.place[b].Live? && forall i :: 0 <= i < |g.lists| ==> b !in g.lists[i] {
      LiveIsNotListed(c, s, g, b);
    }
    forall t | 0 <= t < |s.threads|
      ensures Hand(c, s.threads[t]).Just? ==> Hand(c, s.threads[t]).value in g.place && g.place[Hand(c, s.threads[t]).value] == Held(t)
    {
      HandIsHeld(c, s, g, t);
    }
  }

  /** With all threads idle, the offset is the total size of the carved blocks, and the counter is
      the total of the sizes that clients hold. */
  lemma QuiescentCounts(c: Config, s: State, g: Ledger)
    requires Inv(c, s, g) && forall t :: 0 <= t < |s.threads| ==> s.threads[t].Idle?
    ensures s.offset == End(c, g.blocks) && s.allocatedBytes == Sum(LiveSizes(g.blocks, s.live))
  {
    SumZero(Overshoots(c, s.threads));
    SumZero(AllOwed(s.size, s.threads));
  }

  /** With all threads idle, the blocks that were carved are those with headers, and each of them is
      with a client or in a bin. */
  lemma QuiescentBlocks(c: Config, s: State, g: Ledger, b: int)
    requires Structure(c, s, g) && forall t :: 0 <= t < |s.threads| ==> s.threads[t].Idle?
    ensures b in s.size <==> exists k :: 0 <= k < |g.blocks| && g.blocks[k].start == b
    ensures b in s.size ==> b in s.live || exists i :: 0 <= i < |g.lists| && b in g.lists[i]
  {
    if b in g.place {
      assert BlockOk(c, s, g, b);
      if g.place[b].Listed? {
        var i := g.place[b].i;
        assert BinOk(c, s, g, i);
        var j :| 0 <= j < |g.lists[i]| && g.lists[i][j] == b;
        assert InBin(c, s, g, i, g.lists[i][j]);
      }
      var k :| 0 <= k < |g.blocks| && g.blocks[k] == Block(b, s.size[b]);
      assert g.blocks[k].start == b;
    }
  }
}
