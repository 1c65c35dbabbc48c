/** Freed blocks are used again: a thread goes on to carve only if it has just found the bin empty,
    and one that allocates undisturbed gets the top of a bin that is not. */
module AllocatorReuse {
  import opened Allocator
  import opened AllocatorSafety
  import opened Wrappers

  // ------------------------------------------------------------------ when a thread looks into a bin

  /** The next step of the thread looks at the head of its bin: it has just got the lock, or finds
      that the head it wants to swap has changed. */
  predicate Looks(c: Config, s: State, t: nat)
    requires Sized(c, s)
  {
    t < |s.threads| && RequestOk(c, s.threads[t]) &&
    match s.threads[t]
    case Locked(_) => true
    case Swapping(size, h, _) => BinIndex(c, size) < |s.heads| && s.heads[BinIndex(c, size)] != Just(h)
    case _ => false
  }

  /** A thread that looks goes on to carve if and only if the bin is empty; otherwise it goes for the
      top of the bin. */
  lemma CarvesIffEmpty(c: Config, s: State, t: nat, move: Move, s': State, g: Ledger)
    requires Structure(c, s, g) && Follows(c, s, t, move, s') && Looks(c, s, t)
    ensures var i := BinIndex(c, s.threads[t].size);
      i < |g.lists| && t < |s'.threads| &&
      if g.lists[i] == [] then s'.threads[t] == Bumping(s.threads[t].size) else s'.threads[t] == Reading(s.threads[t].size, g.lists[i][0])
  {
    BinsAndSizes(c, s.threads[t].size);
    assert BinOk(c, s, g, BinIndex(c, s.threads[t].size));
  }

  /** At this step the thread looks into its bin, finds it empty and goes on to carve. */
  ghost predicate FindsEmpty(c: Config, s: State, t: nat, size: nat) {
    && Sized(c, s) && Looks(c, s, t) && s.threads[t].size == size
    && BinIndex(c, size) < |s.heads| && s.heads[BinIndex(c, size)].Nothing?
  }

  /** The step that makes a thread carve is its own look into an empty bin. */
  lemma StartsToCarve(c: Config, s: State, t: nat, move: Move, s': State, u: nat)
    requires Follows(c, s, t, move, s') && u < |s'.threads| && s'.threads[u].Bumping?
    ensures u < |s.threads| && (s.threads[u] == s'.threads[u] || (u == t && FindsEmpty(c, s, t, s'.threads[u].size)))
  {
    OthersStay(c, s, t, move, s');
  }

  lemma OthersStay(c: Config, s: State, t: nat, move: Move, s': State)
    requires Follows(c, s, t, move, s')
    ensures t < |s.threads| == |s'.threads| && forall u :: 0 <= u < |s.threads| && u != t ==> s'.threads[u] == s.threads[u]
  {
  }

  /** The states a schedule goes through. */
  ghost predicate IsRun(c: Config, run: seq<State>, sched: seq<(nat, Move)>) {
    |run| == |sched| + 1 && forall i :: 0 <= i < |sched| ==> Follows(c, run[i], sched[i].0, sched[i].1, run[i + 1])
  }

  ghost predicate KeepsDoing(run: seq<State>, t: nat, pc: Thread, from: nat, to: nat) {
    forall k :: from <= k <= to && k < |run| ==> t < |run[k].threads| && run[k].threads[t] == pc
  }

  /** In every run, a thread that is about to carve has looked into its bin and found it empty at
      step `i`, and has been on its way to carve ever since. */
  lemma {:induction false} CarvingFoundEmpty(c: Config, run: seq<State>, sched: seq<(nat, Move)>, j: nat, t: nat) returns (i: nat)
    requires IsRun(c, run, sched) && j < |run|
    requires t < |run[0].threads| ==> !run[0].threads[t].Bumping?
    requires t < |run[j].threads| && run[j].threads[t].Bumping?
    ensures i < j && sched[i].0 == t && FindsEmpty(c, run[i], t, run[j].threads[t].size)
    ensures KeepsDoing(run, t, run[j].threads[t], i + 1, j)
    decreases j
  {
    var s, s' := run[j - 1], run[j];
    assert Follows(c, s, sched[j - 1].0, sched[j - 1].1, s');
    StartsToCarve(c, s, sched[j - 1].0, sched[j - 1].1, s', t);
    if s.threads[t] == s'.threads[t] {
      i := CarvingFoundEmpty(c, run, sched, j - 1, t);
    } else {
      i := j - 1;
    }
  }

  // ------------------------------------------------------------------ allocating undisturbed

  function Proceeds(t: nat, n: nat): seq<(nat, Move)> {
    if n == 0 then [] else [(t, Proceed)] + Proceeds(t, n - 1)
  }

  ghost predicate Leads(c: Config, s: State, sched: seq<(nat, Move)>, s': State) {
    Sized(c, s) && Play(c, s, sched) == Just(s')
  }

  lemma OneMore(c: Config, s: State, t: nat, move: Move, s1: State, rest: seq<(nat, Move)>, s': State)
    requires Follows(c, s, t, move, s1) && Leads(c, s1, rest, s')
    ensures Leads(c, s, [(t, move)] + rest, s')
  {
    assert ([(t, move)] + rest)[1..] == rest;
  }

  lemma TwoMore(c: Config, s: State, t: nat, s1: State, s2: State, n: nat, s': State)
    requires Follows(c, s, t, Proceed, s1) && Follows(c, s1, t, Proceed, s2) && Leads(c, s2, Proceeds(t, n), s')
    ensures Leads(c, s, Proceeds(t, n + 2), s')
  {
    OneMore(c, s1, t, Proceed, s2, Proceeds(t, n), s');
    OneMore(c, s, t, Proceed, s1, Proceeds(t, n + 1), s');
  }

  lemma Nowhere(c: Config, s: State, t: nat)
    requires Sized(c, s)
    ensures Leads(c, s, Proceeds(t, 0), s)
  {
  }

  /** Thread `t` is idle, the size has a bin, and nobody holds its lock. */
  ghost predicate Undisturbed(c: Config, s: State, t: nat, size: nat) {
    && Sized(c, s) && t < |s.threads| && s.threads[t].Idle? && BinSize(c, size) && BinIndex(c, size) < |s.locks|
    && s.locks[BinIndex(c, size)].Nothing?
  }

  /** The block a request for this size ends with, if any: the top of the bin, or else the next bytes of the buffer. */
  function Gets(c: Config, s: State, size: nat): Maybe<int>
    requires Sized(c, s) && BinSize(c, size) && BinIndex(c, size) < |s.heads|
  {
    if s.heads[BinIndex(c, size)].Just? then s.heads[BinIndex(c, size)]
    else if Fits(c, size, s.offset) then Just(s.offset)
    else Nothing
  }

  /** The state after the request: a block from the bin leaves the offset alone, a new one is carved
      at the offset, and without one nothing has changed. */
  ghost function Served(c: Config, s: State, size: nat): State
    requires Sized(c, s) && BinSize(c, size) && BinIndex(c, size) < |s.heads|
    requires var h := s.heads[BinIndex(c, size)]; h.Just? ==> h.value in s.next
  {
    var i, b := BinIndex(c, size), Gets(c, s, size);
    if b.Nothing? then s
    else
      var s' := s.(live := s.live + {b.value}, allocatedBytes := s.allocatedBytes + size);
      if s.heads[i].Just? then s'.(heads := s.heads[i := s.next[b.value]])
      else s'.(offset := s.offset + FullSize(c, size), size := s.size[b.value := size], next := s.next[b.value := Nothing])
  }

  /** The thread holds the lock of its bin and is about to look at the head. */
  function WithLock(c: Config, s: State, t: nat, size: nat): State
    requires Undisturbed(c, s, t, size)
  {
    At(s, t, Locked(size)).(locks := s.locks[BinIndex(c, size) := Just(t)])
  }

  lemma GetsLock(c: Config, s: State, t: nat, n: nat, s': State)
    requires Legal(c) && Undisturbed(c, s, t, SizeToAligned(c, if n == 0 then 1 else n))
    requires Leads(c, WithLock(c, s, t, SizeToAligned(c, if n == 0 then 1 else n)), Proceeds(t, 4), s')
    ensures Leads(c, s, [(t, Allocate(n))] + Proceeds(t, 5), s')
  {
    var size := SizeToAligned(c, if n == 0 then 1 else n);
    var s1, s2 := At(s, t, Waiting(size)), WithLock(c, s, t, size);
    assert s1.threads[t := Locked(size)] == s2.threads;
    OneMore(c, s1, t, Proceed, s2, Proceeds(t, 4), s');
    OneMore(c, s, t, Allocate(n), s1, Proceeds(t, 5), s');
  }

  /** A bin that is not empty gives its top. */
  lemma TakesTop(c: Config, s: State, t: nat, size: nat, h: int)
    requires Undisturbed(c, s, t, size) && s.heads[BinIndex(c, size)] == Just(h)
    requires h in s.next && h in s.size && s.size[h] == size
    ensures Leads(c, WithLock(c, s, t, size), Proceeds(t, 4), Served(c, s, size))
  {
    var i, s2, s' := BinIndex(c, size), WithLock(c, s, t, size), Served(c, s, size);
    var s3, s4 := At(s2, t, Reading(size, h)), At(s2, t, Swapping(size, h, s.next[h]));
    var s5 := At(s, t, Counting(h)).(heads := s.heads[i := s.next[h]]);
    assert s3.threads[t := Swapping(size, h, s.next[h])] == s4.threads;
    assert s4.threads[t := Counting(h)] == s5.threads && s4.locks[i := Nothing] == s.locks;
    assert s5.threads[t := Idle] == s.threads;
    Nowhere(c, s', t);
    TwoMore(c, s4, t, s5, s', 0, s');
    TwoMore(c, s2, t, s3, s4, 2, s');
  }

  lemma CarvesNew(c: Config, s: State, t: nat, size: nat)
    requires Undisturbed(c, s, t, size) && s.heads[BinIndex(c, size)].Nothing? && Fits(c, size, s.offset)
    ensures Leads(c, WithLock(c, s, t, size), Proceeds(t, 4), Served(c, s, size))
  {
    var i, s2, s', o := BinIndex(c, size), WithLock(c, s, t, size), Served(c, s, size), s.offset;
    var s3 := At(s, t, Bumping(size));
    var s4 := At(s, t, Checking(size, o)).(offset := o + FullSize(c, size));
    var s5 := At(s4, t, Counting(o)).(size := s.size[o := size], next := s.next[o := Nothing]);
    assert s2.threads[t := Bumping(size)] == s3.threads && s2.locks[i := Nothing] == s.locks;
    assert s3.threads[t := Checking(size, o)] == s4.threads && s5.threads[t := Idle] == s.threads;
    Nowhere(c, s', t);
    TwoMore(c, s4, t, s5, s', 0, s');
    TwoMore(c, s2, t, s3, s4, 2, s');
  }

  lemma FindsNoRoom(c: Config, s: State, t: nat, size: nat)
    requires Undisturbed(c, s, t, size) && s.heads[BinIndex(c, size)].Nothing? && !Fits(c, size, s.offset)
    ensures Leads(c, WithLock(c, s, t, size), Proceeds(t, 4), s)
  {
    var i, s2, o := BinIndex(c, size), WithLock(c, s, t, size), s.offset;
    var s3 := At(s, t, Bumping(size));
    var s4 := At(s, t, Checking(size, o)).(offset := o + FullSize(c, size));
    var s5 := At(s4, t, Undoing(size));
    assert s2.threads[t := Bumping(size)] == s3.threads && s2.locks[i := Nothing] == s.locks;
    assert s3.threads[t := Checking(size, o)] == s4.threads && s5.threads[t := Idle] == s.threads;
    Nowhere(c, s, t);
    TwoMore(c, s4, t, s5, s, 0, s);
    TwoMore(c, s2, t, s3, s4, 2, s);
  }

  /** A request that no other thread disturbs ends after five steps with a block if and only if the
      bin is not empty or there is room behind the offset; from a bin that is not empty it takes the
      top, which holds the size, and leaves the offset alone. */
  lemma AllocatesAlone(c: Config, s: State, t: nat, n: nat, g: Ledger)
    requires Structure(c, s, g) && Undisturbed(c, s, t, SizeToAligned(c, if n == 0 then 1 else n))
    ensures var size := SizeToAligned(c, if n == 0 then 1 else n);
      var i, b := BinIndex(c, size), Gets(c, s, size);
      && i < |g.lists| && (s.heads[i].Just? ==> s.heads[i].value in s.next)
      && Leads(c, s, [(t, Allocate(n))] + Proceeds(t, 5), Served(c, s, size))
      && (b.Just? <==> g.lists[i] != [] || s.offset + FullSize(c, size) <= c.memory)
      && (g.lists[i] != [] ==> b == Just(g.lists[i][0]) && Served(c, s, size).offset == s.offset)
      && (b.Just? ==> b.value in Served(c, s, size).live && b.value in Served(c, s, size).size && Served(c, s, size).size[b.value] == size)
  {
    var size := SizeToAligned(c, if n == 0 then 1 else n);
    var i := BinIndex(c, size);
    BinsAndSizes(c, size);
    assert BinOk(c, s, g, i);
    if g.lists[i] != [] {
      assert InBin(c, s, g, i, g.lists[i][0]);
      SameBinSameSize(c, s.size[g.lists[i][0]], size);
      TakesTop(c, s, t, size, g.lists[i][0]);
    } else if Fits(c, size, s.offset) {
      CarvesNew(c, s, t, size);
    } else {
      FindsNoRoom(c, s, t, size);
    }
    GetsLock(c, s, t, n, Served(c, s, size));
  }

  lemma SameBinSameSize(c: Config, a: nat, b: nat)
    requires BinSize(c, a) && BinSize(c, b) && BinIndex(c, a) == BinIndex(c, b)
    ensures a == b
  {
    BinsAndSizes(c, a);
    BinsAndSizes(c, b);
  }

  // ------------------------------------------------------------------ freeing and allocating again

  /** The state after an undisturbed deallocation: the block is the top of its bin. */
  ghost function Freed(c: Config, s: State, b: int): State
    requires Sized(c, s) && b in s.size && BinSize(c, s.size[b]) && BinIndex(c, s.size[b]) < |s.heads|
  {
    var i := BinIndex(c, s.size[b]);
    s.(live := s.live - {b}, heads := s.heads[i := Just(b)], next := s.next[b := s.heads[i]], allocatedBytes := s.allocatedBytes - s.size[b])
  }

  lemma DeallocatesAlone(c: Config, s: State, t: nat, b: int, g: Ledger)
    requires Structure(c, s, g) && t < |s.threads| && s.threads[t].Idle? && b in s.live
    ensures b in s.size && BinSize(c, s.size[b]) && BinIndex(c, s.size[b]) < |s.heads|
    ensures Leads(c, s, [(t, Deallocate(b))] + Proceeds(t, 3), Freed(c, s, b))
  {
    assert BlockOk(c, s, g, b);
    BinsAndSizes(c, s.size[b]);
    var size, i, s' := s.size[b], BinIndex(c, s.size[b]), Freed(c, s, b);
    var s1 := At(s, t, Linking(b)).(live := s.live - {b});
    var s2 := At(s1, t, Pushing(b)).(next := s.next[b := s.heads[i]]);
    var s3 := At(s2, t, Discounting(size)).(heads := s.heads[i := Just(b)]);
    assert s1.threads[t := Pushing(b)] == s2.threads && s2.threads[t := Discounting(size)] == s3.threads && s3.threads[t := Idle] == s.threads;
    Nowhere(c, s', t);
    OneMore(c, s3, t, Proceed, s', Proceeds(t, 0), s');
    TwoMore(c, s1, t, s2, s3, 1, s');
    OneMore(c, s, t, Deallocate(b), s1, Proceeds(t, 3), s');
  }

  /** Whoever frees a block and asks for as many bytes again gets that block; everything else is as
      before the two calls. */
  lemma FreedIsReused(c: Config, s: State, t: nat, b: int, n: nat, g: Ledger)
    requires Structure(c, s, g) && t < |s.threads| && s.threads[t].Idle? && b in s.live && b in s.size
    requires s.size[b] == SizeToAligned(c, if n == 0 then 1 else n) && Undisturbed(c, s, t, s.size[b])
    ensures Leads(c, s, [(t, Deallocate(b))] + Proceeds(t, 3), Freed(c, s, b)) && Gets(c, Freed(c, s, b), s.size[b]) == Just(b)
    ensures Leads(c, Freed(c, s, b), [(t, Allocate(n))] + Proceeds(t, 5), s.(next := s.next[b := s.heads[BinIndex(c, s.size[b])]]))
  {
    DeallocatesAlone(c, s, t, b, g);
    var s', size, i := Freed(c, s, b), s.size[b], BinIndex(c, s.size[b]);
    TakesTop(c, s', t, size, b);
    assert s.live - {b} + {b} == s.live && s'.heads[i := s.heads[i]] == s.heads;
    GetsLock(c, s', t, n, Served(c, s', size));
  }
}
