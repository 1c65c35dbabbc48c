/** The binned allocator as a machine of atomic steps: any number of threads allocate and
    deallocate; each bin is a stack that is pushed without a lock and popped under one; new blocks
    are carved off a shared buffer by adding to an offset and giving back what overshoots. */
module Allocator {
  import opened Wrappers

  datatype Config = Config(memory: nat, alignment: nat, maxSize: nat)

  predicate Legal(c: Config) {
    c.alignment > 0 && c.maxSize >= c.alignment && c.maxSize % c.alignment == 0
  }

  function SizeToAligned(c: Config, n: nat): nat
    requires Legal(c)
  {
    (n + c.alignment - 1) / c.alignment * c.alignment
  }

  /** The header holds a link and a size, eight bytes each. */
  function HeaderSize(c: Config): nat
    requires Legal(c)
  {
    if c.alignment < 16 then SizeToAligned(c, 16) else c.alignment
  }

  function FullSize(c: Config, size: nat): nat
    requires Legal(c)
  {
    size + HeaderSize(c)
  }

  predicate BinSize(c: Config, size: nat) {
    Legal(c) && c.alignment <= size <= c.maxSize && size % c.alignment == 0
  }

  function NumBins(c: Config): nat
    requires Legal(c)
  {
    c.maxSize / c.alignment
  }

  function BinIndex(c: Config, size: nat): nat
    requires BinSize(c, size)
  {
    size / c.alignment - 1
  }

  /** Aligning rounds up to the next multiple, and a positive size that is not too large has a bin. */
  lemma AlignedSizes(c: Config, n: nat)
    requires Legal(c)
    ensures var m := SizeToAligned(c, n); n <= m < n + c.alignment && m % c.alignment == 0
    ensures 0 < n && SizeToAligned(c, n) <= c.maxSize ==> BinSize(c, SizeToAligned(c, n))
  {
    var q := (n + c.alignment - 1) / c.alignment;
    Multiple(q, c.alignment);
    var r := (n + c.alignment - 1) % c.alignment;
    assert n + c.alignment - 1 == q * c.alignment + r;
    if 0 < n && SizeToAligned(c, n) <= c.maxSize {
      assert q > 0;
      assert q * c.alignment >= c.alignment by {
        assert q * c.alignment == c.alignment + (q - 1) * c.alignment;
      }
    }
  }

  lemma Multiple(q: nat, a: nat)
    requires a > 0
    ensures q * a % a == 0 && q * a / a == q
  {
    var d: int := q - q * a / a;
    assert a * d == q * a % a by {
      assert q * a == a * (q * a / a) + q * a % a;
    }
    AtLeast(d, a);
  }

  lemma AtLeast(d: int, a: int)
    requires a >= 0
    ensures (d >= 1 ==> a * d >= a) && (d <= -1 ==> a * d <= -a)
  {
    if d >= 1 {
      assert a * d == a + a * (d - 1);
    } else if d <= -1 {
      assert a * d == -a - a * (-d - 1);
    }
  }

  /** Bin i serves the size (i + 1) * alignment and no other. */
  lemma BinsAndSizes(c: Config, size: nat)
    requires BinSize(c, size)
    ensures BinIndex(c, size) < NumBins(c) && size == (BinIndex(c, size) + 1) * c.alignment
  {
    var q := size / c.alignment;
    assert size == q * c.alignment + size % c.alignment == q * c.alignment;
    var p := c.maxSize / c.alignment;
    assert c.maxSize == p * c.alignment + c.maxSize % c.alignment == p * c.alignment;
    AtMost(q, p, c.alignment);
  }

  lemma AtMost(q: nat, p: nat, a: nat)
    requires a > 0 && q * a <= p * a
    ensures q <= p
  {
    AtLeast(q - p, a);
    assert q * a == p * a + a * (q - p);
  }

  /** Deallocating with the size that was asked for finds the stored size, except after an
      allocation of zero bytes, which is served as one byte. */
  lemma SizedDeallocation(c: Config, n: nat)
    requires Legal(c)
    ensures SizeToAligned(c, if n == 0 then 1 else n) == SizeToAligned(c, n) <==> n != 0
  {
    AlignedSizes(c, 1);
    AlignedSizes(c, 0);
    if n == 0 {
      assert SizeToAligned(c, 0) == 0 by {
        assert (c.alignment - 1) / c.alignment == 0;
      }
    }
  }

  // ------------------------------------------------------------------ the machine

  /** Where a thread is. Popping: waiting for the bin's lock, holding it, about to read the link of
      the head it saw, about to swap. Carving: about to add to the offset, to look at what it got, to
      give it back. Then counting, or linking a block to the head it saw, pushing it, discounting. */
  datatype Thread =
    | Idle
    | Waiting(size: nat) | Locked(size: nat) | Reading(size: nat, h: int) | Swapping(size: nat, h: int, n: Maybe<int>)
    | Bumping(size: nat) | Checking(size: nat, prev: int) | Undoing(size: nat) | Counting(b: int)
    | Linking(b: int) | Pushing(b: int) | Discounting(size: nat)

  /** Blocks are named by where their header starts. `live` are the blocks that clients hold. */
  datatype State = State(
    heads: seq<Maybe<int>>, locks: seq<Maybe<nat>>, next: map<int, Maybe<int>>, size: map<int, nat>,
    offset: int, allocatedBytes: int, live: set<int>, threads: seq<Thread>)

  /** What the client of an idle thread asks for; a client gives back only what it holds. */
  datatype Move = Allocate(n: nat) | Deallocate(b: int) | Proceed

  predicate Sized(c: Config, s: State) {
    Legal(c) && |s.heads| == |s.locks| == NumBins(c)
  }

  /** The step of thread `t`, if it can take one. Links and sizes of a block no one else can see are
      written together with the step that read them. */
  function Step(c: Config, s: State, t: nat, move: Move): Maybe<State>
    requires Sized(c, s)
  {
    if t >= |s.threads| then Nothing
    else
      match s.threads[t]
      case Idle => Begin(c, s, t, move)
      case Waiting(size) => Pop(c, s, t)
      case Locked(size) => Pop(c, s, t)
      case Reading(size, h) => Pop(c, s, t)
      case Swapping(size, h, n) => Pop(c, s, t)
      case Bumping(size) => Just(At(s, t, Checking(size, s.offset)).(offset := s.offset + FullSize(c, size)))
      case Checking(size, prev) =>
        if prev + FullSize(c, size) > c.memory then Just(At(s, t, Undoing(size)))
        else Just(At(s, t, Counting(prev)).(size := s.size[prev := size], next := s.next[prev := Nothing]))
      case Undoing(size) => Just(At(s, t, Idle).(offset := s.offset - FullSize(c, size)))
      case Counting(b) =>
        if b !in s.size then Nothing
        else Just(At(s, t, Idle).(allocatedBytes := s.allocatedBytes + s.size[b], live := s.live + {b}))
      case Linking(b) => Push(c, s, t)
      case Pushing(b) => Push(c, s, t)
      case Discounting(size) => Just(At(s, t, Idle).(allocatedBytes := s.allocatedBytes - size))
  }

  function At(s: State, t: nat, pc: Thread): State
    requires t < |s.threads|
  {
    s.(threads := s.threads[t := pc])
  }

  function Begin(c: Config, s: State, t: nat, move: Move): Maybe<State>
    requires Sized(c, s) && t < |s.threads|
  {
    match move
    case Proceed => Nothing
    case Allocate(n) =>
      var size := SizeToAligned(c, if n == 0 then 1 else n);
      if size > c.maxSize then Nothing else Just(At(s, t, Waiting(size)))
    case Deallocate(b) =>
      if b !in s.live then Nothing else Just(At(s, t, Linking(b)).(live := s.live - {b}))
  }

  /** Popping under the lock of the bin. */
  function Pop(c: Config, s: State, t: nat): Maybe<State>
    requires Sized(c, s) && t < |s.threads|
  {
    match s.threads[t]
    case Waiting(size) =>
      if !BinSize(c, size) || BinIndex(c, size) >= |s.locks| || s.locks[BinIndex(c, size)].Just? then Nothing
      else Just(At(s, t, Locked(size)).(locks := s.locks[BinIndex(c, size) := Just(t)]))
    case Locked(size) =>
      if !BinSize(c, size) || BinIndex(c, size) >= |s.locks| then Nothing
      else Just(Seen(c, s, t, size))
    case Reading(size, h) =>
      if h !in s.next then Nothing else Just(At(s, t, Swapping(size, h, s.next[h])))
    case Swapping(size, h, n) =>
      if !BinSize(c, size) || BinIndex(c, size) >= |s.locks| then Nothing
      else if s.heads[BinIndex(c, size)] != Just(h) then Just(Seen(c, s, t, size))
      else
        var i := BinIndex(c, size);
        Just(At(s, t, Counting(h)).(heads := s.heads[i := n], locks := s.locks[i := Nothing]))
    case _ => Nothing
  }

  /** The head of the bin has been looked at: go on to its link, or unlock and carve. */
  function Seen(c: Config, s: State, t: nat, size: nat): State
    requires Sized(c, s) && t < |s.threads| && BinSize(c, size) && BinIndex(c, size) < |s.locks|
  {
    var i := BinIndex(c, size);
    if s.heads[i].Just? then At(s, t, Reading(size, s.heads[i].value))
    else At(s, t, Bumping(size)).(locks := s.locks[i := Nothing])
  }

  /** Pushing without a lock; a failed swap leaves the head it found in the block's link. */
  function Push(c: Config, s: State, t: nat): Maybe<State>
    requires Sized(c, s) && t < |s.threads|
  {
    var pc := s.threads[t];
    if !(pc.Linking? || pc.Pushing?) || pc.b !in s.size || pc.b !in s.next || !BinSize(c, s.size[pc.b])
       || BinIndex(c, s.size[pc.b]) >= |s.heads| then Nothing
    else
      var i := BinIndex(c, s.size[pc.b]);
      if pc.Pushing? && s.heads[i] == s.next[pc.b] then
        Just(At(s, t, Discounting(s.size[pc.b])).(heads := s.heads[i := Just(pc.b)]))
      else Just(At(s, t, Pushing(pc.b)).(next := s.next[pc.b := s.heads[i]]))
  }

  function Initial(c: Config, threads: nat): State
    requires Legal(c)
  {
    State(seq(NumBins(c), _ => Nothing), seq(NumBins(c), _ => Nothing), map[], map[], 0, 0, {}, seq(threads, _ => Idle))
  }

  lemma StepStaysSized(c: Config, s: State, t: nat, move: Move)
    requires Sized(c, s) && Step(c, s, t, move).Just?
    ensures Sized(c, Step(c, s, t, move).value) && |Step(c, s, t, move).value.threads| == |s.threads|
  {
  }

  function After(c: Config, s: State, t: nat, move: Move): (s': State)
    requires Sized(c, s) && Step(c, s, t, move).Just?
    ensures Sized(c, s')
  {
    StepStaysSized(c, s, t, move);
    Step(c, s, t, move).value
  }

  /** The state a schedule leads to; nothing if it asks for a step that cannot be taken. */
  function Play(c: Config, s: State, sched: seq<(nat, Move)>): Maybe<State>
    requires Sized(c, s)
    decreases |sched|
  {
    if sched == [] then Just(s)
    else if Step(c, s, sched[0].0, sched[0].1).Nothing? then Nothing
    else Play(c, After(c, s, sched[0].0, sched[0].1), sched[1..])
  }
}
