/** What extern cells hold while the network loses, repeats and reorders datagrams, and which
    publication they show. */
module PubSubSafety {
  import opened Publisher
  import opened Wrappers

  /** Where an extern cell gets its value from. */
  datatype Remote = Remote(server: string, name: string)

  datatype Held<V> = Held(server: string, name: string, value: V)

  /** All runtimes by name. Datagrams stay on the network for ever: a delivery may happen at any time,
      any number of times or never. `held` and `missing` record what publishers have seen. */
  datatype World<!V(==)> = World(
    cells: map<string, Cells<V>>, subs: map<string, map<Conn, Subscriber>>, net: iset<Datagram<V>>,
    held: iset<Held<V>>, missing: iset<Remote>)

  /** Which remote cell every extern cell of every runtime stands for. */
  type Wiring = map<string, map<string, Remote>>

  datatype Event<V> =
    | Compute(runtime: string, inputs: map<string, V>, workers: map<string, V>)
    | Ask(conn: Conn, alias: string)
    | Hear(conn: Conn, name: string, alias: string, now: int)
    | Tick(runtime: string, now: int)
    | Learn(conn: Conn, alias: string, result: V)

  predicate StandsFor(wiring: Wiring, client: string, alias: string, server: string, name: string) {
    client in wiring && alias in wiring[client] && wiring[client][alias] == Remote(server, name)
  }

  /** The world after a runtime's script has run, an extern cell has asked, a server has heard, a
      publisher has run, or a client has learnt a value. */
  ghost predicate Happens<V(!new)>(wire: Wire<V>, wiring: Wiring, w: World<V>, e: Event<V>, w': World<V>) {
    match e
    case Compute(r, inputs, workers) =>
      r in w.cells && w' == w.(cells := w.cells[r := w.cells[r].(inputs := inputs, workers := workers)])
    case Ask(conn, alias) =>
      exists name :: StandsFor(wiring, conn.client, alias, conn.server, name) && w' == w.(net := w.net + iset{Sub(conn, name, alias)})
    case Hear(conn, name, alias, now) =>
      && Sub(conn, name, alias) in w.net && conn.server in w.subs
      && w' == w.(subs := w.subs[conn.server := Subscribed(w.subs[conn.server], conn, name, alias, now)])
    case Tick(r, now) =>
      && r in w.cells && r in w.subs
      && w'.cells == w.cells && w'.subs == w.subs[r := AfterTick(wire, w.cells[r], now, w.subs[r])]
      && (forall d :: d in w'.net <==> d in w.net || SentByTick(wire, w.cells[r], now, w.subs[r], d))
      && (forall h :: h in w'.held <==> h in w.held || (h.server == r && CellNamed(w.cells[r], h.name) == Just(h.value)))
      && (forall n :: n in w'.missing <==> n in w.missing || (n.server == r && CellNamed(w.cells[r], n.name).Nothing?))
    case Learn(conn, alias, result) =>
      && Pub(conn, alias, result) in w.net && conn.client in w.cells
      && w' == if alias !in w.cells[conn.client].externs then w
               else w.(cells := w.cells[conn.client := Learnt(w.cells[conn.client], alias, result)])
  }

  function Learnt<V>(cells: Cells<V>, alias: string, result: V): Cells<V> {
    cells.(externs := cells.externs[alias := result])
  }

  /** The value was seen by the publisher of the cell's server, or the publisher saw no such cell. */
  ghost predicate Explained<V(!new)>(wire: Wire<V>, wiring: Wiring, w: World<V>, client: string, alias: string, v: V) {
    && client in wiring && alias in wiring[client]
    && var remote := wiring[client][alias];
       Held(remote.server, remote.name, v) in w.held || (v == wire.undefined && remote in w.missing)
  }

  ghost predicate Inv<V(!new)>(wire: Wire<V>, wiring: Wiring, initial: map<string, map<string, V>>, w: World<V>) {
    && (forall conn, name, alias :: Sub(conn, name, alias) in w.net ==> StandsFor(wiring, conn.client, alias, conn.server, name))
    && (forall r, conn :: r in w.subs && conn in w.subs[r] ==> Subscribes(wiring, r, conn, w.subs[r][conn]))
    && (forall conn, alias, v :: Pub(conn, alias, v) in w.net ==> Explained(wire, wiring, w, conn.client, alias, v))
    && (forall r, alias :: r in w.cells && alias in w.cells[r].externs ==> Sound(wire, wiring, initial, w, r, alias))
  }

  ghost predicate Subscribes(wiring: Wiring, r: string, conn: Conn, s: Subscriber) {
    conn.server == r && forall n :: n in s.names ==> StandsFor(wiring, conn.client, s.names[n].alias, r, n)
  }

  /** The extern cell holds its initial value or an explained one. */
  ghost predicate Sound<V(!new)>(wire: Wire<V>, wiring: Wiring, initial: map<string, map<string, V>>, w: World<V>, r: string, alias: string)
    requires r in w.cells && alias in w.cells[r].externs
  {
    || (r in initial && alias in initial[r] && w.cells[r].externs[alias] == initial[r][alias])
    || Explained(wire, wiring, w, r, alias, w.cells[r].externs[alias])
  }

  lemma TickKeepsInv<V(!new)>(wire: Wire<V>, wiring: Wiring, initial: map<string, map<string, V>>, w: World<V>, r: string, now: int, w': World<V>)
    requires Inv(wire, wiring, initial, w) && Happens(wire, wiring, w, Tick(r, now), w')
    ensures Inv(wire, wiring, initial, w')
  {
  }

  lemma HearKeepsInv<V(!new)>(wire: Wire<V>, wiring: Wiring, initial: map<string, map<string, V>>, w: World<V>, e: Event<V>, w': World<V>)
    requires Inv(wire, wiring, initial, w) && Happens(wire, wiring, w, e, w') && e.Hear?
    ensures Inv(wire, wiring, initial, w')
  {
  }

  lemma OtherKeepsInv<V(!new)>(wire: Wire<V>, wiring: Wiring, initial: map<string, map<string, V>>, w: World<V>, e: Event<V>, w': World<V>)
    requires Inv(wire, wiring, initial, w) && Happens(wire, wiring, w, e, w') && (e.Compute? || e.Ask? || e.Learn?)
    ensures Inv(wire, wiring, initial, w')
  {
  }

  /** Nobody has subscribed, nothing is on the network, extern cells hold their initial values. */
  ghost predicate Start<V(!new)>(initial: map<string, map<string, V>>, w: World<V>) {
    && w.net == iset{} && (forall r :: r in w.subs ==> w.subs[r] == map[])
    && forall r, alias :: r in w.cells && alias in w.cells[r].externs ==>
         r in initial && alias in initial[r] && w.cells[r].externs[alias] == initial[r][alias]
  }

  ghost predicate IsRun<V(!new)>(wire: Wire<V>, wiring: Wiring, initial: map<string, map<string, V>>, run: seq<World<V>>, events: seq<Event<V>>) {
    && |run| == |events| + 1 && Start(initial, run[0])
    && forall i :: 0 <= i < |events| ==> Happens(wire, wiring, run[i], events[i], run[i + 1])
  }

  lemma InvAlways<V(!new)>(wire: Wire<V>, wiring: Wiring, initial: map<string, map<string, V>>, run: seq<World<V>>, events: seq<Event<V>>, i: nat)
    requires IsRun(wire, wiring, initial, run, events) && i < |run|
    ensures Inv(wire, wiring, initial, run[i])
  {
    var j := 0;
    while j < i
      invariant j <= i && Inv(wire, wiring, initial, run[j])
    {
      match events[j] {
        case Tick(q, now) => TickKeepsInv(wire, wiring, initial, run[j], q, now, run[j + 1]);
        case Hear(_, _, _, _) => HearKeepsInv(wire, wiring, initial, run[j], events[j], run[j + 1]);
        case _ => OtherKeepsInv(wire, wiring, initial, run[j], events[j], run[j + 1]);
      }
      j := j + 1;
    }
  }

  /** In every state of every run, every extern cell is sound. */
  lemma ExternCellsStaySound<V(!new)>(wire: Wire<V>, wiring: Wiring, initial: map<string, map<string, V>>, run: seq<World<V>>, events: seq<Event<V>>, i: nat, r: string, alias: string)
    requires IsRun(wire, wiring, initial, run, events) && i < |run| && r in run[i].cells && alias in run[i].cells[r].externs
    ensures Sound(wire, wiring, initial, run[i], r, alias)
  {
    InvAlways(wire, wiring, initial, run, events, i);
  }

  // ------------------------------------------------------------------ which publication a cell shows

  ghost predicate SentAt<V(!new)>(wire: Wire<V>, run: seq<World<V>>, events: seq<Event<V>>, j: nat, d: Datagram<V>)
    requires |run| == |events| + 1
  {
    && j < |events| && events[j].Tick? && events[j].runtime in run[j].cells && events[j].runtime in run[j].subs
    && SentByTick(wire, run[j].cells[events[j].runtime], events[j].now, run[j].subs[events[j].runtime], d)
  }

  /** Every published datagram on the network was sent by a tick before. */
  lemma {:induction false} SentBefore<V(!new)>(wire: Wire<V>, wiring: Wiring, initial: map<string, map<string, V>>, run: seq<World<V>>, events: seq<Event<V>>, i: nat, d: Datagram<V>)
    requires IsRun(wire, wiring, initial, run, events) && i < |run| && d.Pub? && d in run[i].net
    ensures exists j: nat :: j < i && SentAt(wire, run, events, j, d)
    decreases i
  {
    if i > 0 {
      assert Happens(wire, wiring, run[i - 1], events[i - 1], run[i]);
      if d in run[i - 1].net {
        SentBefore(wire, wiring, initial, run, events, i - 1, d);
      } else {
        assert SentAt(wire, run, events, i - 1, d);
      }
    }
  }

  predicate Learns<V>(e: Event<V>, client: string, alias: string) {
    e.Learn? && e.conn.client == client && e.alias == alias
  }

  /** For each value a client learns, a tick that published it. */
  ghost predicate Publications<V(!new)>(wire: Wire<V>, run: seq<World<V>>, events: seq<Event<V>>, from: seq<nat>) {
    && |run| == |events| + 1 && |from| == |events|
    && forall i :: 0 <= i < |events| && events[i].Learn? ==>
         from[i] < i && SentAt(wire, run, events, from[i], Pub(events[i].conn, events[i].alias, events[i].result))
  }

  ghost function FirstSent<V(!new)>(wire: Wire<V>, run: seq<World<V>>, events: seq<Event<V>>, i: nat): nat
    requires |run| == |events| + 1 && i < |events| && events[i].Learn?
    requires exists j: nat :: j < i && SentAt(wire, run, events, j, Pub(events[i].conn, events[i].alias, events[i].result))
  {
    var j: nat :| j < i && SentAt(wire, run, events, j, Pub(events[i].conn, events[i].alias, events[i].result)); j
  }

  lemma PublicationsExist<V(!new)>(wire: Wire<V>, wiring: Wiring, initial: map<string, map<string, V>>, run: seq<World<V>>, events: seq<Event<V>>)
    returns (from: seq<nat>)
    requires IsRun(wire, wiring, initial, run, events)
    ensures Publications(wire, run, events, from)
  {
    forall i | 0 <= i < |events| && events[i].Learn?
      ensures exists j: nat :: j < i && SentAt(wire, run, events, j, Pub(events[i].conn, events[i].alias, events[i].result))
    {
      assert Happens(wire, wiring, run[i], events[i], run[i + 1]);
      SentBefore(wire, wiring, initial, run, events, i, Pub(events[i].conn, events[i].alias, events[i].result));
    }
    from := seq(|events|, i requires 0 <= i < |events| => if events[i].Learn? then FirstSent(wire, run, events, i) else 0);
  }

  /** The tick whose publication the extern cell shows in state `i`, if it has learnt anything. */
  function Shown<V>(events: seq<Event<V>>, from: seq<nat>, client: string, alias: string, i: nat): Maybe<nat>
    requires |from| == |events| && i <= |events|
  {
    if i == 0 then Nothing
    else if Learns(events[i - 1], client, alias) then Just(from[i - 1])
    else Shown(events, from, client, alias, i - 1)
  }

  /** What the server shows for a name. */
  function ShownBy<V>(wire: Wire<V>, cells: Cells<V>, name: string): V {
    var v := CellNamed(cells, name); if v.Just? then v.value else wire.undefined
  }

  /** A published datagram carries what its server then shows for the name the alias stands for. */
  lemma SentIsShown<V(!new)>(wire: Wire<V>, wiring: Wiring, initial: map<string, map<string, V>>, run: seq<World<V>>, events: seq<Event<V>>, j: nat, d: Datagram<V>)
    requires IsRun(wire, wiring, initial, run, events) && SentAt(wire, run, events, j, d)
    ensures d.Pub? && d.conn.client in wiring && d.alias in wiring[d.conn.client]
    ensures var remote := wiring[d.conn.client][d.alias];
      events[j].runtime == remote.server && d.result == ShownBy(wire, run[j].cells[remote.server], remote.name)
  {
    InvAlways(wire, wiring, initial, run, events, j);
    assert Subscribes(wiring, events[j].runtime, d.conn, run[j].subs[events[j].runtime][d.conn]);
  }

  /** In every state an extern cell holds exactly what its server cell held at the tick whose
      publication was learnt last, undefined if there was no such cell, and its initial value if
      nothing was learnt. */
  lemma {:induction false} HoldsWhatIsShown<V(!new)>(wire: Wire<V>, wiring: Wiring, initial: map<string, map<string, V>>, run: seq<World<V>>, events: seq<Event<V>>, from: seq<nat>, i: nat, r: string, alias: string)
    requires IsRun(wire, wiring, initial, run, events) && Publications(wire, run, events, from) && i < |run|
    requires r in run[i].cells && alias in run[i].cells[r].externs
    ensures match Shown(events, from, r, alias, i)
      case Nothing => r in initial && alias in initial[r] && run[i].cells[r].externs[alias] == initial[r][alias]
      case Just(j) =>
        && r in wiring && alias in wiring[r] && j < i && events[j].Tick? && events[j].runtime == wiring[r][alias].server
        && wiring[r][alias].server in run[j].cells
        && run[i].cells[r].externs[alias] == ShownBy(wire, run[j].cells[wiring[r][alias].server], wiring[r][alias].name)
    decreases i
  {
    if i > 0 {
      var e := events[i - 1];
      assert Happens(wire, wiring, run[i - 1], e, run[i]);
      if Learns(e, r, alias) {
        SentIsShown(wire, wiring, initial, run, events, from[i - 1], Pub(e.conn, e.alias, e.result));
      } else {
        HoldsWhatIsShown(wire, wiring, initial, run, events, from, i - 1, r, alias);
      }
    }
  }

  /** Deliveries to the cell follow the order of publication. */
  ghost predicate InOrder<V>(events: seq<Event<V>>, from: seq<nat>, client: string, alias: string)
    requires |from| == |events|
  {
    forall a, b :: 0 <= a < b < |events| && Learns(events[a], client, alias) && Learns(events[b], client, alias) ==> from[a] <= from[b]
  }

  /** From one state to any later one the cell does not go back to an earlier publication. */
  ghost predicate NeverGoesBack<V>(events: seq<Event<V>>, from: seq<nat>, client: string, alias: string)
    requires |from| == |events|
  {
    forall i, k :: 0 <= i <= k <= |events| && Shown(events, from, client, alias, i).Just? ==>
      Shown(events, from, client, alias, k).Just? && Shown(events, from, client, alias, i).value <= Shown(events, from, client, alias, k).value
  }

  lemma {:induction false} ShownIsLearnt<V>(events: seq<Event<V>>, from: seq<nat>, client: string, alias: string, i: nat) returns (a: nat)
    requires |from| == |events| && i <= |events| && Shown(events, from, client, alias, i).Just?
    ensures a < i && Learns(events[a], client, alias) && Shown(events, from, client, alias, i) == Just(from[a])
    ensures forall b :: a < b < i ==> !Learns(events[b], client, alias)
    decreases i
  {
    if Learns(events[i - 1], client, alias) {
      a := i - 1;
    } else {
      a := ShownIsLearnt(events, from, client, alias, i - 1);
    }
  }

  lemma {:induction false} ShownStays<V>(events: seq<Event<V>>, from: seq<nat>, client: string, alias: string, i: nat, k: nat)
    requires |from| == |events| && i <= k <= |events| && Shown(events, from, client, alias, i).Just?
    ensures Shown(events, from, client, alias, k).Just?
    decreases k
  {
    if i < k {
      ShownStays(events, from, client, alias, i, k - 1);
    }
  }

  /** An extern cell never goes back to an earlier publication if and only if the network delivers
      to it in the order of publication, whatever it loses or repeats in place. */
  lemma NeverGoesBackIff<V>(events: seq<Event<V>>, from: seq<nat>, client: string, alias: string)
    requires |from| == |events|
    ensures NeverGoesBack(events, from, client, alias) <==> InOrder(events, from, client, alias)
  {
    if NeverGoesBack(events, from, client, alias) {
      forall a, b | 0 <= a < b < |events| && Learns(events[a], client, alias) && Learns(events[b], client, alias) ensures from[a] <= from[b] {
        assert Shown(events, from, client, alias, a + 1) == Just(from[a]);
        assert Shown(events, from, client, alias, b + 1) == Just(from[b]);
      }
    }
    if InOrder(events, from, client, alias) {
      forall i, k | 0 <= i <= k <= |events| && Shown(events, from, client, alias, i).Just?
        ensures Shown(events, from, client, alias, k).Just? && Shown(events, from, client, alias, i).value <= Shown(events, from, client, alias, k).value
      {
        ShownStays(events, from, client, alias, i, k);
        var a := ShownIsLearnt(events, from, client, alias, i);
        var b := ShownIsLearnt(events, from, client, alias, k);
        assert b < a ==> false;
      }
    }
  }

  // ------------------------------------------------------------------ going back

  /** One more event. */
  lemma Extend<V(!new)>(wire: Wire<V>, wiring: Wiring, initial: map<string, map<string, V>>, run: seq<World<V>>, events: seq<Event<V>>, e: Event<V>, w: World<V>)
    requires IsRun(wire, wiring, initial, run, events) && Happens(wire, wiring, run[|events|], e, w)
    ensures IsRun(wire, wiring, initial, run + [w], events + [e])
    ensures forall j: nat, d :: SentAt(wire, run, events, j, d) ==> SentAt(wire, run + [w], events + [e], j, d)
  {
  }

  /** Datagrams stay on the network. */
  lemma {:induction false} SentStays<V(!new)>(wire: Wire<V>, wiring: Wiring, initial: map<string, map<string, V>>, run: seq<World<V>>, events: seq<Event<V>>, j: nat, d: Datagram<V>, i: nat)
    requires IsRun(wire, wiring, initial, run, events) && SentAt(wire, run, events, j, d) && j < i < |run|
    ensures d in run[i].net
    decreases i
  {
    assert Happens(wire, wiring, run[i - 1], events[i - 1], run[i]);
    if j < i - 1 {
      SentStays(wire, wiring, initial, run, events, j, d, i - 1);
    }
  }

  /** A client learns a value that was published at some time. */
  lemma ExtendByLearning<V(!new)>(wire: Wire<V>, wiring: Wiring, initial: map<string, map<string, V>>, run: seq<World<V>>, events: seq<Event<V>>, from: seq<nat>,
                                  conn: Conn, alias: string, j: nat, v: V)
    returns (w: World<V>)
    requires IsRun(wire, wiring, initial, run, events) && Publications(wire, run, events, from)
    requires SentAt(wire, run, events, j, Pub(conn, alias, v))
    requires conn.client in run[|events|].cells && alias in run[|events|].cells[conn.client].externs
    ensures conn.client in w.cells && alias in w.cells[conn.client].externs && w.cells[conn.client].externs[alias] == v
    ensures IsRun(wire, wiring, initial, run + [w], events + [Learn(conn, alias, v)])
    ensures Publications(wire, run + [w], events + [Learn(conn, alias, v)], from + [j])
    ensures forall i: nat, d :: SentAt(wire, run, events, i, d) ==> SentAt(wire, run + [w], events + [Learn(conn, alias, v)], i, d)
    ensures Shown(events + [Learn(conn, alias, v)], from + [j], conn.client, alias, |events| + 1) == Just(j)
  {
    var last, e := run[|events|], Learn(conn, alias, v);
    w := last.(cells := last.cells[conn.client := Learnt(last.cells[conn.client], alias, v)]);
    SentStays(wire, wiring, initial, run, events, j, Pub(conn, alias, v), |events|);
    Extend(wire, wiring, initial, run, events, e, w);
  }

  lemma {:induction false} ShownBefore<V>(events: seq<Event<V>>, from: seq<nat>, e: Event<V>, j: nat, client: string, alias: string, i: nat)
    requires |from| == |events| && i <= |events|
    ensures Shown(events + [e], from + [j], client, alias, i) == Shown(events, from, client, alias, i)
  {
    if i > 0 {
      ShownBefore(events, from, e, j, client, alias, i - 1);
    }
  }

  /** After any run in which two values were published to a client, the later one can be delivered
      first: the extern cell shows it and then goes back to the earlier one. */
  lemma ValuesCanGoBack<V(!new)>(wire: Wire<V>, wiring: Wiring, initial: map<string, map<string, V>>, run: seq<World<V>>, events: seq<Event<V>>, from: seq<nat>,
                                 conn: Conn, alias: string, j1: nat, v1: V, j2: nat, v2: V)
    returns (w1: World<V>, w2: World<V>)
    requires IsRun(wire, wiring, initial, run, events) && Publications(wire, run, events, from)
    requires j1 < j2 && SentAt(wire, run, events, j1, Pub(conn, alias, v1)) && SentAt(wire, run, events, j2, Pub(conn, alias, v2))
    requires conn.client in run[|events|].cells && alias in run[|events|].cells[conn.client].externs
    ensures var events', from' := events + [Learn(conn, alias, v2)] + [Learn(conn, alias, v1)], from + [j2] + [j1];
      && IsRun(wire, wiring, initial, run + [w1] + [w2], events') && Publications(wire, run + [w1] + [w2], events', from')
      && Shown(events', from', conn.client, alias, |events| + 1) == Just(j2) && Shown(events', from', conn.client, alias, |events| + 2) == Just(j1)
      && !NeverGoesBack(events', from', conn.client, alias)
    ensures conn.client in w1.cells && alias in w1.cells[conn.client].externs && w1.cells[conn.client].externs[alias] == v2
    ensures conn.client in w2.cells && alias in w2.cells[conn.client].externs && w2.cells[conn.client].externs[alias] == v1
  {
    w1 := ExtendByLearning(wire, wiring, initial, run, events, from, conn, alias, j2, v2);
    var events1, from1 := events + [Learn(conn, alias, v2)], from + [j2];
    w2 := ExtendByLearning(wire, wiring, initial, run + [w1], events1, from1, conn, alias, j1, v1);
    ShownBefore(events1, from1, Learn(conn, alias, v1), j1, conn.client, alias, |events1|);
  }

  // ------------------------------------------------------------------ a run with two publications

  /** The extern cell x of runtime c stands for the cell n of runtime s. */
  function OneWire(): Wiring {
    map["c" := map["x" := Remote("s", "n")]]
  }

  function Server<V>(v: V): Cells<V> {
    Cells(map["n" := v], map[], map[])
  }

  function Client<V>(v: V): Cells<V> {
    Cells(map[], map[], map["x" := v])
  }

  function TheConn(): Conn {
    Conn("c", "s", 0)
  }

  /** A run that ends with s showing `v` and having sent the given bytes last. */
  ghost predicate Reaches<V(!new)>(wire: Wire<V>, initial: V, run: seq<World<V>>, events: seq<Event<V>>, v: V, sent: seq<nat>) {
    && IsRun(wire, OneWire(), map["c" := map["x" := initial]], run, events)
    && Stands(run[|events|], initial, v, sent)
  }

  ghost predicate Stands<V(!new)>(w: World<V>, client: V, server: V, sent: seq<nat>) {
    && w.cells == map["c" := Client(client), "s" := Server(server)]
    && "s" in w.subs && TheConn() in w.subs["s"] && w.subs["s"][TheConn()].lastActivity == 0
    && "n" in w.subs["s"][TheConn()].names
    && w.subs["s"][TheConn()].names["n"].alias == "x" && w.subs["s"][TheConn()].names["n"].val == sent
  }

  lemma Subscribing<V(!new)>(wire: Wire<V>, initial: V, v: V) returns (run: seq<World<V>>, events: seq<Event<V>>)
    ensures Reaches(wire, initial, run, events, v, []) && |events| == 2 && Publications(wire, run, events, [0, 0])
  {
    var w0 := World(map["c" := Client(initial), "s" := Server(v)], map["s" := map[]], iset{}, iset{}, iset{});
    var w1 := w0.(net := w0.net + iset{Sub(TheConn(), "n", "x")});
    var w2 := w1.(subs := w1.subs["s" := Subscribed(w1.subs["s"], TheConn(), "n", "x", 0)]);
    assert StandsFor(OneWire(), "c", "x", "s", "n");
    run, events := [w0, w1, w2], [Ask(TheConn(), "x"), Hear(TheConn(), "n", "x", 0)];
  }

  lemma Publishing<V(!new)>(wire: Wire<V>, initial: V, run: seq<World<V>>, events: seq<Event<V>>, v: V, sent: seq<nat>, now: int) returns (w: World<V>)
    requires Reaches(wire, initial, run, events, v, sent) && sent != wire.bytes(v) && 0 <= now <= 10
    ensures Reaches(wire, initial, run + [w], events + [Tick("s", now)], v, wire.bytes(v))
    ensures SentAt(wire, run + [w], events + [Tick("s", now)], |events|, Pub(TheConn(), "x", v))
    ensures forall i: nat, d :: SentAt(wire, run, events, i, d) ==> SentAt(wire, run + [w], events + [Tick("s", now)], i, d)
  {
    var last := run[|events|];
    w := Ticked(wire, last, "s", now);
    TickedHappens(wire, OneWire(), last, "s", now);
    Extend(wire, OneWire(), map["c" := map["x" := initial]], run, events, Tick("s", now), w);
    ChangedIsSent(wire, last.cells["s"], now, last.subs["s"], TheConn(), "n", v);
  }

  lemma Computing<V(!new)>(wire: Wire<V>, initial: V, run: seq<World<V>>, events: seq<Event<V>>, v: V, sent: seq<nat>, next: V) returns (w: World<V>)
    requires Reaches(wire, initial, run, events, v, sent)
    ensures Reaches(wire, initial, run + [w], events + [Compute("s", map["n" := next], map[])], next, sent)
    ensures forall i: nat, d :: SentAt(wire, run, events, i, d) ==> SentAt(wire, run + [w], events + [Compute("s", map["n" := next], map[])], i, d)
  {
    var last := run[|events|];
    w := last.(cells := last.cells["s" := Server(next)]);
    assert w.cells == map["c" := Client(initial), "s" := Server(next)];
    Extend(wire, OneWire(), map["c" := map["x" := initial]], run, events, Compute("s", map["n" := next], map[]), w);
  }

  /** The world after a tick. */
  ghost function Ticked<V(!new)>(wire: Wire<V>, w: World<V>, r: string, now: int): World<V>
    requires r in w.cells && r in w.subs
  {
    w.(subs := w.subs[r := AfterTick(wire, w.cells[r], now, w.subs[r])],
       net := w.net + (iset d | SentByTick(wire, w.cells[r], now, w.subs[r], d)),
       held := w.held + (iset h: Held<V> | h.server == r && CellNamed(w.cells[r], h.name) == Just(h.value)),
       missing := w.missing + (iset n: Remote | n.server == r && CellNamed(w.cells[r], n.name).Nothing?))
  }

  lemma TickedHappens<V(!new)>(wire: Wire<V>, wiring: Wiring, w: World<V>, r: string, now: int)
    requires r in w.cells && r in w.subs
    ensures Happens(wire, wiring, w, Tick(r, now), Ticked(wire, w, r, now))
  {
  }

  lemma ChangedIsSent<V>(wire: Wire<V>, cells: Cells<V>, now: int, subs: map<Conn, Subscriber>, conn: Conn, name: string, v: V)
    requires conn in subs && !Expired(subs[conn], now) && name in subs[conn].names
    requires CellNamed(cells, name) == Just(v) && subs[conn].names[name].val != wire.bytes(v)
    ensures SentByTick(wire, cells, now, subs, Pub(conn, subs[conn].names[name].alias, v))
  {
    assert Due(wire, cells, now, name, subs[conn].names[name], Pub(conn, subs[conn].names[name].alias, v));
  }

  /** c subscribes, s publishes one value and computes another. */
  lemma OnePublication<V(!new)>(wire: Wire<V>, initial: V, v1: V, v2: V)
    returns (run: seq<World<V>>, events: seq<Event<V>>)
    requires Framed(wire)
    ensures Reaches(wire, initial, run, events, v2, wire.bytes(v1)) && |events| == 4 && Publications(wire, run, events, [0, 0, 0, 0])
    ensures SentAt(wire, run, events, 2, Pub(TheConn(), "x", v1))
  {
    run, events := Subscribing(wire, initial, v1);
    var w3 := Publishing(wire, initial, run, events, v1, [], 0);
    run, events := run + [w3], events + [Tick("s", 0)];
    var w4 := Computing(wire, initial, run, events, v1, wire.bytes(v1), v2);
    run, events := run + [w4], events + [Compute("s", map["n" := v2], map[])];
  }

  /** Then it publishes that, too. */
  lemma TwoPublications<V(!new)>(wire: Wire<V>, initial: V, v1: V, v2: V)
    returns (run: seq<World<V>>, events: seq<Event<V>>)
    requires Framed(wire) && wire.bytes(v1) != wire.bytes(v2)
    ensures Reaches(wire, initial, run, events, v2, wire.bytes(v2)) && |events| == 5 && Publications(wire, run, events, [0, 0, 0, 0, 0])
    ensures SentAt(wire, run, events, 2, Pub(TheConn(), "x", v1)) && SentAt(wire, run, events, 4, Pub(TheConn(), "x", v2))
  {
    run, events := OnePublication(wire, initial, v1, v2);
    var w5 := Publishing(wire, initial, run, events, v2, wire.bytes(v1), 1);
    run, events := run + [w5], events + [Tick("s", 1)];
  }

  /** Such runs exist from the very start: delivered in the wrong order, c shows the second value
      and then the first. */
  lemma ARunGoesBack<V(!new)>(wire: Wire<V>, initial: V, v1: V, v2: V)
    returns (run: seq<World<V>>, events: seq<Event<V>>, from: seq<nat>)
    requires Framed(wire) && wire.bytes(v1) != wire.bytes(v2)
    ensures IsRun(wire, OneWire(), map["c" := map["x" := initial]], run, events) && |events| == 7 && Publications(wire, run, events, from)
    ensures Shown(events, from, "c", "x", 6) == Just(4) && Shown(events, from, "c", "x", 7) == Just(2) && !NeverGoesBack(events, from, "c", "x")
    ensures "c" in run[6].cells && "x" in run[6].cells["c"].externs && run[6].cells["c"].externs["x"] == v2
    ensures "c" in run[7].cells && "x" in run[7].cells["c"].externs && run[7].cells["c"].externs["x"] == v1
  {
    run, events := TwoPublications(wire, initial, v1, v2);
    from := [0, 0, 0, 0, 0];
    var w6, w7 := ValuesCanGoBack(wire, OneWire(), map["c" := map["x" := initial]], run, events, from, TheConn(), "x", 2, v1, 4, v2);
    run, events := run + [w6] + [w7], events + [Learn(TheConn(), "x", v2)] + [Learn(TheConn(), "x", v1)];
    from := from + [4] + [2];
  }
}
