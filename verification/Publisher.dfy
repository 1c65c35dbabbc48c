/** The publishing side: who subscribed to which cell under which alias, and what one tick of the
    publisher sends and remembers. */
module Publisher {
  import opened Wrappers

  /** A client's connection to a server; a client reconnects under a new number. */
  datatype Conn = Conn(client: string, server: string, number: nat)

  /** `val` holds the bytes sent last, none after a subscribe. */
  datatype Attrs = Attrs(alias: string, val: seq<nat>, lastSent: int)

  datatype Subscriber = Subscriber(names: map<string, Attrs>, lastActivity: int)

  datatype Datagram<V> = Sub(conn: Conn, name: string, alias: string) | Pub(conn: Conn, alias: string, result: V)

  /** How values travel: their bytes, and the value that stands for no such cell. */
  datatype Wire<!V> = Wire(bytes: V -> seq<nat>, undefined: V)

  /** The cells of a runtime; a name is looked for among inputs, then workers, then extern cells. */
  datatype Cells<V> = Cells(inputs: map<string, V>, workers: map<string, V>, externs: map<string, V>)

  function CellNamed<V>(cells: Cells<V>, name: string): Maybe<V> {
    if name in cells.inputs then Just(cells.inputs[name])
    else if name in cells.workers then Just(cells.workers[name])
    else if name in cells.externs then Just(cells.externs[name])
    else Nothing
  }

  /** What is sent for one subscribed name, and what is remembered. */
  function Answer<V>(wire: Wire<V>, cells: Cells<V>, now: int, name: string, a: Attrs): (Maybe<V>, Attrs) {
    var v := CellNamed(cells, name);
    if v.Just? then
      if a.val != wire.bytes(v.value) then (v, a.(val := wire.bytes(v.value), lastSent := now)) else (Nothing, a)
    else if now > a.lastSent + 3 then (Just(wire.undefined), a.(lastSent := now))
    else (Nothing, a)
  }

  predicate Expired(s: Subscriber, now: int) {
    now - s.lastActivity > 10
  }

  /** All subscribers after a tick: the silent ones are gone. */
  ghost function AfterTick<V>(wire: Wire<V>, cells: Cells<V>, now: int, subs: map<Conn, Subscriber>): map<Conn, Subscriber> {
    map conn | conn in subs && !Expired(subs[conn], now) :: AfterTickOf(wire, cells, now, subs[conn])
  }

  ghost function AfterTickOf<V>(wire: Wire<V>, cells: Cells<V>, now: int, s: Subscriber): Subscriber {
    s.(names := map n | n in s.names :: Answer(wire, cells, now, n, s.names[n]).1)
  }

  /** A tick sends exactly the answers that are due to the subscribers that are not silent. */
  ghost predicate SentByTick<V>(wire: Wire<V>, cells: Cells<V>, now: int, subs: map<Conn, Subscriber>, d: Datagram<V>) {
    && d.Pub? && d.conn in subs && !Expired(subs[d.conn], now)
    && exists n :: n in subs[d.conn].names && Due(wire, cells, now, n, subs[d.conn].names[n], d)
  }

  ghost predicate Due<V>(wire: Wire<V>, cells: Cells<V>, now: int, n: string, a: Attrs, d: Datagram<V>) {
    d.Pub? && a.alias == d.alias && Answer(wire, cells, now, n, a).0.Just? && Answer(wire, cells, now, n, a).0.value == d.result
  }

  ghost predicate DueAmong<V>(wire: Wire<V>, cells: Cells<V>, now: int, names: map<string, Attrs>, done: set<string>, d: Datagram<V>) {
    exists n :: n in names && n in done && Due(wire, cells, now, n, names[n], d)
  }

  lemma OneMoreName<V(!new)>(wire: Wire<V>, cells: Cells<V>, now: int, names: map<string, Attrs>, done: set<string>, n: string)
    requires n in names
    ensures forall d :: DueAmong(wire, cells, now, names, done + {n}, d) <==> DueAmong(wire, cells, now, names, done, d) || Due(wire, cells, now, n, names[n], d)
  {
    forall d | Due(wire, cells, now, n, names[n], d) ensures DueAmong(wire, cells, now, names, done + {n}, d) {
      assert n in done + {n};
    }
  }

  class PublisherState<V(==,!new)> {
    var subs: map<Conn, Subscriber>
    var enabled: bool

    constructor ()
      ensures subs == map[] && !enabled
    {
      subs, enabled := map[], false;
    }

    method Start()
      modifies `enabled
      ensures enabled
    {
      enabled := true;
    }

    /** A subscription replaces the former one of that name, and forgets what was sent last. */
    method Subscribe(conn: Conn, name: string, alias: string, now: int)
      modifies `subs
      ensures subs == if enabled then Subscribed(old(subs), conn, name, alias, now) else old(subs)
    {
      if enabled {
        var names := if conn in subs then subs[conn].names else map[];
        subs := subs[conn := Subscriber(names[name := Attrs(alias, [], 0)], now)];
      }
    }

    method Unsubscribe(conn: Conn, name: string, now: int)
      modifies `subs
      ensures subs == if enabled then Unsubscribed(old(subs), conn, name, now) else old(subs)
    {
      if enabled {
        var names := if conn in subs then subs[conn].names else map[];
        subs := subs[conn := Subscriber(names - {name}, now)];
      }
    }

    method Remove(conn: Conn)
      modifies `subs
      ensures subs == if enabled then old(subs) - {conn} else old(subs)
    {
      if enabled {
        subs := subs - {conn};
      }
    }

    /** One run of the publisher over all connections. */
    method Tick(wire: Wire<V>, cells: Cells<V>, now: int) returns (sent: set<Datagram<V>>)
      modifies `subs
      ensures subs == AfterTick(wire, cells, now, old(subs))
      ensures forall d :: d in sent <==> SentByTick(wire, cells, now, old(subs), d)
    {
      sent := {};
      ghost var before := subs;
      var todo := subs.Keys;
      while todo != {}
        invariant todo <= before.Keys
        invariant forall c :: c in todo ==> c in subs && subs[c] == before[c]
        invariant forall c :: c in subs <==> c in todo || (c in before && !Expired(before[c], now))
        invariant forall c :: c in subs && c !in todo ==> subs[c] == AfterTickOf(wire, cells, now, before[c])
        invariant forall d :: d in sent <==> SentByTick(wire, cells, now, before, d) && d.conn !in todo
        decreases |todo|
      {
        var conn :| conn in todo;
        todo := todo - {conn};
        var out := Visit(wire, cells, now, conn);
        sent := sent + out;
      }
    }

    /** One connection: dropped when it has been silent too long, served otherwise. */
    method Visit(wire: Wire<V>, cells: Cells<V>, now: int, conn: Conn) returns (out: set<Datagram<V>>)
      requires conn in subs
      modifies `subs
      ensures subs == if Expired(old(subs)[conn], now) then old(subs) - {conn} else old(subs)[conn := AfterTickOf(wire, cells, now, old(subs)[conn])]
      ensures forall d :: d in out <==> SentByTick(wire, cells, now, old(subs), d) && d.conn == conn
    {
      if Expired(subs[conn], now) {
        subs := subs - {conn};
        return {};
      }
      var s;
      s, out := Serve(wire, cells, now, conn, subs[conn]);
      subs := subs[conn := s];
    }

    /** One run of the publisher over the names of one connection. */
    method Serve(wire: Wire<V>, cells: Cells<V>, now: int, conn: Conn, s: Subscriber) returns (s': Subscriber, out: set<Datagram<V>>)
      ensures s' == AfterTickOf(wire, cells, now, s)
      ensures forall d :: d in out <==> d.Pub? && d.conn == conn && exists n :: n in s.names && Due(wire, cells, now, n, s.names[n], d)
    {
      s', out := s, {};
      var todo := s.names.Keys;
      while todo != {}
        invariant todo <= s.names.Keys && s'.names.Keys == s.names.Keys && s'.lastActivity == s.lastActivity
        invariant forall n :: n in s.names ==>
          s'.names[n] == if n in todo then s.names[n] else Answer(wire, cells, now, n, s.names[n]).1
        invariant forall d :: d in out <==> d.Pub? && d.conn == conn && DueAmong(wire, cells, now, s.names, s.names.Keys - todo, d)
        decreases |todo|
      {
        var n :| n in todo;
        OneMoreName(wire, cells, now, s.names, s.names.Keys - todo, n);
        todo := todo - {n};
        assert s.names.Keys - todo == s.names.Keys - (todo + {n}) + {n};
        var (answer, a) := Answer(wire, cells, now, n, s'.names[n]);
        s' := s'.(names := s'.names[n := a]);
        if answer.Just? {
          out := out + {Pub(conn, s.names[n].alias, answer.value)};
        }
      }
    }
  }

  function Subscribed(subs: map<Conn, Subscriber>, conn: Conn, name: string, alias: string, now: int): map<Conn, Subscriber> {
    var names := if conn in subs then subs[conn].names else map[];
    subs[conn := Subscriber(names[name := Attrs(alias, [], 0)], now)]
  }

  /** Bytes of a value are never none, which is what `val` is after a subscribe. */
  ghost predicate Framed<V(!new)>(wire: Wire<V>) {
    forall v :: wire.bytes(v) != []
  }

  /** After a subscribe, the next tick that comes in time publishes the current value under the
      alias, changed or not; the one after it publishes again only what has changed. A name without
      a cell is published as undefined, but only from the fourth second of the clock on. */
  lemma SubscribeForcesPublish<V(!new)>(wire: Wire<V>, cells: Cells<V>, subs: map<Conn, Subscriber>, conn: Conn, name: string, alias: string, t: int, now: int)
    requires Framed(wire) && t <= now <= t + 10
    ensures var s := Subscribed(subs, conn, name, alias, t);
      var v := CellNamed(cells, name);
      if v.Just? then SentByTick(wire, cells, now, s, Pub(conn, alias, v.value))
      else now > 3 ==> SentByTick(wire, cells, now, s, Pub(conn, alias, wire.undefined))
  {
    var s := Subscribed(subs, conn, name, alias, t);
    var v := CellNamed(cells, name);
    var d := Pub(conn, alias, if v.Just? then v.value else wire.undefined);
    if v.Just? || now > 3 {
      assert name in s[conn].names && Due(wire, cells, now, name, s[conn].names[name], d);
    }
  }

  function Unsubscribed(subs: map<Conn, Subscriber>, conn: Conn, name: string, now: int): map<Conn, Subscriber> {
    subs[conn := Subscriber((if conn in subs then subs[conn].names else map[]) - {name}, now)]
  }

  /** After an unsubscribe what is still sent to the connection belongs to its other names. */
  lemma UnsubscribeSilences<V>(wire: Wire<V>, cells: Cells<V>, subs: map<Conn, Subscriber>, conn: Conn, name: string, t: int, now: int, d: Datagram<V>)
    requires SentByTick(wire, cells, now, Unsubscribed(subs, conn, name, t), d) && d.conn == conn
    ensures conn in subs && now <= t + 10 && exists n :: n != name && n in subs[conn].names && Due(wire, cells, now, n, subs[conn].names[n], d)
  {
    var s := Unsubscribed(subs, conn, name, t);
    var n :| n in s[conn].names && Due(wire, cells, now, n, s[conn].names[n], d);
    assert n != name && n in subs[conn].names && Due(wire, cells, now, n, subs[conn].names[n], d);
  }

  // ------------------------------------------------------------------ connections over many ticks

  /** What a publisher finds when it runs: the cells and the clock. */
  datatype Run<V> = Run(cells: Cells<V>, now: int)

  /** The subscribers after several runs during which nothing was heard. */
  ghost function AfterTicks<V>(wire: Wire<V>, subs: map<Conn, Subscriber>, runs: seq<Run<V>>): map<Conn, Subscriber> {
    if runs == [] then subs
    else
      var u := runs[|runs| - 1];
      AfterTick(wire, u.cells, u.now, AfterTicks(wire, subs, runs[..|runs| - 1]))
  }

  /** A connection from which nothing is heard outlives exactly the runs of its next ten seconds. */
  lemma {:induction false} SurvivesIffHeardOf<V>(wire: Wire<V>, subs: map<Conn, Subscriber>, runs: seq<Run<V>>, conn: Conn)
    ensures conn in AfterTicks(wire, subs, runs) <==>
      conn in subs && forall i :: 0 <= i < |runs| ==> runs[i].now <= subs[conn].lastActivity + 10
    ensures conn in AfterTicks(wire, subs, runs) ==> AfterTicks(wire, subs, runs)[conn].lastActivity == subs[conn].lastActivity
  {
    if runs != [] {
      var before := runs[..|runs| - 1];
      SurvivesIffHeardOf(wire, subs, before, conn);
      assert forall i :: 0 <= i < |before| ==> runs[i] == before[i];
    }
  }

  /** A run later than that sends nothing to it, and none after it ever does. */
  lemma SilentGetsNothing<V>(wire: Wire<V>, subs: map<Conn, Subscriber>, runs: seq<Run<V>>, i: nat, j: nat, conn: Conn, d: Datagram<V>)
    requires i <= j < |runs| && conn in subs && runs[i].now > subs[conn].lastActivity + 10 && d.conn == conn
    ensures !SentByTick(wire, runs[j].cells, runs[j].now, AfterTicks(wire, subs, runs[..j]), d)
    ensures conn !in AfterTicks(wire, subs, runs[..j + 1])
  {
    SurvivesIffHeardOf(wire, subs, runs[..j], conn);
    SurvivesIffHeardOf(wire, subs, runs[..j + 1], conn);
    assert runs[..j + 1][i] == runs[i];
    if i < j {
      assert runs[..j][i] == runs[i];
    }
  }

  // ------------------------------------------------------------------ one name over many ticks

  /** What is remembered for a name after the runs so far, without a subscribe in between. */
  function Remembers<V>(wire: Wire<V>, name: string, a: Attrs, runs: seq<Run<V>>): Attrs {
    if runs == [] then a
    else
      var u := runs[|runs| - 1];
      Answer(wire, u.cells, u.now, name, Remembers(wire, name, a, runs[..|runs| - 1])).1
  }

  /** Run `i` sends the value of the cell. */
  predicate Publishes<V>(wire: Wire<V>, name: string, a: Attrs, runs: seq<Run<V>>, i: nat)
    requires i < |runs|
  {
    CellNamed(runs[i].cells, name).Just? && Answer(wire, runs[i].cells, runs[i].now, name, Remembers(wire, name, a, runs[..i])).0.Just?
  }

  /** What is remembered is what was published last, however often the name had no cell since. */
  lemma {:induction false} RemembersLastPublished<V>(wire: Wire<V>, name: string, a: Attrs, runs: seq<Run<V>>, i: nat, j: nat)
    requires i < j <= |runs| && Publishes(wire, name, a, runs, i)
    requires forall k :: i < k < j ==> !Publishes(wire, name, a, runs, k)
    ensures Remembers(wire, name, a, runs[..j]).val == wire.bytes(CellNamed(runs[i].cells, name).value)
    decreases j
  {
    assert runs[..j][..j - 1] == runs[..j - 1];
    if i < j - 1 {
      RemembersLastPublished(wire, name, a, runs, i, j - 1);
      assert !Publishes(wire, name, a, runs, j - 1);
    }
  }

  /** Of a name that was published and not since, the next value is published if and only if its
      bytes are others; two publications in a row never have the same bytes. A name that lost its
      cell, was published as undefined and got the old value back is not published again. */
  lemma RepublishesIffChanged<V>(wire: Wire<V>, name: string, a: Attrs, runs: seq<Run<V>>, i: nat, j: nat)
    requires i < j < |runs| && Publishes(wire, name, a, runs, i) && CellNamed(runs[j].cells, name).Just?
    requires forall k :: i < k < j ==> !Publishes(wire, name, a, runs, k)
    ensures Publishes(wire, name, a, runs, j) <==>
      wire.bytes(CellNamed(runs[j].cells, name).value) != wire.bytes(CellNamed(runs[i].cells, name).value)
  {
    RemembersLastPublished(wire, name, a, runs, i, j);
  }

  /** Run `i` sends something for the name: its value, or that there is none. */
  predicate Answers<V>(wire: Wire<V>, name: string, a: Attrs, runs: seq<Run<V>>, i: nat)
    requires i < |runs|
  {
    Answer(wire, runs[i].cells, runs[i].now, name, Remembers(wire, name, a, runs[..i])).0.Just?
  }

  lemma {:induction false} RemembersLastAnswer<V>(wire: Wire<V>, name: string, a: Attrs, runs: seq<Run<V>>, i: nat, j: nat)
    requires i < j <= |runs| && Answers(wire, name, a, runs, i)
    requires forall k :: i < k < j ==> !Answers(wire, name, a, runs, k)
    ensures Remembers(wire, name, a, runs[..j]).lastSent == runs[i].now
    decreases j
  {
    assert runs[..j][..j - 1] == runs[..j - 1];
    if i < j - 1 {
      RemembersLastAnswer(wire, name, a, runs, i, j - 1);
      assert !Answers(wire, name, a, runs, j - 1);
    }
  }

  /** A name without a cell is published as undefined if and only if nothing was sent for it in the
      last three seconds; over and over. */
  lemma AbsentIsPublishedIffOverdue<V>(wire: Wire<V>, name: string, a: Attrs, runs: seq<Run<V>>, i: nat, j: nat)
    requires i < j < |runs| && Answers(wire, name, a, runs, i) && CellNamed(runs[j].cells, name).Nothing?
    requires forall k :: i < k < j ==> !Answers(wire, name, a, runs, k)
    ensures Answers(wire, name, a, runs, j) <==> runs[j].now > runs[i].now + 3
    ensures Answers(wire, name, a, runs, j) ==>
      Answer(wire, runs[j].cells, runs[j].now, name, Remembers(wire, name, a, runs[..j])).0 == Just(wire.undefined)
  {
    RemembersLastAnswer(wire, name, a, runs, i, j);
  }
}
