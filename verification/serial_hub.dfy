/**
 The serial multiplexer on values (internal/serialconsole/manager.go): one stream of received bytes
 for each open port, broadcast to bounded subscriber queues, with a replay ring and one writer.

 A connection object is a handle, an index into `conns`; subscriber IDs count up from 1.  `rx`,
 `from` and `taken` are history: every byte received on a handle, the position in it at which a
 subscriber's bytes begin, and what its consumer has read.
 */
module SerialHub {
  import opened Text

  type Bytes = string
  type Port = string
  type Id = nat
  type Handle = nat

  const QUEUE_CHUNKS := 128
  const MIN_BAUD := 300
  const MAX_BAUD := 4_000_000

  datatype Access = Observer | Controller
  datatype Reason = Detached | SlowConsumer | Disconnected | Stopped

  datatype Connection = Connection(port: Port, baud: nat, ring: Bytes, clients: set<Id>, controller: Id, open: bool)

  datatype Subscriber = Subscriber(conn: Handle, access: Access, queue: seq<Bytes>, closed: bool, reason: Reason)

  datatype World = World(
    replayBytes: nat, defaultBaud: nat, connections: map<Port, Handle>, conns: seq<Connection>,
    subs: map<Id, Subscriber>, nextId: Id, stopped: bool,
    rx: seq<Bytes>, from: map<Id, nat>, taken: map<Id, Bytes>)

  function Flat(chunks: seq<Bytes>): Bytes {
    if chunks == [] then "" else Flat(chunks[..|chunks| - 1]) + chunks[|chunks| - 1]
  }

  function Suffix(s: Bytes, n: nat): Bytes {
    if |s| <= n then s else s[|s| - n..]
  }

  // Everything ever put into a subscriber's queue.
  function Delivered(w: World, id: Id): Bytes
    requires id in w.subs && id in w.taken
  {
    w.taken[id] + Flat(w.subs[id].queue)
  }

  predicate Current(w: World, h: Handle) {
    h < |w.conns| && w.conns[h].port in w.connections && w.connections[w.conns[h].port] == h
  }

  // ----- Steps, each one critical section of the manager's mutex -------------------------------------

  function CloseSubs(subs: map<Id, Subscriber>, ids: set<Id>, reason: Reason): map<Id, Subscriber> {
    map id <- subs :: if id in ids && !subs[id].closed then subs[id].(closed := true, reason := reason) else subs[id]
  }

  // closeSubscriberLocked for each of `ids`, then close the port if no client is left.
  function CloseClients(w: World, h: Handle, ids: set<Id>, reason: Reason): World
    requires h < |w.conns|
  {
    var c := w.conns[h];
    var clients := c.clients - ids;
    w.(subs := CloseSubs(w.subs, c.clients * ids, reason),
    conns := w.conns[h := c.(clients := clients, controller := if c.controller in ids then 0 else c.controller, open := c.open && clients != {})],
    connections := if clients == {} then w.connections - {c.port} else w.connections)
  }

  predicate Fits(s: Subscriber) {
    |s.queue| < QUEUE_CHUNKS
  }

  function Slow(subs: map<Id, Subscriber>, clients: set<Id>): set<Id> {
    set id | id in clients && id in subs && !Fits(subs[id])
  }

  function Enqueue(subs: map<Id, Subscriber>, clients: set<Id>, data: Bytes): map<Id, Subscriber> {
    map id <- subs :: if id in clients && Fits(subs[id]) then subs[id].(queue := subs[id].queue + [data]) else subs[id]
  }

  function Broadcast(w: World, h: Handle, data: Bytes): World {
    if !Current(w, h) then w
    else
      var c := w.conns[h];
      var w1 := w.(conns := w.conns[h := c.(ring := Suffix(c.ring + data, w.replayBytes))], rx := if h < |w.rx| then w.rx[h := w.rx[h] + data] else w.rx,
                   subs := Enqueue(w.subs, c.clients, data));
      var slow := Slow(w.subs, c.clients);
      CloseClients(w1, h, slow, SlowConsumer)
  }

  function End(w: World, h: Handle): World {
    if !Current(w, h) then w else CloseClients(w, h, w.conns[h].clients, Disconnected)
  }

  function Detach(w: World, port: Port, id: Id): World {
    if port !in w.connections || w.connections[port] >= |w.conns| then w
    else CloseClients(w, w.connections[port], {id}, Detached)
  }

  function Shut(conns: seq<Connection>): seq<Connection> {
    seq(|conns|, h requires 0 <= h < |conns| => conns[h].(clients := {}, controller := 0, open := false))
  }

  function Close(w: World): World {
    if w.stopped then w
    else w.(stopped := true, connections := map[], conns := Shut(w.conns), subs := CloseSubs(w.subs, w.subs.Keys, Stopped))
  }

  // The consumer reads one chunk.
  function Take(w: World, id: Id): World {
    if id !in w.subs || id !in w.taken || w.subs[id].queue == [] then w
    else
      var s := w.subs[id];
      w.(subs := w.subs[id := s.(queue := s.queue[1..])], taken := w.taken[id := w.taken[id] + s.queue[0]])
  }

  // `found` and `opens` are what discovery and the operating system answer.
  datatype Request = Request(port: Port, baud: nat, access: Access, replay: bool, found: bool, opens: bool)

  datatype Answer = Attached(id: Id) | EmptyPort | BadBaud | PortNotFound | ManagerClosed | OpenFailed | ModeConflict | ControllerBusy

  function Baud(w: World, r: Request): nat {
    if r.baud == 0 then w.defaultBaud else r.baud
  }

  function Refusal(w: World, r: Request): Option<Answer> {
    if r.port == "" then Some(EmptyPort)
    else if !(MIN_BAUD <= Baud(w, r) <= MAX_BAUD) then Some(BadBaud)
    else if !r.found then Some(PortNotFound)
    else if w.stopped then Some(ManagerClosed)
    else if r.port !in w.connections || w.connections[r.port] >= |w.conns| then
      if !r.opens then Some(OpenFailed) else None
    else
      var c := w.conns[w.connections[r.port]];
      if c.baud != Baud(w, r) then Some(ModeConflict)
      else if r.access == Controller && c.controller != 0 then Some(ControllerBusy) else None
  }

  function Subscribe(w: World, h: Handle, access: Access, replay: bool): World
    requires h < |w.conns| && h < |w.rx|
  {
    var c := w.conns[h];
    var id := w.nextId + 1;
    var start := if replay then c.ring else "";
    w.(nextId := id,
    subs := w.subs[id := Subscriber(h, access, if start == "" then [] else [start], false, Detached)],
    conns := w.conns[h := c.(clients := c.clients + {id}, controller := if access == Controller then id else c.controller)],
    from := w.from[id := if |start| <= |w.rx[h]| then |w.rx[h]| - |start| else 0], taken := w.taken[id := ""])
  }

  function Opened(w: World, port: Port, baud: nat): World {
    w.(connections := w.connections[port := |w.conns|], conns := w.conns + [Connection(port, baud, "", {}, 0, true)], rx := w.rx + [""])
  }

  function Attach(w: World, r: Request): World
    requires |w.rx| == |w.conns|
  {
    if Refusal(w, r).Some? then w
    else if r.port in w.connections && w.connections[r.port] < |w.conns| then Subscribe(w, w.connections[r.port], r.access, r.replay)
    else Subscribe(Opened(w, r.port, Baud(w, r)), |w.conns|, r.access, r.replay)
  }

  datatype Op =
    | OpAttach(request: Request)
    | OpBroadcast(h: Handle, data: Bytes)
    | OpEnd(h: Handle)
    | OpDetach(port: Port, id: Id)
    | OpTake(id: Id)
    | OpClose

  function Step(w: World, op: Op): World {
    match op
    case OpAttach(r) => if |w.rx| == |w.conns| then Attach(w, r) else w
    case OpBroadcast(h, data) => Broadcast(w, h, data)
    case OpEnd(h) => End(w, h)
    case OpDetach(port, id) => Detach(w, port, id)
    case OpTake(id) => Take(w, id)
    case OpClose => Close(w)
  }

  function Run(w: World, ops: seq<Op>): World
    decreases |ops|
  {
    if ops == [] then w else Run(Step(w, ops[0]), ops[1..])
  }

  function Initial(replayBytes: nat, defaultBaud: nat): World {
    World(replayBytes, defaultBaud, map[], [], map[], 0, false, [], map[], map[])
  }

  // ----- The invariant ---------------------------------------------------------------------------------

  // A handle is open exactly while the table has it; a closed one has no client and no controller.
  ghost predicate Tabled(connections: map<Port, Handle>, conns: seq<Connection>) {
    && (forall p <- connections :: connections[p] < |conns| && conns[connections[p]].port == p && conns[connections[p]].open)
    && (forall h | 0 <= h < |conns| && conns[h].open :: conns[h].port in connections && connections[conns[h].port] == h)
    && (forall h | 0 <= h < |conns| && !conns[h].open :: conns[h].clients == {} && conns[h].controller == 0)
  }

  // Every open handle but `except` has a client.
  ghost predicate Inhabited(conns: seq<Connection>, except: int) {
    forall h | 0 <= h < |conns| && h != except && conns[h].open :: conns[h].clients != {}
  }

  // A subscriber is a client of its own handle until it is closed, and of no other.
  ghost predicate Owned(conns: seq<Connection>, subs: map<Id, Subscriber>, nextId: Id) {
    && (forall h | 0 <= h < |conns| :: forall id <- conns[h].clients :: id in subs && subs[id].conn == h && !subs[id].closed)
    && (forall id <- subs :: 0 < id <= nextId && subs[id].conn < |conns|)
    && (forall id <- subs :: !subs[id].closed ==> id in conns[subs[id].conn].clients)
  }

  // The controller is nobody or a client, and it is the one client that attached as a controller.
  ghost predicate Leased(conns: seq<Connection>, subs: map<Id, Subscriber>) {
    && (forall h | 0 <= h < |conns| && conns[h].controller != 0 ::
          && conns[h].controller in conns[h].clients && conns[h].controller in subs
          && subs[conns[h].controller].access == Controller)
    && (forall id <- subs :: !subs[id].closed && subs[id].access == Controller && subs[id].conn < |conns| ==> conns[subs[id].conn].controller == id)
  }

  ghost predicate RingsAreSuffixes(conns: seq<Connection>, rx: seq<Bytes>, replayBytes: nat) {
    |rx| == |conns| && forall h | 0 <= h < |conns| :: conns[h].ring == Suffix(rx[h], replayBytes)
  }

  // What a subscriber got is a contiguous piece of its handle's stream, up to now while it is open.
  ghost predicate Fed(s: Subscriber, from: nat, taken: Bytes, rx: seq<Bytes>) {
    && |s.queue| <= QUEUE_CHUNKS && s.conn < |rx|
    && var got := taken + Flat(s.queue);
      && from + |got| <= |rx[s.conn]| && got == rx[s.conn][from..from + |got|]
      && (!s.closed ==> from + |got| == |rx[s.conn]|)
  }

  ghost predicate Streamed(subs: map<Id, Subscriber>, from: map<Id, nat>, taken: map<Id, Bytes>, rx: seq<Bytes>) {
    subs.Keys == from.Keys == taken.Keys && forall id <- subs :: Fed(subs[id], from[id], taken[id], rx)
  }

  ghost predicate InvBut(w: World, except: int) {
    && Tabled(w.connections, w.conns) && Inhabited(w.conns, except)
    && Owned(w.conns, w.subs, w.nextId) && Leased(w.conns, w.subs)
    && RingsAreSuffixes(w.conns, w.rx, w.replayBytes)
    && Streamed(w.subs, w.from, w.taken, w.rx)
  }

  ghost predicate Inv(w: World) {
    InvBut(w, -1)
  }

  // ----- Every step keeps it -----------------------------------------------------------------------------

  lemma SuffixOfSuffix(s: Bytes, data: Bytes, n: nat)
    ensures Suffix(Suffix(s, n) + data, n) == Suffix(s + data, n)
  {
    if |s| > n {
      var whole, kept := s + data, s[|s| - n..] + data;
      assert kept == whole[|s| - n..] && |kept| == n + |data|;
      if |data| == 0 {
        assert Suffix(kept, n) == kept;
      } else {
        assert Suffix(kept, n) == kept[|data|..];
        assert whole[|s| - n..][|data|..] == whole[|s| - n + |data|..];
      }
    }
  }

  lemma FlatNext(chunks: seq<Bytes>, chunk: Bytes)
    ensures Flat(chunks + [chunk]) == Flat(chunks) + chunk
  {
    assert (chunks + [chunk])[..|chunks|] == chunks;
  }

  lemma {:induction false} FlatFirst(chunks: seq<Bytes>)
    requires chunks != []
    ensures Flat(chunks) == chunks[0] + Flat(chunks[1..])
  {
    if |chunks| == 1 {
      assert chunks[..0] == [];
    } else {
      var init, last := chunks[..|chunks| - 1], chunks[|chunks| - 1];
      FlatFirst(init);
      assert Flat(chunks) == Flat(init) + last;
      FlatNext(init[1..], last);
      hide Flat;
      assert chunks[1..] == init[1..] + [last];
    }
  }

  lemma CloseClientsOwned(w: World, h: Handle, ids: set<Id>, reason: Reason)
    requires Owned(w.conns, w.subs, w.nextId) && Leased(w.conns, w.subs) && h < |w.conns|
    ensures var v := CloseClients(w, h, ids, reason); Owned(v.conns, v.subs, v.nextId) && Leased(v.conns, v.subs)
  {
  }

  lemma ClosedSubsStreamed(w: World, ids: set<Id>, reason: Reason)
    requires Streamed(w.subs, w.from, w.taken, w.rx)
    ensures Streamed(CloseSubs(w.subs, ids, reason), w.from, w.taken, w.rx)
  {
    var subs := CloseSubs(w.subs, ids, reason);
    forall id <- subs ensures Fed(subs[id], w.from[id], w.taken[id], w.rx) {
      assert Fed(w.subs[id], w.from[id], w.taken[id], w.rx);
      hide Flat;
    }
  }

  lemma SameRings(w: World, h: Handle, c: Connection)
    requires RingsAreSuffixes(w.conns, w.rx, w.replayBytes) && h < |w.conns| && c.ring == w.conns[h].ring
    ensures RingsAreSuffixes(w.conns[h := c], w.rx, w.replayBytes)
  {
  }

  lemma ClosedTable(connections: map<Port, Handle>, conns: seq<Connection>, h: Handle, c: Connection)
    requires Tabled(connections, conns) && Inhabited(conns, h) && h < |conns| && conns[h].open
    requires c.port == conns[h].port && (c.open <==> c.clients != {}) && (c.clients == {} ==> c.controller == 0)
    ensures Tabled(if c.clients == {} then connections - {c.port} else connections, conns[h := c]) && Inhabited(conns[h := c], -1)
  {
  }

  lemma CloseClientsKeeps(w: World, h: Handle, ids: set<Id>, reason: Reason)
    requires InvBut(w, h) && Current(w, h)
    ensures Inv(CloseClients(w, h, ids, reason))
  {
    CurrentIsOpen(w, h);
    hide Tabled, Inhabited, Owned, Leased, Streamed, RingsAreSuffixes, CloseClients;
    CloseClientsOwned(w, h, ids, reason);
    var v := CloseClients(w, h, ids, reason);
    CloseClientsShape(w, h, ids, reason);
    ClosedSubsStreamed(w, w.conns[h].clients * ids, reason);
    SameRings(w, h, v.conns[h]);
    ClosedTable(w.connections, w.conns, h, v.conns[h]);
  }

  lemma CloseClientsShape(w: World, h: Handle, ids: set<Id>, reason: Reason)
    requires h < |w.conns| && Leased(w.conns, w.subs) && w.conns[h].open
    ensures var v := CloseClients(w, h, ids, reason); var c := w.conns[h];
      && v.conns == w.conns[h := v.conns[h]] && v.conns[h].ring == c.ring && v.conns[h].port == c.port
      && (v.conns[h].open <==> v.conns[h].clients != {}) && (v.conns[h].clients == {} ==> v.conns[h].controller == 0)
      && v.connections == (if v.conns[h].clients == {} then w.connections - {c.port} else w.connections)
      && v == w.(subs := CloseSubs(w.subs, c.clients * ids, reason), conns := v.conns, connections := v.connections)
  {
    var c := CloseClients(w, h, ids, reason).conns[h];
    assert c.controller != 0 ==> c.controller in c.clients;
  }

  lemma CurrentIsOpen(w: World, h: Handle)
    requires Tabled(w.connections, w.conns) && Current(w, h)
    ensures w.conns[h].open
  {
  }

  // A broadcast before the slow clients are closed; they are still owned but have missed the chunk.
  function Heard(w: World, h: Handle, data: Bytes): World
    requires h < |w.conns| && h < |w.rx|
  {
    var c := w.conns[h];
    w.(conns := w.conns[h := c.(ring := Suffix(c.ring + data, w.replayBytes))], rx := w.rx[h := w.rx[h] + data],
    subs := Enqueue(w.subs, c.clients, data))
  }

  lemma FedMore(s: Subscriber, from: nat, taken: Bytes, rx: seq<Bytes>, data: Bytes)
    requires Fed(s, from, taken, rx) && Fits(s) && !s.closed
    ensures Fed(s.(queue := s.queue + [data]), from, taken, rx[s.conn := rx[s.conn] + data])
  {
    FlatNext(s.queue, data);
    hide Flat;
    assert taken + Flat(s.queue + [data]) == (taken + Flat(s.queue)) + data;
  }

  lemma FedClosed(s: Subscriber, from: nat, taken: Bytes, rx: seq<Bytes>, h: Handle, data: Bytes, reason: Reason)
    requires Fed(s, from, taken, rx) && h < |rx|
    ensures Fed(s.(closed := true, reason := reason), from, taken, rx[h := rx[h] + data])
    ensures s.closed || s.conn != h ==> Fed(s, from, taken, rx[h := rx[h] + data])
  {
    hide Flat;
  }

  // A chunk reaches every client with room; the others are closed at what they had.
  lemma HeardStreamed(subs: map<Id, Subscriber>, from: map<Id, nat>, taken: map<Id, Bytes>, rx: seq<Bytes>, h: Handle, clients: set<Id>, data: Bytes)
    requires Streamed(subs, from, taken, rx) && h < |rx|
    requires forall id <- clients :: id in subs && subs[id].conn == h && !subs[id].closed
    requires forall id <- subs :: subs[id].conn == h && !subs[id].closed ==> id in clients
    ensures Streamed(CloseSubs(Enqueue(subs, clients, data), clients * Slow(subs, clients), SlowConsumer), from, taken, rx[h := rx[h] + data])
  {
    var subs' := CloseSubs(Enqueue(subs, clients, data), clients * Slow(subs, clients), SlowConsumer);
    var rx' := rx[h := rx[h] + data];
    forall id <- subs' ensures Fed(subs'[id], from[id], taken[id], rx') {
      assert Fed(subs[id], from[id], taken[id], rx);
      hide Fed, Fits;
      HeardOne(subs, clients, data, id);
      if id in clients && Fits(subs[id]) {
        FedMore(subs[id], from[id], taken[id], rx, data);
      } else {
        FedClosed(subs[id], from[id], taken[id], rx, h, data, SlowConsumer);
      }
    }
    hide Fed, CloseSubs, Enqueue, Slow;
  }

  lemma HeardOne(subs: map<Id, Subscriber>, clients: set<Id>, data: Bytes, id: Id)
    requires id in subs && (id in clients ==> !subs[id].closed)
    ensures var subs' := CloseSubs(Enqueue(subs, clients, data), clients * Slow(subs, clients), SlowConsumer);
      id in subs' && subs'[id] == if id !in clients then subs[id] else if Fits(subs[id]) then subs[id].(queue := subs[id].queue + [data]) else subs[id].(closed := true, reason := SlowConsumer)
  {
  }

  lemma BroadcastSubs(w: World, h: Handle, data: Bytes)
    requires Inv(w) && Current(w, h)
    ensures h < |w.rx|
    ensures var v := Broadcast(w, h, data); var clients := w.conns[h].clients;
      && v.subs == CloseSubs(Enqueue(w.subs, clients, data), clients * Slow(w.subs, clients), SlowConsumer)
      && v.from == w.from && v.taken == w.taken && v.rx == w.rx[h := w.rx[h] + data]
      && v == CloseClients(Heard(w, h, data), h, Slow(w.subs, clients), SlowConsumer)
  {
    hide Tabled, Inhabited, Owned, Leased, Streamed, CloseSubs, Enqueue, Slow;
  }

  lemma ClientsAre(w: World, h: Handle)
    requires Owned(w.conns, w.subs, w.nextId) && h < |w.conns|
    ensures forall id <- w.conns[h].clients :: id in w.subs && w.subs[id].conn == h && !w.subs[id].closed
    ensures forall id <- w.subs :: w.subs[id].conn == h && !w.subs[id].closed ==> id in w.conns[h].clients
  {
  }

  lemma SameOwners(conns: seq<Connection>, h: Handle, ring: Bytes, subs: map<Id, Subscriber>, subs': map<Id, Subscriber>, nextId: Id)
    requires h < |conns| && subs.Keys == subs'.Keys && forall id <- subs :: subs'[id] == subs[id].(queue := subs'[id].queue)
    requires Owned(conns, subs, nextId) && Leased(conns, subs)
    ensures Owned(conns[h := conns[h].(ring := ring)], subs', nextId) && Leased(conns[h := conns[h].(ring := ring)], subs')
  {
  }

  lemma SameTable(connections: map<Port, Handle>, conns: seq<Connection>, h: Handle, ring: Bytes)
    requires h < |conns| && Tabled(connections, conns) && Inhabited(conns, -1)
    ensures Tabled(connections, conns[h := conns[h].(ring := ring)]) && Inhabited(conns[h := conns[h].(ring := ring)], -1)
  {
  }

  lemma HeardTable(w: World, h: Handle, data: Bytes)
    requires Inv(w) && h < |w.conns|
    ensures h < |w.rx|
    ensures var v := Heard(w, h, data);
      && Owned(v.conns, v.subs, v.nextId) && Leased(v.conns, v.subs) && Tabled(v.connections, v.conns) && Inhabited(v.conns, -1)
      && RingsAreSuffixes(v.conns, v.rx, v.replayBytes)
  {
    var v := Heard(w, h, data);
    SuffixOfSuffix(w.rx[h], data, w.replayBytes);
    assert RingsAreSuffixes(v.conns, v.rx, v.replayBytes);
    hide Owned, Leased, Tabled, Inhabited, Streamed, RingsAreSuffixes;
    SameOwners(w.conns, h, v.conns[h].ring, w.subs, v.subs, w.nextId);
    SameTable(w.connections, w.conns, h, v.conns[h].ring);
  }

  lemma BroadcastKeeps(w: World, h: Handle, data: Bytes)
    requires Inv(w)
    ensures Inv(Broadcast(w, h, data))
  {
    hide Streamed, Owned, Leased, Tabled, Inhabited, RingsAreSuffixes, CloseSubs, Enqueue, Slow, Suffix;
    if Current(w, h) {
      var v, slow := Broadcast(w, h, data), Slow(w.subs, w.conns[h].clients);
      BroadcastSubs(w, h, data);
      ClientsAre(w, h);
      HeardStreamed(w.subs, w.from, w.taken, w.rx, h, w.conns[h].clients, data);
      HeardTable(w, h, data);
      var w1 := Heard(w, h, data);
      hide Broadcast;
      CurrentIsOpen(w1, h);
      CloseClientsOwned(w1, h, slow, SlowConsumer);
      CloseClientsShape(w1, h, slow, SlowConsumer);
      SameRings(w1, h, v.conns[h]);
      InhabitedBut(w1.conns, h);
      ClosedTable(w1.connections, w1.conns, h, v.conns[h]);
    }
  }

  lemma InhabitedBut(conns: seq<Connection>, h: Handle)
    requires Inhabited(conns, -1)
    ensures Inhabited(conns, h)
  {
  }

  lemma OpenedStreamed(subs: map<Id, Subscriber>, from: map<Id, nat>, taken: map<Id, Bytes>, rx: seq<Bytes>)
    requires Streamed(subs, from, taken, rx)
    ensures Streamed(subs, from, taken, rx + [""])
  {
    forall id <- subs ensures Fed(subs[id], from[id], taken[id], rx + [""]) {
      assert Fed(subs[id], from[id], taken[id], rx);
      hide Flat;
    }
  }

  lemma OpenedTable(connections: map<Port, Handle>, conns: seq<Connection>, c: Connection)
    requires Tabled(connections, conns) && Inhabited(conns, -1) && c.port !in connections && c.open
    ensures Tabled(connections[c.port := |conns|], conns + [c]) && Inhabited(conns + [c], |conns|)
  {
  }

  lemma OpenedOwned(conns: seq<Connection>, subs: map<Id, Subscriber>, nextId: Id, c: Connection)
    requires Owned(conns, subs, nextId) && Leased(conns, subs) && c.clients == {} && c.controller == 0
    ensures Owned(conns + [c], subs, nextId) && Leased(conns + [c], subs)
  {
  }

  lemma OpenedRings(conns: seq<Connection>, rx: seq<Bytes>, replayBytes: nat, c: Connection)
    requires RingsAreSuffixes(conns, rx, replayBytes) && c.ring == ""
    ensures RingsAreSuffixes(conns + [c], rx + [""], replayBytes)
  {
  }

  lemma OpenedKeeps(w: World, port: Port, baud: nat)
    requires Inv(w) && port !in w.connections
    ensures InvBut(Opened(w, port, baud), |w.conns|) && Current(Opened(w, port, baud), |w.conns|)
  {
    hide Streamed, Owned, Leased, Tabled, Inhabited, RingsAreSuffixes;
    var c := Connection(port, baud, "", {}, 0, true);
    OpenedRings(w.conns, w.rx, w.replayBytes, c);
    OpenedStreamed(w.subs, w.from, w.taken, w.rx);
    OpenedTable(w.connections, w.conns, c);
    OpenedOwned(w.conns, w.subs, w.nextId, c);
  }

  lemma SubscribeStreamed(w: World, h: Handle, access: Access, replay: bool)
    requires Streamed(w.subs, w.from, w.taken, w.rx) && RingsAreSuffixes(w.conns, w.rx, w.replayBytes) && h < |w.conns|
    requires w.nextId + 1 !in w.subs
    ensures var v := Subscribe(w, h, access, replay); Streamed(v.subs, v.from, v.taken, v.rx)
  {
    hide Streamed, Fed, RingsAreSuffixes, Suffix, Subscribe;
    RingIs(w, h);
    var start := if replay then w.conns[h].ring else "";
    NewSubscriberFed(w.rx[h], w.rx, h, access, start, w.replayBytes, replay);
    SubscribeShape(w, h, access, replay);
    OneMoreStreamed(w.subs, w.from, w.taken, w.rx, w.nextId + 1, Subscriber(h, access, if start == "" then [] else [start], false, Detached), |w.rx[h]| - |start|);
  }

  lemma RingIs(w: World, h: Handle)
    requires RingsAreSuffixes(w.conns, w.rx, w.replayBytes) && h < |w.conns|
    ensures |w.rx| == |w.conns| && w.conns[h].ring == Suffix(w.rx[h], w.replayBytes)
  {
  }

  lemma SubscribeShape(w: World, h: Handle, access: Access, replay: bool)
    requires h < |w.conns| && h < |w.rx|
    ensures var v := Subscribe(w, h, access, replay);
      var start := if replay then w.conns[h].ring else "";
      && |start| <= |w.rx[h]| ==>
        v.subs == w.subs[w.nextId + 1 := Subscriber(h, access, if start == "" then [] else [start], false, Detached)]
        && v.from == w.from[w.nextId + 1 := |w.rx[h]| - |start|] && v.taken == w.taken[w.nextId + 1 := ""] && v.rx == w.rx
  {
  }

  lemma OneMoreStreamed(subs: map<Id, Subscriber>, from: map<Id, nat>, taken: map<Id, Bytes>, rx: seq<Bytes>, id: Id, s: Subscriber, place: nat)
    requires Streamed(subs, from, taken, rx) && id !in subs && Fed(s, place, "", rx)
    ensures Streamed(subs[id := s], from[id := place], taken[id := ""], rx)
  {
    hide Fed;
  }

  lemma NewSubscriberFed(heard: Bytes, rx: seq<Bytes>, h: Handle, access: Access, start: Bytes, limit: nat, replay: bool)
    requires h < |rx| && rx[h] == heard && start == if replay then Suffix(heard, limit) else ""
    ensures |start| <= |heard|
    ensures Fed(Subscriber(h, access, if start == "" then [] else [start], false, Detached), |heard| - |start|, "", rx)
  {
    FlatNext([], start);
    assert [] + [start] == [start] && Flat([]) + start == start;
    assert heard[|heard| - |start|..] == start;
  }

  lemma SubscribeOwned(w: World, h: Handle, access: Access, replay: bool)
    requires Owned(w.conns, w.subs, w.nextId) && Leased(w.conns, w.subs) && h < |w.conns| && h < |w.rx|
    requires access == Controller ==> w.conns[h].controller == 0
    ensures var v := Subscribe(w, h, access, replay); Owned(v.conns, v.subs, v.nextId) && Leased(v.conns, v.subs)
  {
  }

  lemma SubscribeTabled(w: World, h: Handle, access: Access, replay: bool)
    requires Tabled(w.connections, w.conns) && Inhabited(w.conns, h) && h < |w.conns| && h < |w.rx| && w.conns[h].open
    ensures var v := Subscribe(w, h, access, replay); Tabled(v.connections, v.conns) && Inhabited(v.conns, -1)
  {
    var v := Subscribe(w, h, access, replay);
    assert w.nextId + 1 in v.conns[h].clients;
  }

  lemma SubscribeKeeps(w: World, h: Handle, access: Access, replay: bool)
    requires InvBut(w, h) && Current(w, h) && (access == Controller ==> w.conns[h].controller == 0)
    ensures Inv(Subscribe(w, h, access, replay))
  {
    CurrentIsOpen(w, h);
    var v := Subscribe(w, h, access, replay);
    assert w.nextId + 1 !in w.subs;
    assert RingsAreSuffixes(v.conns, v.rx, v.replayBytes);
    hide Tabled, Inhabited, Owned, Leased, Streamed;
    SubscribeStreamed(w, h, access, replay);
    SubscribeOwned(w, h, access, replay);
    SubscribeTabled(w, h, access, replay);
  }

  lemma TableFacts(w: World, port: Port)
    requires Tabled(w.connections, w.conns) && RingsAreSuffixes(w.conns, w.rx, w.replayBytes)
    ensures |w.rx| == |w.conns|
    ensures port in w.connections ==> w.connections[port] < |w.conns| && Current(w, w.connections[port])
  {
  }

  lemma AttachKeeps(w: World, r: Request)
    requires Inv(w)
    ensures |w.rx| == |w.conns| && Inv(Attach(w, r))
  {
    hide Streamed, Owned, Leased, Tabled, Inhabited, RingsAreSuffixes, Current, Subscribe, Opened;
    TableFacts(w, r.port);
    if Refusal(w, r).None? {
      if r.port in w.connections {
        InhabitedBut(w.conns, w.connections[r.port]);
        SubscribeKeeps(w, w.connections[r.port], r.access, r.replay);
      } else {
        OpenedKeeps(w, r.port, Baud(w, r));
        OpenedShape(w, r.port, Baud(w, r));
        SubscribeKeeps(Opened(w, r.port, Baud(w, r)), |w.conns|, r.access, r.replay);
      }
    }
  }

  lemma OpenedShape(w: World, port: Port, baud: nat)
    requires |w.rx| == |w.conns|
    ensures var v := Opened(w, port, baud); |v.conns| == |v.rx| == |w.conns| + 1 && v.conns[|w.conns|].controller == 0
  {
  }

  lemma TakenStreamed(subs: map<Id, Subscriber>, from: map<Id, nat>, taken: map<Id, Bytes>, rx: seq<Bytes>, id: Id)
    requires Streamed(subs, from, taken, rx) && id in subs && subs[id].queue != []
    ensures Streamed(subs[id := subs[id].(queue := subs[id].queue[1..])], from, taken[id := taken[id] + subs[id].queue[0]], rx)
  {
    var s := subs[id];
    FlatFirst(s.queue);
    assert taken[id] + s.queue[0] + Flat(s.queue[1..]) == taken[id] + Flat(s.queue);
    assert Fed(s, from[id], taken[id], rx);
    assert Fed(s.(queue := s.queue[1..]), from[id], taken[id] + s.queue[0], rx) by {
      hide Flat;
    }
    hide Fed;
  }

  lemma SameOwnersQueued(conns: seq<Connection>, subs: map<Id, Subscriber>, subs': map<Id, Subscriber>, nextId: Id)
    requires subs.Keys == subs'.Keys && forall id <- subs :: subs'[id] == subs[id].(queue := subs'[id].queue)
    requires Owned(conns, subs, nextId) && Leased(conns, subs)
    ensures Owned(conns, subs', nextId) && Leased(conns, subs')
  {
  }

  lemma TakeKeeps(w: World, id: Id)
    requires Inv(w)
    ensures Inv(Take(w, id))
  {
    if id in w.subs && id in w.taken && w.subs[id].queue != [] {
      hide Streamed, Owned, Leased, Tabled, Inhabited, RingsAreSuffixes;
      TakenStreamed(w.subs, w.from, w.taken, w.rx, id);
      SameOwnersQueued(w.conns, w.subs, Take(w, id).subs, w.nextId);
    }
  }

  lemma ShutOwned(conns: seq<Connection>, subs: map<Id, Subscriber>, nextId: Id)
    requires Owned(conns, subs, nextId)
    ensures Owned(Shut(conns), CloseSubs(subs, subs.Keys, Stopped), nextId) && Leased(Shut(conns), CloseSubs(subs, subs.Keys, Stopped))
    ensures Tabled(map[], Shut(conns)) && Inhabited(Shut(conns), -1)
  {
  }

  lemma CloseKeeps(w: World)
    requires Inv(w)
    ensures Inv(Close(w))
  {
    if !w.stopped {
      var v := Close(w);
      assert RingsAreSuffixes(v.conns, v.rx, v.replayBytes);
      hide Streamed, Owned, Leased, Tabled, Inhabited, RingsAreSuffixes, Shut, CloseSubs;
      ClosedSubsStreamed(w, w.subs.Keys, Stopped);
      ShutOwned(w.conns, w.subs, w.nextId);
    }
  }

  lemma StepKeeps(w: World, op: Op)
    requires Inv(w)
    ensures Inv(Step(w, op))
  {
    hide Inv, Attach, Broadcast, CloseClients, Take, Close;
    match op
    case OpAttach(r) => AttachKeeps(w, r);
    case OpBroadcast(h, data) => BroadcastKeeps(w, h, data);
    case OpEnd(h) => EndKeeps(w, h);
    case OpDetach(port, id) => DetachKeeps(w, port, id);
    case OpTake(id) => TakeKeeps(w, id);
    case OpClose => CloseKeeps(w);
  }

  lemma EndKeeps(w: World, h: Handle)
    requires Inv(w)
    ensures Inv(End(w, h))
  {
    hide Streamed, Owned, Leased, Tabled, Inhabited, RingsAreSuffixes, CloseClients;
    if Current(w, h) {
      InhabitedBut(w.conns, h);
      CloseClientsKeeps(w, h, w.conns[h].clients, Disconnected);
    }
  }

  lemma DetachKeeps(w: World, port: Port, id: Id)
    requires Inv(w)
    ensures Inv(Detach(w, port, id))
  {
    hide Streamed, Owned, Leased, Tabled, Inhabited, RingsAreSuffixes, CloseClients;
    if port in w.connections {
      TableFacts(w, port);
      InhabitedBut(w.conns, w.connections[port]);
      CloseClientsKeeps(w, w.connections[port], {id}, Detached);
    }
  }

  lemma {:induction false} RunKeeps(w: World, ops: seq<Op>)
    requires Inv(w)
    ensures Inv(Run(w, ops))
    decreases |ops|
  {
    if ops != [] {
      hide Inv, Step;
      StepKeeps(w, ops[0]);
      RunKeeps(Step(w, ops[0]), ops[1..]);
    }
  }

  lemma EveryRunKeeps(replayBytes: nat, defaultBaud: nat, ops: seq<Op>)
    ensures Inv(Run(Initial(replayBytes, defaultBaud), ops))
  {
    RunKeeps(Initial(replayBytes, defaultBaud), ops);
  }
}
