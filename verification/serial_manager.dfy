/**
 The serial multiplexer as it runs: the manager's fields, updated in place under its mutex
 (internal/serialconsole/manager.go).  Every method ends in the state its step says.
 */
module SerialManager {
  import opened Text
  import opened Sets
  import opened SerialHub

  // closeSubscriberLocked on a connection.
  function Dropped(c: Connection, ids: set<Id>): Connection {
    c.(clients := c.clients - ids, controller := if c.controller in ids then 0 else c.controller)
  }

  class Manager {
    const replayBytes: nat
    const defaultBaud: nat
    var connections: map<Port, Handle>
    var conns: seq<Connection>
    var subs: map<Id, Subscriber>
    var nextId: Id
    var stopped: bool
    ghost var rx: seq<Bytes>
    ghost var from: map<Id, nat>
    ghost var taken: map<Id, Bytes>
    // What has gone out on each handle.
    ghost var tx: map<Handle, Bytes>

    constructor (replayBytes: nat, defaultBaud: nat)
      ensures View() == Initial(replayBytes, defaultBaud) && Inv(View()) && tx == map[]
    {
      this.replayBytes, this.defaultBaud := replayBytes, defaultBaud;
      connections, conns, subs, nextId, stopped := map[], [], map[], 0, false;
      rx, from, taken, tx := [], map[], map[], map[];
    }

    ghost function View(): World
      reads this
    {
      World(replayBytes, defaultBaud, connections, conns, subs, nextId, stopped, rx, from, taken)
    }

    method OpenPort(port: Port, baud: nat)
      requires |rx| == |conns|
      modifies this`connections, this`conns, this`rx
      ensures View() == Opened(old(View()), port, baud)
    {
      connections := connections[port := |conns|];
      conns := conns + [Connection(port, baud, "", {}, 0, true)];
      rx := rx + [""];
    }

    method AddSubscriber(h: Handle, access: Access, replay: bool)
      requires |rx| == |conns| && h < |conns|
      modifies this`conns, this`subs, this`nextId, this`from, this`taken
      ensures View() == Subscribe(old(View()), h, access, replay)
    {
      nextId := nextId + 1;
      var c := conns[h];
      var subscription := Subscriber(h, access, [], false, Detached);
      ghost var start := "";
      if replay && |c.ring| != 0 {
        subscription := subscription.(queue := [c.ring]);
        start := c.ring;
      }
      subs := subs[nextId := subscription];
      conns := conns[h := c.(clients := c.clients + {nextId}, controller := if access == Controller then nextId else c.controller)];
      from, taken := from[nextId := if |start| <= |rx[h]| then |rx[h]| - |start| else 0], taken[nextId := ""];
    }

    // The checks before the lock is taken.
    method Validate(r: Request) returns (refusal: Option<Answer>, baud: nat)
      ensures baud == Baud(View(), r)
      ensures refusal == if r.port == "" then Some(EmptyPort) else if !(MIN_BAUD <= baud <= MAX_BAUD) then Some(BadBaud) else if !r.found then Some(PortNotFound) else None
    {
      baud := if r.baud == 0 then defaultBaud else r.baud;
      refusal := None;
      if r.port == "" {
        return Some(EmptyPort), baud;
      }
      if !(MIN_BAUD <= baud <= MAX_BAUD) {
        return Some(BadBaud), baud;
      }
      if !r.found {
        return Some(PortNotFound), baud;
      }
    }

    // Find the port's connection or open one; a new one has no controller.
    method Connect(r: Request, baud: nat) returns (refusal: Option<Answer>, h: Handle)
      requires |rx| == |conns| && (r.port in connections ==> connections[r.port] < |conns|)
      modifies this`connections, this`conns, this`rx
      ensures refusal.Some? ==> View() == old(View())
      ensures refusal.None? ==> |rx| == |conns| && h < |conns|
      ensures r.port !in old(connections) && !stopped ==> refusal == if r.opens then None else Some(OpenFailed)
      ensures r.port !in old(connections) && refusal.None? ==> View() == Opened(old(View()), r.port, baud) && h == |old(conns)|
      ensures r.port in old(connections) ==> View() == old(View()) && (refusal.None? ==> h == connections[r.port])
      ensures r.port in old(connections) && !stopped ==> refusal == if conns[connections[r.port]].baud != baud then Some(ModeConflict)
        else if r.access == Controller && conns[connections[r.port]].controller != 0 then Some(ControllerBusy) else None
      ensures stopped ==> refusal == Some(ManagerClosed)
    {
      h := 0;
      if stopped {
        return Some(ManagerClosed), h;
      }
      if r.port !in connections {
        if !r.opens {
          return Some(OpenFailed), h;
        }
        h := |conns|;
        OpenPort(r.port, baud);
      } else {
        h := connections[r.port];
        if conns[h].baud != baud {
          return Some(ModeConflict), h;
        }
      }
      if r.access == Controller && conns[h].controller != 0 {
        return Some(ControllerBusy), h;
      }
      refusal := None;
    }

    method Attach(r: Request) returns (answer: Answer)
      requires Inv(View())
      modifies this`connections, this`conns, this`subs, this`nextId, this`rx, this`from, this`taken
      ensures |old(rx)| == |old(conns)| && View() == SerialHub.Attach(old(View()), r) && Inv(View())
      ensures answer == if Refusal(old(View()), r).Some? then Refusal(old(View()), r).value else Attached(old(nextId) + 1)
    {
      hide Inv, InvBut, Opened, Subscribe, Current;
      InvFacts(View(), r.port);
      AttachKeeps(View(), r);
      var refusal, baud := Validate(r);
      if refusal.Some? {
        return refusal.value;
      }
      var h;
      OpenedIs(View(), r.port, baud);
      refusal, h := Connect(r, baud);
      if refusal.Some? {
        return refusal.value;
      }
      SubscribedId(View(), h, r.access, r.replay);
      AddSubscriber(h, r.access, r.replay);
      return Attached(nextId);
    }

    method CloseSubscriberLocked(h: Handle, id: Id, reason: Reason)
      requires h < |conns| && (id in conns[h].clients ==> id in subs && !subs[id].closed)
      modifies this`conns, this`subs
      ensures id in old(conns)[h].clients ==> subs == old(subs)[id := old(subs)[id].(closed := true, reason := reason)]
      ensures id in old(conns)[h].clients ==> conns == old(conns)[h := Dropped(old(conns)[h], {id})]
      ensures id !in old(conns)[h].clients ==> subs == old(subs) && conns == old(conns)
    {
      var c := conns[h];
      if id !in c.clients {
        return;
      }
      subs := subs[id := subs[id].(closed := true, reason := reason)];
      c := c.(clients := c.clients - {id});
      if c.controller == id {
        c := c.(controller := 0);
      }
      conns := conns[h := c];
    }

    // The tail of broadcast and detach: the port goes with its last client.
    method CloseIfEmpty(h: Handle)
      requires h < |conns|
      modifies this`connections, this`conns
      ensures connections == if old(conns)[h].clients == {} then old(connections) - {old(conns)[h].port} else old(connections)
      ensures conns == old(conns)[h := old(conns)[h].(open := old(conns)[h].open && old(conns)[h].clients != {})]
    {
      var c := conns[h];
      if c.clients == {} {
        connections := connections - {c.port};
        conns := conns[h := c.(open := false)];
      }
    }

    // The select of broadcast: enqueue, or close a full subscriber.
    method DeliverOne(h: Handle, id: Id, data: Bytes)
      requires h < |conns| && id in conns[h].clients && id in subs && !subs[id].closed
      modifies this`conns, this`subs
      ensures old(Fits(subs[id])) ==> conns == old(conns) && subs == old(subs)[id := old(subs)[id].(queue := old(subs)[id].queue + [data])]
      ensures !old(Fits(subs[id])) ==> conns == old(conns)[h := Dropped(old(conns)[h], {id})] && subs == old(subs)[id := old(subs)[id].(closed := true, reason := SlowConsumer)]
    {
      if |subs[id].queue| < QUEUE_CHUNKS {
        subs := subs[id := subs[id].(queue := subs[id].queue + [data])];
      } else {
        CloseSubscriberLocked(h, id, SlowConsumer);
      }
    }

    method DeliverNext(h: Handle, id: Id, data: Bytes, ghost subs0: map<Id, Subscriber>, ghost conns0: seq<Connection>, ghost done: set<Id>)
      requires h < |conns0| && id in conns0[h].clients && id in subs0 && id !in done && !subs0[id].closed
      requires Delivering(subs0, conns0, h, data, done, subs, conns)
      modifies this`conns, this`subs
      ensures |conns| == |conns0| && Delivering(subs0, conns0, h, data, done + {id}, subs, conns)
    {
      DeliveringNext(subs0, conns0, h, data, done, id, subs, conns);
      assert |conns| == |conns0|;
      hide Delivering, Dropped;
      DeliverOne(h, id, data);
    }

    // The loop of broadcast over the clients.
    method Deliver(h: Handle, data: Bytes)
      requires h < |conns|
      requires forall id <- conns[h].clients :: id in subs && !subs[id].closed
      modifies this`conns, this`subs
      ensures var clients := old(conns)[h].clients;
        && subs == CloseSubs(Enqueue(old(subs), clients, data), clients * Slow(old(subs), clients), SlowConsumer)
        && conns == old(conns)[h := Dropped(old(conns)[h], Slow(old(subs), clients))]
    {
      hide Delivering, CloseSubs, Enqueue, Slow, Dropped, Fits;
      ghost var subs0, conns0 := subs, conns;
      NothingHeard(subs, conns, h, data);
      DeliverRest(h, data, conns[h].clients, subs, conns);
      DeliveringDone(subs0, conns0, h, data, subs, conns);
    }

    method DeliverRest(h: Handle, data: Bytes, clients: set<Id>, ghost subs0: map<Id, Subscriber>, ghost conns0: seq<Connection>)
      requires h < |conns0| && clients == conns0[h].clients && Delivering(subs0, conns0, h, data, {}, subs, conns)
      requires forall id <- clients :: id in subs0 && !subs0[id].closed
      modifies this`conns, this`subs
      ensures Delivering(subs0, conns0, h, data, clients, subs, conns)
    {
      hide Delivering, CloseSubs, Enqueue, Slow, Dropped, Fits;
      var rest := clients;
      assert clients - clients == {};
      while rest != {}
        invariant rest <= clients && Delivering(subs0, conns0, h, data, clients - rest, subs, conns)
        decreases |rest|
      {
        var id: Id := AnyOf(rest);
        DeliverNext(h, id, data, subs0, conns0, clients - rest);
        NextDone(clients, rest, id);
        rest := rest - {id};
      }
      assert clients - {} == clients;
    }

    method Record(h: Handle, data: Bytes)
      requires h < |conns| && h < |rx|
      modifies this`conns, this`rx
      ensures rx == old(rx)[h := old(rx)[h] + data]
      ensures conns == old(conns)[h := old(conns)[h].(ring := Suffix(old(conns)[h].ring + data, replayBytes))]
    {
      var c := conns[h];
      var ring := c.ring + data;
      if |ring| > replayBytes {
        ring := ring[|ring| - replayBytes..];
      }
      conns := conns[h := c.(ring := ring)];
      rx := rx[h := rx[h] + data];
    }

    method Broadcast(h: Handle, data: Bytes)
      requires Inv(View()) && h < |conns|
      modifies this`connections, this`conns, this`subs, this`rx
      ensures View() == SerialHub.Broadcast(old(View()), h, data) && Inv(View())
    {
      ghost var w := View();
      hide Inv, InvBut, CloseSubs, Enqueue, Slow, Suffix;
      BroadcastKeeps(w, h, data);
      InvFacts(w, conns[h].port);
      ClientFacts(w, h);
      if conns[h].port !in connections || connections[conns[h].port] != h {
        return;
      }
      BroadcastIs(w, h, data);
      hide SerialHub.Broadcast;
      Record(h, data);
      Deliver(h, data);
      CloseIfEmpty(h);
    }

    // closeSubscriberLocked for every client of a connection.
    method CloseAll(h: Handle, reason: Reason)
      requires h < |conns|
      requires forall id <- conns[h].clients :: id in subs && !subs[id].closed
      modifies this`conns, this`subs
      ensures subs == CloseSubs(old(subs), old(conns)[h].clients, reason)
      ensures conns == old(conns)[h := Dropped(old(conns)[h], old(conns)[h].clients)]
    {
      ghost var subs0, conns0 := subs, conns;
      var rest := conns[h].clients;
      ghost var done: set<Id> := {};
      NothingClosed(subs, conns, h, reason);
      hide Closing;
      while rest != {}
        invariant done == conns0[h].clients - rest && rest <= conns0[h].clients
        invariant |conns| == |conns0| && Closing(subs0, conns0, h, reason, done, subs, conns)
        decreases |rest|
      {
        var id: Id := AnyOf(rest);
        ClosingNext(subs0, conns0, h, reason, done, id, subs, conns);
        CloseSubscriberLocked(h, id, reason);
        rest := rest - {id};
        done := done + {id};
      }
      assert done == conns0[h].clients;
      ClosingDone(subs0, conns0, h, reason, subs, conns);
    }

    method EndConnection(h: Handle)
      requires Inv(View()) && h < |conns|
      modifies this`connections, this`conns, this`subs
      ensures View() == End(old(View()), h) && Inv(View())
    {
      ghost var w := View();
      hide Inv, InvBut, CloseSubs;
      EndKeeps(w, h);
      InvFacts(w, conns[h].port);
      ClientFacts(w, h);
      if conns[h].port in connections && connections[conns[h].port] == h {
        CloseAll(h, Disconnected);
        assert w.conns[h].clients * w.conns[h].clients == w.conns[h].clients;
        assert conns[h].clients == {};
        CloseIfEmpty(h);
      }
    }

    method Detach(port: Port, id: Id)
      requires Inv(View())
      modifies this`connections, this`conns, this`subs
      ensures View() == SerialHub.Detach(old(View()), port, id) && Inv(View())
    {
      ghost var w := View();
      hide Inv, InvBut, CloseClients;
      DetachKeeps(w, port, id);
      InvFacts(w, port);
      if port !in connections {
        return;
      }
      var h := connections[port];
      ClientFacts(w, h);
      DetachFacts(w, h, id);
      DetachIs(w, h, id);
      CloseSubscriberLocked(h, id, Detached);
      CloseIfEmpty(h);
    }

    // The consumer's receive; None when nothing is queued.
    method Receive(id: Id) returns (chunk: Option<Bytes>)
      requires Inv(View())
      modifies this`subs, this`taken
      ensures View() == Take(old(View()), id) && Inv(View())
      ensures chunk == if id in old(subs) && old(subs)[id].queue != [] then Some(old(subs)[id].queue[0]) else None
    {
      hide Inv, InvBut, Take;
      TakeKeeps(View(), id);
      TakeIs(View(), id);
      chunk := None;
      if id in subs && subs[id].queue != [] {
        chunk := Some(subs[id].queue[0]);
        taken := taken[id := taken[id] + subs[id].queue[0]];
        subs := subs[id := subs[id].(queue := subs[id].queue[1..])];
      }
    }

    method StopNext(h: Handle, ghost w: World, ghost done: set<Handle>)
      requires Inv(w) && h !in done && h < |w.conns| && Stopping(w, done, subs, conns)
      modifies this`conns, this`subs
      ensures |conns| == |w.conns| && Stopping(w, done + {h}, subs, conns)
    {
      assert |conns| == |w.conns|;
      hide Inv, InvBut, Stopping, Dropped, CloseSubs;
      StoppingClients(w, done, h, subs, conns);
      StoppingNext(w, done, h, subs, conns);
      CloseAll(h, Stopped);
    }

    method Close()
      requires Inv(View())
      modifies this`stopped, this`connections, this`conns, this`subs
      ensures View() == SerialHub.Close(old(View())) && Inv(View())
    {
      ghost var w := View();
      hide Inv, InvBut, SerialHub.Close, Stopping, Dropped, CloseSubs, Released, Shut, Current;
      CloseKeeps(w);
      CloseIs(w);
      if stopped {
        return;
      }
      stopped := true;
      var handles: set<Handle> := set p | p in connections :: connections[p];
      HandlesInRange(w, handles);
      var rest := handles;
      assert handles - handles == {};
      NothingStopped(w);
      while rest != {}
        invariant rest <= handles && stopped && connections == w.connections && Stopping(w, handles - rest, subs, conns)
        decreases |rest|
      {
        var h: Handle := AnyOf(rest);
        NextDone(handles, rest, h);
        StopNext(h, w, handles - rest);
        rest := rest - {h};
      }
      assert handles - {} == handles;
      AllStopped(w, handles, subs, conns);
      connections := map[];
      conns := Released(conns, handles);
    }

    // The lease is checked once, then the handle takes the data in pieces until it fails.  What went
    // out is a prefix of the data, all of it on success, and only the controller gets this far.
    // `faulty`: the handle may fail, or take nothing.
    method Write(port: Port, id: Id, data: Bytes, faulty: bool) returns (sent: nat, ok: bool)
      requires Inv(View()) && id != 0
      modifies this`tx
      ensures port !in connections ==> !ok && tx == old(tx)
      ensures port in connections ==> connections[port] < |conns| && (conns[connections[port]].controller != id ==> !ok && tx == old(tx))
      ensures sent <= |data| && (ok ==> sent == |data|)
      ensures !faulty ==> (ok <==> port in connections && conns[connections[port]].controller == id)
      ensures port in connections && conns[connections[port]].controller == id ==>
        tx == old(tx)[connections[port] := (if connections[port] in old(tx) then old(tx)[connections[port]] else "") + data[..sent]]
    {
      hide Inv, InvBut;
      InvFacts(View(), port);
      sent, ok := 0, false;
      if port !in connections || conns[connections[port]].controller != id {
        return;
      }
      var h := connections[port];
      ghost var before := if h in tx then tx[h] else "";
      tx := tx[h := before];
      assert before + data[..0] == before;
      while sent < |data|
        invariant 0 <= sent <= |data| && tx == old(tx)[h := before + data[..sent]]
      {
        var written: int, fails := *, *;
        if faulty && (fails || written <= 0) {
          return;
        }
        if !(0 < written <= |data| - sent) {
          written := |data| - sent;
        }
        tx := tx[h := tx[h] + data[sent..sent + written]];
        assert before + data[..sent] + data[sent..sent + written] == before + data[..sent + written];
        sent := sent + written;
      }
      ok := true;
    }
  }

  ghost predicate Closing(subs0: map<Id, Subscriber>, conns0: seq<Connection>, h: Handle, reason: Reason, done: set<Id>,
                          subs: map<Id, Subscriber>, conns: seq<Connection>)
    requires h < |conns0|
  {
    subs == CloseSubs(subs0, done, reason) && conns == conns0[h := Dropped(conns0[h], done)]
  }

  lemma NothingClosed(subs: map<Id, Subscriber>, conns: seq<Connection>, h: Handle, reason: Reason)
    requires h < |conns|
    ensures Closing(subs, conns, h, reason, {}, subs, conns)
  {
    assert conns[h].clients - {} == conns[h].clients;
  }

  lemma ClosingNext(subs0: map<Id, Subscriber>, conns0: seq<Connection>, h: Handle, reason: Reason, done: set<Id>, id: Id,
                    subs: map<Id, Subscriber>, conns: seq<Connection>)
    requires h < |conns0| && id in conns0[h].clients && id in subs0 && id !in done && !subs0[id].closed
    requires Closing(subs0, conns0, h, reason, done, subs, conns)
    ensures h < |conns| && id in conns[h].clients && id in subs && !subs[id].closed
    ensures Closing(subs0, conns0, h, reason, done + {id}, subs[id := subs[id].(closed := true, reason := reason)], conns[h := Dropped(conns[h], {id})])
  {
    assert conns0[h].clients - done - {id} == conns0[h].clients - (done + {id});
  }

  lemma ClosingDone(subs0: map<Id, Subscriber>, conns0: seq<Connection>, h: Handle, reason: Reason, subs: map<Id, Subscriber>, conns: seq<Connection>)
    requires h < |conns0| && Closing(subs0, conns0, h, reason, conns0[h].clients, subs, conns)
    ensures subs == CloseSubs(subs0, conns0[h].clients, reason) && conns == conns0[h := Dropped(conns0[h], conns0[h].clients)]
  {
  }

  lemma DetachIs(w: World, h: Handle, id: Id)
    requires h < |w.conns|
    requires var c := w.conns[h]; (c.controller == 0 || c.controller in c.clients) && (id in c.clients ==> id in w.subs && !w.subs[id].closed)
    ensures var c := w.conns[h];
      && (id in c.clients ==> CloseClients(w, h, {id}, Detached) == Without(w, h, Dropped(c, {id}), w.subs[id := w.subs[id].(closed := true, reason := Detached)]))
      && (id !in c.clients ==> CloseClients(w, h, {id}, Detached) == Without(w, h, c, w.subs))
  {
    hide CloseSubs, CloseClients, Dropped, Without;
    CloseClientsIs(w, h, {id}, Detached);
    OneClosed(w.subs, id);
    NoneClosed(w.subs);
    DropNone(w.conns[h], id);
    assert w.conns[h].clients * {id} == if id in w.conns[h].clients then {id} else {};
  }

  // A connection that may have lost its last client.
  function Without(w: World, h: Handle, c: Connection, subs: map<Id, Subscriber>): World
    requires h < |w.conns|
  {
    w.(subs := subs, conns := w.conns[h := c.(open := c.open && c.clients != {})], connections := if c.clients == {} then w.connections - {c.port} else w.connections)
  }

  lemma CloseClientsIs(w: World, h: Handle, ids: set<Id>, reason: Reason)
    requires h < |w.conns|
    ensures CloseClients(w, h, ids, reason) == Without(w, h, Dropped(w.conns[h], ids), CloseSubs(w.subs, w.conns[h].clients * ids, reason))
  {
    hide CloseSubs;
  }

  lemma DropNone(c: Connection, id: Id)
    requires c.controller == 0 || c.controller in c.clients
    ensures id !in c.clients ==> Dropped(c, {id}) == c
  {
    assert id !in c.clients ==> c.clients - {id} == c.clients;
  }

  lemma OneClosed(subs: map<Id, Subscriber>, id: Id)
    ensures id in subs && !subs[id].closed ==> CloseSubs(subs, {id}, Detached) == subs[id := subs[id].(closed := true, reason := Detached)]
  {
  }

  lemma NoneClosed(subs: map<Id, Subscriber>)
    ensures CloseSubs(subs, {}, Detached) == subs
  {
  }

  lemma DetachFacts(w: World, h: Handle, id: Id)
    requires Inv(w) && h < |w.conns| && Current(w, h)
    ensures var c := w.conns[h];
      && (c.controller == 0 || c.controller in c.clients) && (id in c.clients ==> id in w.subs && !w.subs[id].closed && id != 0)
  {
  }

  function ClientsOf(conns: seq<Connection>, handles: set<Handle>): set<Id>
    requires forall h <- handles :: h < |conns|
  {
    set h, id | h in handles && id in conns[h].clients :: id
  }

  // The connections in `done` have lost their clients.
  ghost predicate Stopping(w: World, done: set<Handle>, subs: map<Id, Subscriber>, conns: seq<Connection>) {
    && |conns| == |w.conns| && (forall h <- done :: h < |conns|)
    && subs == CloseSubs(w.subs, ClientsOf(w.conns, done), Stopped)
    && forall h | 0 <= h < |conns| :: conns[h] == if h in done then Dropped(w.conns[h], w.conns[h].clients) else w.conns[h]
  }

  lemma HandlesInRange(w: World, handles: set<Handle>)
    requires Inv(w) && handles == set p | p in w.connections :: w.connections[p]
    ensures forall h <- handles :: h < |w.conns|
  {
  }

  lemma NothingStopped(w: World)
    ensures Stopping(w, {}, w.subs, w.conns)
  {
    NoneClosed(w.subs);
    assert ClientsOf(w.conns, {}) == {};
  }

  // Every handle closed.
  function Released(conns: seq<Connection>, handles: set<Handle>): seq<Connection> {
    seq(|conns|, h requires 0 <= h < |conns| => if h in handles then conns[h].(open := false) else conns[h])
  }

  lemma OtherHandle(w: World, g: Handle, h: Handle, id: Id)
    requires Inv(w) && g != h && g < |w.conns| && h < |w.conns| && id in w.conns[h].clients
    ensures id !in w.conns[g].clients
  {
  }

  lemma ClientsOfNext(conns: seq<Connection>, done: set<Handle>, h: Handle)
    requires h < |conns| && forall g <- done :: g < |conns|
    ensures ClientsOf(conns, done + {h}) == ClientsOf(conns, done) + conns[h].clients
  {
  }

  lemma OthersClients(w: World, done: set<Handle>, h: Handle)
    requires Inv(w) && h !in done && h < |w.conns| && forall g <- done :: g < |w.conns|
    ensures w.conns[h].clients !! ClientsOf(w.conns, done)
    ensures ClientsOf(w.conns, done + {h}) == ClientsOf(w.conns, done) + w.conns[h].clients
  {
    hide Inv;
    ClientsOfNext(w.conns, done, h);
    forall id | id in w.conns[h].clients ensures id !in ClientsOf(w.conns, done) {
      forall g <- done ensures id !in w.conns[g].clients {
        OtherHandle(w, g, h, id);
      }
    }
  }

  lemma StoppingClients(w: World, done: set<Handle>, h: Handle, subs: map<Id, Subscriber>, conns: seq<Connection>)
    requires Inv(w) && h !in done && h < |w.conns| && Stopping(w, done, subs, conns)
    ensures h < |conns| && forall id <- conns[h].clients :: id in subs && !subs[id].closed
  {
    OthersClients(w, done, h);
    ClientFacts(w, h);
    hide Inv, InvBut;
  }

  lemma StoppingNext(w: World, done: set<Handle>, h: Handle, subs: map<Id, Subscriber>, conns: seq<Connection>)
    requires Inv(w) && h !in done && h < |w.conns| && Stopping(w, done, subs, conns)
    ensures h < |conns|
    ensures Stopping(w, done + {h}, CloseSubs(subs, conns[h].clients, Stopped), conns[h := Dropped(conns[h], conns[h].clients)])
  {
    hide Inv, InvBut, CloseSubs, ClientsOf;
    OthersClients(w, done, h);
    ClosedTwice(w.subs, ClientsOf(w.conns, done), w.conns[h].clients);
  }

  lemma ClosedTwice(subs: map<Id, Subscriber>, a: set<Id>, b: set<Id>)
    ensures CloseSubs(CloseSubs(subs, a, Stopped), b, Stopped) == CloseSubs(subs, a + b, Stopped)
  {
  }

  lemma AllClosed(w: World, handles: set<Handle>)
    requires Inv(w) && handles == set p | p in w.connections :: w.connections[p]
    ensures forall h <- handles :: h < |w.conns|
    ensures CloseSubs(w.subs, ClientsOf(w.conns, handles), Stopped) == CloseSubs(w.subs, w.subs.Keys, Stopped)
  {
    hide Inv, InvBut;
    HandlesInRange(w, handles);
    forall id | id in w.subs && !w.subs[id].closed ensures id in ClientsOf(w.conns, handles) {
      OpenSubscriber(w, id);
      assert w.subs[id].conn in handles;
    }
  }

  lemma OpenSubscriber(w: World, id: Id)
    requires Inv(w) && id in w.subs && !w.subs[id].closed
    ensures w.subs[id].conn < |w.conns|
    ensures var c := w.conns[w.subs[id].conn]; id in c.clients && c.port in w.connections && w.connections[c.port] == w.subs[id].conn
  {
  }

  lemma ShutOne(w: World, handles: set<Handle>, h: Handle)
    requires Inv(w) && handles == (set p | p in w.connections :: w.connections[p]) && h < |w.conns|
    ensures (if h in handles then Dropped(w.conns[h], w.conns[h].clients).(open := false) else w.conns[h]) == w.conns[h].(clients := {}, controller := 0, open := false)
  {
    var c := w.conns[h];
    assert c.open ==> h in handles;
    assert c.controller != 0 ==> c.controller in c.clients;
    assert !c.open ==> c.clients == {} && c.controller == 0;
    hide Inv, InvBut;
    assert c.clients - c.clients == {};
  }

  lemma AllStopped(w: World, handles: set<Handle>, subs: map<Id, Subscriber>, conns: seq<Connection>)
    requires Inv(w) && Stopping(w, handles, subs, conns) && handles == set p | p in w.connections :: w.connections[p]
    ensures subs == CloseSubs(w.subs, w.subs.Keys, Stopped) && Released(conns, handles) == Shut(w.conns)
  {
    hide Inv, InvBut, CloseSubs, ClientsOf, Dropped;
    AllClosed(w, handles);
    forall h | 0 <= h < |conns| ensures Released(conns, handles)[h] == Shut(w.conns)[h] {
      ShutOne(w, handles, h);
    }
  }

  lemma CloseIs(w: World)
    ensures SerialHub.Close(w) == if w.stopped then w else
      w.(stopped := true, connections := map[], conns := Shut(w.conns), subs := CloseSubs(w.subs, w.subs.Keys, Stopped))
  {
  }

  lemma TakeIs(w: World, id: Id)
    requires Inv(w)
    ensures id in w.subs ==> id in w.taken
    ensures Take(w, id) == if id in w.subs && w.subs[id].queue != [] then
      w.(subs := w.subs[id := w.subs[id].(queue := w.subs[id].queue[1..])], taken := w.taken[id := w.taken[id] + w.subs[id].queue[0]]) else w
  {
  }

  lemma BroadcastIs(w: World, h: Handle, data: Bytes)
    requires Inv(w) && Current(w, h)
    ensures h < |w.rx|
    ensures var v := SerialHub.Broadcast(w, h, data);
      var c := w.conns[h];
      var slow := Slow(w.subs, c.clients);
      var c' := Dropped(c.(ring := Suffix(c.ring + data, w.replayBytes)), slow);
      v == w.(rx := w.rx[h := w.rx[h] + data], subs := CloseSubs(Enqueue(w.subs, c.clients, data), c.clients * slow, SlowConsumer),
              conns := w.conns[h := c'.(open := c'.open && c'.clients != {})], connections := if c'.clients == {} then w.connections - {c.port} else w.connections)
  {
    hide SerialHub.Broadcast, CloseSubs, Enqueue, Slow, Suffix, Inv, CloseClients;
    BroadcastSubs(w, h, data);
    var v, slow := Heard(w, h, data), Slow(w.subs, w.conns[h].clients);
    CloseClientsIs(v, h, slow, SlowConsumer);
    assert v.conns[h] == w.conns[h].(ring := Suffix(w.conns[h].ring + data, w.replayBytes));
    var d := Dropped(v.conns[h], slow);
    var last := d.(open := d.open && d.clients != {});
    assert v.conns[h := last] == w.conns[h := last];
  }

  lemma InvFacts(w: World, port: Port)
    requires Inv(w)
    ensures |w.rx| == |w.conns|
    ensures port in w.connections ==> w.connections[port] < |w.conns| && Current(w, w.connections[port]) && w.conns[w.connections[port]].port == port
  {
    TableFacts(w, port);
  }

  lemma ClientFacts(w: World, h: Handle)
    requires Inv(w) && h < |w.conns|
    ensures forall id <- w.conns[h].clients :: id in w.subs && w.subs[id].conn == h && !w.subs[id].closed
  {
    ClientsAre(w, h);
  }

  // The clients in `done` have been served.
  ghost predicate Delivering(subs0: map<Id, Subscriber>, conns0: seq<Connection>, h: Handle, data: Bytes, done: set<Id>,
                             subs: map<Id, Subscriber>, conns: seq<Connection>)
    requires h < |conns0|
  {
    && subs == CloseSubs(Enqueue(subs0, done, data), done * Slow(subs0, done), SlowConsumer)
    && conns == conns0[h := Dropped(conns0[h], Slow(subs0, done))]
  }

  lemma NextDone<T>(all: set<T>, rest: set<T>, x: T)
    requires rest <= all && x in rest
    ensures all - rest + {x} == all - (rest - {x}) && x !in all - rest
  {
  }

  lemma NothingHeard(subs: map<Id, Subscriber>, conns: seq<Connection>, h: Handle, data: Bytes)
    requires h < |conns|
    ensures Delivering(subs, conns, h, data, {}, subs, conns)
  {
    assert Slow(subs, {}) == {} && conns[h].clients - {} == conns[h].clients;
  }

  lemma DeliveringNext(subs0: map<Id, Subscriber>, conns0: seq<Connection>, h: Handle, data: Bytes, done: set<Id>, id: Id,
                       subs: map<Id, Subscriber>, conns: seq<Connection>)
    requires h < |conns0| && id in conns0[h].clients && id in subs0 && id !in done && !subs0[id].closed
    requires Delivering(subs0, conns0, h, data, done, subs, conns)
    ensures h < |conns| && id in subs && subs[id] == subs0[id] && id in conns[h].clients
    ensures Fits(subs[id]) ==> Delivering(subs0, conns0, h, data, done + {id}, subs[id := subs[id].(queue := subs[id].queue + [data])], conns)
    ensures !Fits(subs[id]) ==> Delivering(subs0, conns0, h, data, done + {id}, subs[id := subs[id].(closed := true, reason := SlowConsumer)], conns[h := Dropped(conns[h], {id})])
  {
    HeardNext(subs0, done, data, id);
    DroppedNext(conns0[h], subs0, done, id);
    hide CloseSubs, Enqueue, Slow, Dropped, Fits;
  }

  lemma DeliveringDone(subs0: map<Id, Subscriber>, conns0: seq<Connection>, h: Handle, data: Bytes, subs: map<Id, Subscriber>, conns: seq<Connection>)
    requires h < |conns0| && Delivering(subs0, conns0, h, data, conns0[h].clients, subs, conns)
    ensures var clients := conns0[h].clients;
      && subs == CloseSubs(Enqueue(subs0, clients, data), clients * Slow(subs0, clients), SlowConsumer)
      && conns == conns0[h := Dropped(conns0[h], Slow(subs0, clients))]
  {
  }

  lemma OpenedIs(w: World, port: Port, baud: nat)
    requires |w.rx| == |w.conns|
    ensures var v := Opened(w, port, baud); |v.conns| == |v.rx| == |w.conns| + 1 && v.conns[|w.conns|].controller == 0 && v.nextId == w.nextId
  {
  }

  lemma SubscribedId(w: World, h: Handle, access: Access, replay: bool)
    requires h < |w.conns| && h < |w.rx|
    ensures Subscribe(w, h, access, replay).nextId == w.nextId + 1
  {
  }

  lemma HeardNext(subs: map<Id, Subscriber>, done: set<Id>, data: Bytes, id: Id)
    requires id in subs && id !in done && !subs[id].closed
    ensures var before := CloseSubs(Enqueue(subs, done, data), done * Slow(subs, done), SlowConsumer);
      var more := done + {id};
      && id in before && before[id] == subs[id]
      && CloseSubs(Enqueue(subs, more, data), more * Slow(subs, more), SlowConsumer) ==
      if Fits(subs[id]) then before[id := subs[id].(queue := subs[id].queue + [data])]
      else before[id := subs[id].(closed := true, reason := SlowConsumer)]
  {
  }

  lemma DroppedNext(c: Connection, subs: map<Id, Subscriber>, done: set<Id>, id: Id)
    requires id in subs && id !in done
    ensures id in c.clients ==> id in Dropped(c, Slow(subs, done)).clients
    ensures Slow(subs, done + {id}) == if Fits(subs[id]) then Slow(subs, done) else Slow(subs, done) + {id}
    ensures Dropped(c, Slow(subs, done + {id})) == if Fits(subs[id]) then Dropped(c, Slow(subs, done)) else Dropped(Dropped(c, Slow(subs, done)), {id})
  {
    assert Slow(subs, done + {id}) == if Fits(subs[id]) then Slow(subs, done) else Slow(subs, done) + {id};
    if !Fits(subs[id]) {
      assert c.clients - (Slow(subs, done) + {id}) == c.clients - Slow(subs, done) - {id};
    }
  }
}
