/**
 What the serial multiplexer promises over whole runs: who owns a port, which bytes each attachment
 gets, and when an attachment ends.
 */
module SerialRuns {
  import opened Text
  import opened SerialHub

  // ----- Ownership ---------------------------------------------------------------------------------

  // In every reachable state a port is open exactly while the table has it, with at least one client;
  // its controller is nobody or one of its clients, and every client belongs to one port only.
  lemma EveryPortIsOwned(replayBytes: nat, defaultBaud: nat, ops: seq<Op>, h: Handle)
    requires h < |Run(Initial(replayBytes, defaultBaud), ops).conns|
    ensures var w := Run(Initial(replayBytes, defaultBaud), ops);
      && (w.conns[h].open <==> Current(w, h))
      && (w.conns[h].open <==> w.conns[h].clients != {})
      && (w.conns[h].controller == 0 || w.conns[h].controller in w.conns[h].clients)
      && (forall g | 0 <= g < |w.conns| && g != h :: w.conns[g].clients !! w.conns[h].clients)
  {
    EveryRunKeeps(replayBytes, defaultBaud, ops);
    hide Run, Leased, Streamed, RingsAreSuffixes;
    var w := Run(Initial(replayBytes, defaultBaud), ops);
    ControllerIsClient(w, h);
  }

  lemma ControllerIsClient(w: World, h: Handle)
    requires Leased(w.conns, w.subs) && h < |w.conns|
    ensures w.conns[h].controller == 0 || w.conns[h].controller in w.conns[h].clients
  {
  }

  ghost predicate IsClient(w: World, port: Port, id: Id) {
    port in w.connections && w.connections[port] < |w.conns| && id in w.conns[w.connections[port]].clients
  }

  lemma NotAClient(w: World, h: Handle, id: Id)
    requires h < |w.conns| && id !in w.conns[h].clients && w.conns[h].clients != {} && w.conns[h].open
    requires w.conns[h].controller == 0 || w.conns[h].controller != id
    ensures CloseClients(w, h, {id}, Detached) == w
  {
    var c := w.conns[h];
    assert c.clients - {id} == c.clients && c.clients * {id} == {};
    assert CloseSubs(w.subs, {}, Detached) == w.subs;
    assert c.(clients := c.clients, controller := c.controller, open := true) == c;
  }

  lemma ClientGoes(w: World, h: Handle, id: Id)
    requires h < |w.conns| && id in w.conns[h].clients
    ensures CloseClients(w, h, {id}, Detached) != w
  {
    assert CloseClients(w, h, {id}, Detached).conns[h].clients == w.conns[h].clients - {id};
  }

  lemma ClientFacts(w: World, port: Port, id: Id)
    requires Inv(w) && port in w.connections
    ensures w.connections[port] < |w.conns|
    ensures var c := w.conns[w.connections[port]];
      && c.open && c.clients != {} && c.port == port && (c.controller == 0 || c.controller in c.clients)
      && (id in w.subs && (w.subs[id].closed || (w.subs[id].conn < |w.conns| && w.conns[w.subs[id].conn].port != port)) ==> id !in c.clients)
  {
  }

  // A detach has an effect only for a client of the port as it is now: one left over from an earlier
  // connection of the same port changes nothing, and neither does a second detach.
  lemma StaleDetachChangesNothing(w: World, port: Port, id: Id)
    requires Inv(w)
    ensures Detach(w, port, id) == w <==> !IsClient(w, port, id)
    ensures id in w.subs && (w.subs[id].closed || (w.subs[id].conn < |w.conns| && w.conns[w.subs[id].conn].port != port)) ==> Detach(w, port, id) == w
  {
    hide Inv, CloseClients;
    if port in w.connections {
      ClientFacts(w, port, id);
      var h := w.connections[port];
      if id in w.conns[h].clients {
        ClientGoes(w, h, id);
      } else {
        NotAClient(w, h, id);
      }
    }
  }

  // An attachment holds its port's lease from the moment it was granted until it is closed.
  lemma LeaseLastsUntilClosed(w: World, id: Id)
    requires Inv(w) && id in w.subs
    ensures w.subs[id].conn < |w.conns|
    ensures w.conns[w.subs[id].conn].controller == id <==> w.subs[id].access == Controller && !w.subs[id].closed
  {
  }

  // ----- What later states remember -------------------------------------------------------------------

  ghost predicate IsPrefix(a: Bytes, b: Bytes) {
    |a| <= |b| && a == b[..|a|]
  }

  // Between two states of a subscriber: same port and place in the stream; once closed, nothing more.
  ghost predicate SubLater(w: World, v: World, id: Id)
    requires id in w.subs && id in w.taken && id in w.from
  {
    && id in v.subs && id in v.taken && id in v.from && v.from[id] == w.from[id]
    && v.subs[id].conn == w.subs[id].conn && v.subs[id].access == w.subs[id].access
    && IsPrefix(w.taken[id], v.taken[id]) && IsPrefix(Delivered(w, id), Delivered(v, id))
    && (w.subs[id].closed ==> v.subs[id].closed && v.subs[id].reason == w.subs[id].reason && Delivered(v, id) == Delivered(w, id))
  }

  ghost predicate StreamsLater(rx: seq<Bytes>, rx': seq<Bytes>) {
    |rx| <= |rx'| && forall h | 0 <= h < |rx| :: IsPrefix(rx[h], rx'[h])
  }

  ghost predicate ConnsLater(conns: seq<Connection>, conns': seq<Connection>) {
    |conns| <= |conns'| && forall h | 0 <= h < |conns| ::
        conns'[h].port == conns[h].port && conns'[h].baud == conns[h].baud && (!conns[h].open ==> !conns'[h].open)
  }

  ghost predicate SubsLater(w: World, v: World) {
    && w.subs.Keys == w.from.Keys == w.taken.Keys
    && forall id <- w.subs :: SubLater(w, v, id)
  }

  ghost predicate Later(w: World, v: World) {
    && w.replayBytes == v.replayBytes && w.nextId <= v.nextId && (w.stopped ==> v.stopped)
    && ConnsLater(w.conns, v.conns) && StreamsLater(w.rx, v.rx) && SubsLater(w, v)
  }

  lemma LaterIsTransitive(a: World, b: World, c: World)
    requires Later(a, b) && Later(b, c)
    ensures Later(a, c)
  {
    forall id <- a.subs ensures SubLater(a, c, id) {
      assert SubLater(a, b, id) && SubLater(b, c, id);
      hide Delivered;
    }
    assert StreamsLater(a.rx, c.rx) by {
      forall h | 0 <= h < |a.rx| ensures IsPrefix(a.rx[h], c.rx[h]) {
        assert IsPrefix(a.rx[h], b.rx[h]) && IsPrefix(b.rx[h], c.rx[h]);
      }
    }
  }

  lemma CloseClientsLater(w: World, h: Handle, ids: set<Id>, reason: Reason)
    requires h < |w.conns| && w.subs.Keys == w.from.Keys == w.taken.Keys
    ensures Later(w, CloseClients(w, h, ids, reason))
  {
    var v := CloseClients(w, h, ids, reason);
    forall id <- w.subs ensures SubLater(w, v, id) {
      hide Flat;
    }
  }

  lemma HeardSub(w: World, h: Handle, data: Bytes, id: Id)
    requires h < |w.conns| && h < |w.rx| && id in w.subs && id in w.from && id in w.taken
    requires id in w.conns[h].clients ==> !w.subs[id].closed
    ensures SubLater(w, Heard(w, h, data), id)
  {
    hide Flat, Suffix, Slow;
    var s, v := w.subs[id], Heard(w, h, data);
    FlatNext(s.queue, data);
    assert w.taken[id] + Flat(s.queue + [data]) == w.taken[id] + Flat(s.queue) + data;
    assert v.subs[id] == if id in w.conns[h].clients && Fits(s) then s.(queue := s.queue + [data]) else s;
    assert v.taken == w.taken && v.from == w.from;
    hide Heard, Enqueue;
  }

  lemma HeardLater(w: World, h: Handle, data: Bytes)
    requires Inv(w) && h < |w.conns|
    ensures h < |w.rx| && Later(w, Heard(w, h, data))
  {
    hide Tabled, Inhabited, Owned, Leased, SubLater, Fed, Suffix, Enqueue;
    ClientsAre(w, h);
    forall id <- w.subs ensures SubLater(w, Heard(w, h, data), id) {
      HeardSub(w, h, data, id);
    }
  }

  lemma BroadcastLater(w: World, h: Handle, data: Bytes)
    requires Inv(w)
    ensures Later(w, Broadcast(w, h, data))
  {
    hide Later, Heard, CloseClients, Tabled, Inhabited, Owned, Leased, RingsAreSuffixes, Delivered, Suffix, Enqueue, Slow;
    if Current(w, h) {
      var slow := Slow(w.subs, w.conns[h].clients);
      HeardLater(w, h, data);
      BroadcastSubs(w, h, data);
      var w1 := Heard(w, h, data);
      HeardShape(w, h, data);
      CloseClientsLater(w1, h, slow, SlowConsumer);
      LaterIsTransitive(w, w1, CloseClients(w1, h, slow, SlowConsumer));
    } else {
      ReflexiveLater(w);
    }
  }

  lemma HeardShape(w: World, h: Handle, data: Bytes)
    requires h < |w.conns| && h < |w.rx|
    ensures var v := Heard(w, h, data); |v.conns| == |w.conns| && v.subs.Keys == w.subs.Keys && v.from == w.from && v.taken == w.taken
  {
  }

  lemma ReflexiveLater(w: World)
    requires w.subs.Keys == w.from.Keys == w.taken.Keys
    ensures Later(w, w)
  {
    hide Delivered;
  }

  lemma SubscribeLater(w: World, h: Handle, access: Access, replay: bool)
    requires h < |w.conns| && h < |w.rx| && w.subs.Keys == w.from.Keys == w.taken.Keys && w.nextId + 1 !in w.subs
    ensures Later(w, Subscribe(w, h, access, replay))
  {
    var v := Subscribe(w, h, access, replay);
    forall id <- w.subs ensures SubLater(w, v, id) {
      hide Flat;
    }
  }

  lemma OpenedLater(w: World, port: Port, baud: nat)
    requires w.subs.Keys == w.from.Keys == w.taken.Keys
    ensures Later(w, Opened(w, port, baud))
  {
    var v := Opened(w, port, baud);
    forall id <- w.subs ensures SubLater(w, v, id) {
      hide Flat;
    }
  }

  lemma AttachLater(w: World, r: Request)
    requires Inv(w)
    ensures |w.rx| == |w.conns| && Later(w, Attach(w, r))
  {
    TableFacts(w, r.port);
    assert w.nextId + 1 !in w.subs;
    hide Later, Tabled, Inhabited, Owned, Leased, RingsAreSuffixes, Subscribe;
    if Refusal(w, r).Some? {
      ReflexiveLater(w);
    } else if r.port in w.connections && w.connections[r.port] < |w.conns| {
      SubscribeLater(w, w.connections[r.port], r.access, r.replay);
    } else {
      var w1 := Opened(w, r.port, Baud(w, r));
      OpenedLater(w, r.port, Baud(w, r));
      SubscribeLater(w1, |w.conns|, r.access, r.replay);
      LaterIsTransitive(w, w1, Subscribe(w1, |w.conns|, r.access, r.replay));
    }
  }

  lemma TakeLater(w: World, id: Id)
    requires w.subs.Keys == w.from.Keys == w.taken.Keys
    ensures Later(w, Take(w, id))
  {
    var v := Take(w, id);
    forall x <- w.subs ensures SubLater(w, v, x) {
      TakeSub(w, id, x);
    }
    hide SubLater;
  }

  lemma TakeSub(w: World, id: Id, x: Id)
    requires x in w.subs && x in w.from && x in w.taken
    ensures SubLater(w, Take(w, id), x)
  {
    if id in w.subs && w.subs[id].queue != [] {
      FlatFirst(w.subs[id].queue);
      hide Flat;
      if id in w.taken {
        assert w.taken[id] + Flat(w.subs[id].queue) == w.taken[id] + w.subs[id].queue[0] + Flat(w.subs[id].queue[1..]);
      }
    }
    hide Flat;
  }

  lemma CloseLater(w: World)
    requires w.subs.Keys == w.from.Keys == w.taken.Keys
    ensures Later(w, Close(w))
  {
    var v := Close(w);
    forall id <- w.subs ensures SubLater(w, v, id) {
      hide Flat;
    }
  }

  lemma StepLater(w: World, op: Op)
    requires Inv(w)
    ensures Later(w, Step(w, op))
  {
    hide Later, Tabled, Inhabited, Owned, Leased, RingsAreSuffixes, Attach, Broadcast, CloseClients, Take, Close;
    match op
    case OpAttach(r) => AttachLater(w, r);
    case OpBroadcast(h, data) => BroadcastLater(w, h, data);
    case OpEnd(h) =>
      if Current(w, h) { CloseClientsLater(w, h, w.conns[h].clients, Disconnected); } else { ReflexiveLater(w); }
    case OpDetach(port, id) =>
      if port in w.connections && w.connections[port] < |w.conns| { CloseClientsLater(w, w.connections[port], {id}, Detached); } else { ReflexiveLater(w); }
    case OpTake(id) => TakeLater(w, id);
    case OpClose => CloseLater(w);
  }

  // Streams only grow, attachments keep their place, closing is for good, and IDs are never reused.
  lemma {:induction false} RunLater(w: World, ops: seq<Op>)
    requires Inv(w)
    ensures Later(w, Run(w, ops))
    decreases |ops|
  {
    hide Later, Tabled, Inhabited, Owned, Leased, RingsAreSuffixes, Step;
    if ops == [] {
      ReflexiveLater(w);
    } else {
      StepLater(w, ops[0]);
      StepKeeps(w, ops[0]);
      RunLater(Step(w, ops[0]), ops[1..]);
      LaterIsTransitive(w, Step(w, ops[0]), Run(w, ops));
    }
  }

  // ----- Which attachments are granted ------------------------------------------------------------------

  // An attachment that is still open on a port.
  ghost predicate OpenOn(w: World, port: Port, id: Id) {
    id in w.subs && !w.subs[id].closed && w.subs[id].conn < |w.conns| && w.conns[w.subs[id].conn].port == port
  }

  // An attachment is granted if and only if the port is named and found, its rate (the default if
  // none is asked for) is within bounds, the manager runs, nobody open on the port uses another
  // rate, no two would control it, and a port that nobody has open can be opened.
  lemma AttachExactly(w: World, r: Request)
    requires Inv(w)
    ensures var rate := if r.baud != 0 then r.baud else w.defaultBaud;
      Refusal(w, r).None? <==>
        && r.port != "" && 300 <= rate <= 4_000_000 && r.found && !w.stopped
        && (forall id | OpenOn(w, r.port, id) ::
              w.conns[w.subs[id].conn].baud == rate && (r.access == Controller ==> w.subs[id].access != Controller))
        && (r.opens || exists id :: OpenOn(w, r.port, id))
  {
    hide Streamed, RingsAreSuffixes;
    if r.port in w.connections {
      PortHasClients(w, r.port);
    } else {
      NobodyOnUnopened(w, r.port);
    }
  }

  lemma PortHasClients(w: World, port: Port)
    requires Inv(w) && port in w.connections
    ensures w.connections[port] < |w.conns| && exists id :: OpenOn(w, port, id)
    ensures forall id :: OpenOn(w, port, id) ==> w.subs[id].conn == w.connections[port]
    ensures var lease := w.conns[w.connections[port]].controller;
      lease != 0 <==> exists id :: OpenOn(w, port, id) && w.subs[id].access == Controller
  {
    hide Streamed, RingsAreSuffixes;
    var h := w.connections[port];
    var some :| some in w.conns[h].clients;
    assert OpenOn(w, port, some);
    var lease := w.conns[h].controller;
    if lease != 0 {
      assert OpenOn(w, port, lease);
    }
  }

  lemma NobodyOnUnopened(w: World, port: Port)
    requires Inv(w) && port !in w.connections
    ensures forall id :: !OpenOn(w, port, id)
  {
    hide Streamed, RingsAreSuffixes, Leased;
  }

  // A granted attachment is new, on the port and at the rate that were asked for, and open; the
  // others are untouched.  A refused one changes nothing.
  lemma AttachGrants(w: World, r: Request)
    requires Inv(w)
    ensures |w.rx| == |w.conns| && (Refusal(w, r).Some? ==> Attach(w, r) == w)
    ensures var v := Attach(w, r); Refusal(w, r).None? ==>
      && v.subs.Keys == w.subs.Keys + {v.nextId} && v.nextId !in w.subs && (forall id <- w.subs :: v.subs[id] == w.subs[id])
      && OpenOn(v, r.port, v.nextId) && v.subs[v.nextId].access == r.access
      && v.conns[v.subs[v.nextId].conn].baud == if r.baud != 0 then r.baud else w.defaultBaud
  {
    BeforeAttach(w, r.port);
    PortIsTabled(w, r.port);
    hide Inv, Suffix, Subscribe, OpenOn;
    if Refusal(w, r).None? {
      if r.port in w.connections {
        AttachGrantsRate(w, r);
        SubscribeGrants(w, w.connections[r.port], r.access, r.replay);
      } else {
        SubscribeGrants(Opened(w, r.port, Baud(w, r)), |w.conns|, r.access, r.replay);
      }
    }
  }

  lemma AttachGrantsRate(w: World, r: Request)
    requires Refusal(w, r).None? && r.port in w.connections && w.connections[r.port] < |w.conns|
    ensures w.conns[w.connections[r.port]].baud == if r.baud != 0 then r.baud else w.defaultBaud
  {
  }

  lemma SubscribeGrants(w: World, h: Handle, access: Access, replay: bool)
    requires h < |w.conns| == |w.rx| && w.nextId + 1 !in w.subs
    ensures var v := Subscribe(w, h, access, replay); var id := v.nextId;
      && v.subs.Keys == w.subs.Keys + {id} && id !in w.subs && (forall x <- w.subs :: v.subs[x] == w.subs[x])
      && OpenOn(v, w.conns[h].port, id) && v.subs[id].access == access && v.conns[v.subs[id].conn].baud == w.conns[h].baud
  {
  }

  lemma PortIsTabled(w: World, port: Port)
    requires Inv(w)
    ensures port in w.connections ==> w.connections[port] < |w.conns| && w.conns[w.connections[port]].port == port
  {
  }

  // ----- Stream fidelity -------------------------------------------------------------------------------

  // What the port had received when the request came; a port about to be opened has received nothing.
  function HeardBefore(w: World, r: Request): Bytes {
    if r.port in w.connections && w.connections[r.port] < |w.rx| then w.rx[w.connections[r.port]] else ""
  }

  lemma AttachPlaces(w: World, r: Request)
    requires Inv(w) && Refusal(w, r).None?
    ensures |w.rx| == |w.conns|
    ensures var v := Attach(w, r); var id := v.nextId;
      && id == w.nextId + 1 && id !in w.subs && id in v.subs && id in v.from && id in v.taken
      && !v.subs[id].closed && v.subs[id].conn < |v.rx| && v.rx[v.subs[id].conn] == HeardBefore(w, r)
      && v.from[id] == |HeardBefore(w, r)| - |if r.replay then Suffix(HeardBefore(w, r), w.replayBytes) else ""|
  {
    hide Inv, Suffix, Subscribe;
    BeforeAttach(w, r.port);
    if r.port in w.connections {
      SubscribePlaces(w, w.connections[r.port], r.access, r.replay);
    } else {
      SubscribePlaces(Opened(w, r.port, Baud(w, r)), |w.conns|, r.access, r.replay);
    }
  }

  lemma BeforeAttach(w: World, port: Port)
    requires Inv(w)
    ensures |w.rx| == |w.conns| && w.nextId + 1 !in w.subs
    ensures port in w.connections ==> w.connections[port] < |w.conns| && w.conns[w.connections[port]].ring == Suffix(w.rx[w.connections[port]], w.replayBytes)
    ensures Suffix("", w.replayBytes) == ""
  {
  }

  lemma SubscribePlaces(w: World, h: Handle, access: Access, replay: bool)
    requires h < |w.conns| == |w.rx| && w.conns[h].ring == Suffix(w.rx[h], w.replayBytes)
    ensures var v := Subscribe(w, h, access, replay); var id := v.nextId;
      && id == w.nextId + 1 && id in v.subs && id in v.from && id in v.taken && !v.subs[id].closed && v.subs[id].conn == h && v.rx == w.rx
      && v.from[id] == |w.rx[h]| - |if replay then Suffix(w.rx[h], w.replayBytes) else ""|
  {
    assert |Suffix(w.rx[h], w.replayBytes)| <= |w.rx[h]|;
  }

  // The piece of `rx` from `start` on is the replay, then what came after `before`.
  lemma PieceOf(rx: Bytes, before: Bytes, replay: Bytes, start: nat, got: Bytes)
    requires IsPrefix(before, rx) && start == |before| - |replay| && replay == before[start..]
    requires start + |got| <= |rx| && got == rx[start..start + |got|] && |replay| <= |got|
    ensures IsPrefix(got, replay + rx[|before|..])
    ensures start + |got| == |rx| ==> got == replay + rx[|before|..]
  {
    assert rx[start..] == rx[start..|before|] + rx[|before|..];
    assert rx[start..|before|] == before[start..];
    assert got == rx[start..][..|got|];
  }

  ghost predicate IsReplay(replay: Bytes, before: Bytes, limit: nat) {
    |replay| == (if limit < |before| then limit else |before|) && before == before[..|before| - |replay|] + replay
  }

  lemma SuffixIsReplay(before: Bytes, limit: nat)
    ensures IsReplay(Suffix(before, limit), before, limit)
  {
  }

  // An attachment gets the last bytes before it, if it asked for them, then every byte from then on,
  // in order, without gap or repeat; all of them while it is open, and up to one point after that.
  lemma StreamFidelity(w: World, r: Request, ops: seq<Op>)
    requires Inv(w) && Refusal(w, r).None?
    ensures |w.rx| == |w.conns|
    ensures var id := Attach(w, r).nextId; var v := Run(Attach(w, r), ops);
      && id in v.subs && id in v.taken && v.subs[id].conn < |v.rx|
      && IsPrefix(HeardBefore(w, r), v.rx[v.subs[id].conn])
      && var replay := if r.replay then Suffix(HeardBefore(w, r), w.replayBytes) else "";
      && var since := v.rx[v.subs[id].conn][|HeardBefore(w, r)|..];
      && (!v.subs[id].closed ==> Delivered(v, id) == replay + since)
      && IsPrefix(Delivered(v, id), replay + since) && |replay| <= |Delivered(v, id)|
      && IsPrefix(v.taken[id], Delivered(v, id))
    // The replay is the end of what was heard before, as long as the ring allows.
    ensures r.replay ==> IsReplay(Suffix(HeardBefore(w, r), w.replayBytes), HeardBefore(w, r), w.replayBytes)
  {
    SuffixIsReplay(HeardBefore(w, r), w.replayBytes);
    hide IsReplay;
    hide Attach, Run, Refusal, Flat, Tabled, Inhabited, Owned, Leased, RingsAreSuffixes, ConnsLater, HeardBefore, Fed, SubLater, IsPrefix;
    AttachPlaces(w, r);
    AttachKeeps(w, r);
    var a := Attach(w, r);
    var id, v := a.nextId, Run(a, ops);
    RunKeeps(a, ops);
    RunLater(a, ops);
    LaterSub(a, v, id);
    hide Inv, Later;
    AttachmentFed(w, r, a, id, v);
  }

  lemma LaterSub(a: World, v: World, id: Id)
    requires Inv(a) && Inv(v) && Later(a, v) && id in a.subs
    ensures id in a.from && id in a.taken && SubLater(a, v, id) && id in v.taken && v.subs[id].conn == a.subs[id].conn
    ensures Fed(v.subs[id], v.from[id], v.taken[id], v.rx) && Fed(a.subs[id], a.from[id], a.taken[id], a.rx)
    ensures a.subs[id].conn < |a.rx| <= |v.rx| && IsPrefix(a.rx[a.subs[id].conn], v.rx[a.subs[id].conn])
  {
    hide Tabled, Inhabited, Owned, Leased, RingsAreSuffixes, ConnsLater, IsPrefix, Flat;
    assert SubLater(a, v, id);
    hide SubLater;
    assert Fed(a.subs[id], a.from[id], a.taken[id], a.rx) && Fed(v.subs[id], v.from[id], v.taken[id], v.rx);
  }

  lemma AttachmentFed(w: World, r: Request, a: World, id: Id, v: World)
    requires id in a.subs && id in a.from && id in a.taken && a.subs[id].conn < |a.rx| && a.rx[a.subs[id].conn] == HeardBefore(w, r) && !a.subs[id].closed
    requires a.from[id] == |HeardBefore(w, r)| - |if r.replay then Suffix(HeardBefore(w, r), w.replayBytes) else ""|
    requires SubLater(a, v, id) && Fed(v.subs[id], v.from[id], v.taken[id], v.rx) && Fed(a.subs[id], a.from[id], a.taken[id], a.rx)
    requires IsPrefix(HeardBefore(w, r), v.rx[v.subs[id].conn])
    ensures var replay := if r.replay then Suffix(HeardBefore(w, r), w.replayBytes) else "";
      && var since := v.rx[v.subs[id].conn][|HeardBefore(w, r)|..];
      && (!v.subs[id].closed ==> Delivered(v, id) == replay + since)
      && IsPrefix(Delivered(v, id), replay + since) && |replay| <= |Delivered(v, id)|
      && IsPrefix(v.taken[id], Delivered(v, id))
  {
    hide Flat, HeardBefore;
    var before := HeardBefore(w, r);
    var replay := if r.replay then Suffix(before, w.replayBytes) else "";
    PieceOf(v.rx[v.subs[id].conn], before, replay, v.from[id], Delivered(v, id));
  }

  // ----- When an attachment ends ---------------------------------------------------------------------------

  // The only ways: its own detach, its full queue at a broadcast, its port's disconnection, shutdown.
  ghost predicate Ends(w: World, op: Op, id: Id)
    requires id in w.subs && w.subs[id].conn < |w.conns|
  {
    match op
    case OpAttach(_) => false
    case OpBroadcast(h, _) => h == w.subs[id].conn && |w.subs[id].queue| >= QUEUE_CHUNKS
    case OpEnd(h) => h == w.subs[id].conn
    case OpDetach(port, x) => x == id && port == w.conns[w.subs[id].conn].port
    case OpTake(_) => false
    case OpClose => true
  }

  lemma EndsOnlyFor(w: World, op: Op, id: Id)
    requires Inv(w) && id in w.subs && !w.subs[id].closed
    requires op.OpClose? ==> !w.stopped
    ensures w.subs[id].conn < |w.conns| && id in Step(w, op).subs
    ensures Step(w, op).subs[id].closed <==> Ends(w, op, id)
  {
    hide Inv, InvBut, Broadcast, Attach, Detach, End, Take, Close, Current, Fits;
    OpenClient(w, id);
    match op
    case OpAttach(r) => if |w.rx| == |w.conns| { AttachSubs(w, r, id); }
    case OpBroadcast(h, data) => BroadcastEnds(w, h, data, id);
    case OpEnd(h) => EndEnds(w, h, id);
    case OpDetach(port, x) => DetachEnds(w, port, x, id);
    case OpTake(x) => TakeEnds(w, x, id);
    case OpClose => CloseEnds(w, id);
  }

  lemma TakeEnds(w: World, x: Id, id: Id)
    requires id in w.subs
    ensures id in Take(w, x).subs && Take(w, x).subs[id].closed == w.subs[id].closed
  {
  }

  lemma CloseEnds(w: World, id: Id)
    requires id in w.subs && !w.stopped
    ensures id in Close(w).subs && Close(w).subs[id].closed
  {
  }

  lemma EndEnds(w: World, h: Handle, id: Id)
    requires Inv(w) && id in w.subs && !w.subs[id].closed
    ensures id in End(w, h).subs && (End(w, h).subs[id].closed <==> h == w.subs[id].conn)
  {
    OpenClientFacts(w, id);
    hide Inv, CloseClients;
    if Current(w, h) {
      CloseClientsEnds(w, h, w.conns[h].clients, Disconnected, id);
    }
  }

  lemma DetachEnds(w: World, port: Port, x: Id, id: Id)
    requires Inv(w) && id in w.subs && !w.subs[id].closed
    ensures id in Detach(w, port, x).subs && w.subs[id].conn < |w.conns|
    ensures Detach(w, port, x).subs[id].closed <==> x == id && port == w.conns[w.subs[id].conn].port
  {
    OpenClientFacts(w, id);
    hide Inv, CloseClients;
    if port in w.connections && w.connections[port] < |w.conns| {
      CloseClientsEnds(w, w.connections[port], {x}, Detached, id);
    }
  }

  lemma CloseClientsEnds(w: World, h: Handle, ids: set<Id>, reason: Reason, id: Id)
    requires h < |w.conns| && id in w.subs && !w.subs[id].closed
    ensures var v := CloseClients(w, h, ids, reason);
      id in v.subs && (v.subs[id].closed <==> id in w.conns[h].clients && id in ids)
  {
  }

  lemma NotCurrent(w: World, h: Handle, data: Bytes)
    requires !Current(w, h)
    ensures Broadcast(w, h, data) == w
  {
  }

  lemma BroadcastEnds(w: World, h: Handle, data: Bytes, id: Id)
    requires Inv(w) && id in w.subs && !w.subs[id].closed
    ensures id in Broadcast(w, h, data).subs
    ensures Broadcast(w, h, data).subs[id].closed <==> h == w.subs[id].conn && |w.subs[id].queue| >= QUEUE_CHUNKS
  {
    hide Inv, Broadcast, CloseSubs, Enqueue, Slow;
    OpenClientFacts(w, id);
    if Current(w, h) {
      BroadcastSubs(w, h, data);
      HeardOne(w.subs, w.conns[h].clients, data, id);
    } else {
      NotCurrent(w, h, data);
    }
  }

  lemma AttachSubs(w: World, r: Request, id: Id)
    requires |w.rx| == |w.conns| && id in w.subs && id <= w.nextId
    ensures id in Attach(w, r).subs && Attach(w, r).subs[id] == w.subs[id]
  {
    hide Suffix;
  }

  lemma OpenClient(w: World, id: Id)
    requires Inv(w) && id in w.subs
    ensures id <= w.nextId && w.subs[id].conn < |w.conns|
  {
  }

  lemma OpenClientFacts(w: World, id: Id)
    requires Inv(w) && id in w.subs && !w.subs[id].closed
    ensures id <= w.nextId && w.subs[id].conn < |w.conns| && Current(w, w.subs[id].conn) && id in w.conns[w.subs[id].conn].clients
    ensures forall h | 0 <= h < |w.conns| && h != w.subs[id].conn :: id !in w.conns[h].clients
    ensures forall p <- w.connections :: w.connections[p] < |w.conns| && w.conns[w.connections[p]].port == p
  {
  }
}
