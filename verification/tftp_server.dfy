/**
 The loops of the TFTP read server (internal/tftp/server.go) run against an arbitrary network,
 and their composition with the Xilinx runner (internal/runner/xilinx.go): a successful run
 means every expected file was delivered whole.
 */
module TftpServer {
  import opened Text
  import opened Sets
  import opened TftpCodec
  import opened TftpTransfer

  // ----- The network -----------------------------------------------------------------------

  // What one read of the transfer socket can yield.  `Other` is a datagram from another sender or
  // one that is neither an acknowledgement nor an error.
  datatype Datagram = Timeout | Acknowledgement(packet: Bytes) | ClientError | Other | ReadFailure

  ghost function Happenings(l: Link, events: seq<Event>): (l': Link)
    requires l.client.got >= -1
    ensures l'.client.got >= -1
    decreases |events|
  {
    if events == [] then l else Happenings(Happen(l, events[0]), events[1..])
  }

  lemma {:induction false} HappeningsKeep(t: Transfer, k: nat, l: Link, events: seq<Event>)
    requires Coupled(t, k, l)
    ensures Coupled(t, k, Happenings(l, events))
    decreases |events|
  {
    hide Coupled, Happen;
    if events != [] {
      assert l.client.got >= -1 by { CoupledGot(t, k, l); }
      EventKeeps(t, k, l, events[0]);
      HappeningsKeep(t, k, Happen(l, events[0]), events[1..]);
    }
  }

  lemma CoupledGot(t: Transfer, k: nat, l: Link)
    requires Coupled(t, k, l)
    ensures l.client.got >= -1
  {
  }

  // What crosses the transfer socket, in order.
  datatype Act = Sent(packet: Bytes) | Got(datagram: Datagram)

  // The link as the sender sees it, with the trace of everything it sent and read.
  class Network {
    var link: Link
    ghost var log: seq<Act>

    constructor (negotiated: bool)
      ensures link == Start(negotiated).link && log == []
    {
      link, log := Start(negotiated).link, [];
    }

    method Send(packet: Bytes) returns (ok: bool)
      modifies this
      ensures log == old(log) + [Sent(packet)]
      ensures link == old(link).(down := old(link).down + [packet]) || link == old(link)
    {
      ok := *;
      log := log + [Sent(packet)];
      var leaves := *;
      if ok || leaves {
        link := link.(down := link.down + [packet]);
      }
    }

    // The channel and the client do anything they can, then the read ends one way or another; past
    // the deadline it can only time out.
    method Read(expired: bool) returns (d: Datagram, ghost events: seq<Event>)
      requires link.client.got >= -1
      modifies this
      ensures log == old(log) + [Got(d)] && link.client.got >= -1
      ensures expired ==> d.Timeout?
      ensures var l := Happenings(old(link), events);
        if d.Acknowledgement? then l.up != [] && d.packet == l.up[0] && link == l.(up := l.up[1..]) else link == l
    {
      events := [];
      ghost var start := link;
      var more := *;
      var steps: nat := *;
      while steps > 0
        invariant link.client.got >= -1 && link == Happenings(start, events) && log == old(log)
      {
        var e: Event := *;
        HappeningsThen(start, events, e);
        link := Happen(link, e);
        events := events + [e];
        steps := steps - 1;
      }
      if expired {
        d := Timeout;
      } else if more && link.up != [] {
        d := Acknowledgement(link.up[0]);
        link := link.(up := link.up[1..]);
      } else {
        var kind: int := *;
        d := if kind == 0 then Timeout else if kind == 1 then ClientError else if kind == 2 then Other else ReadFailure;
      }
      log := log + [Got(d)];
    }
  }

  lemma {:induction false} HappeningsThen(l: Link, events: seq<Event>, e: Event)
    requires l.client.got >= -1
    ensures Happenings(l, events + [e]) == Happen(Happenings(l, events), e)
    decreases |events|
  {
    hide Happen;
    if events == [] {
      assert [e][1..] == [];
    } else {
      assert (events + [e])[1..] == events[1..] + [e];
      assert Happen(l, events[0]).client.got >= -1 by { HappenKeepsClient(l, events[0]); }
      HappeningsThen(Happen(l, events[0]), events[1..], e);
    }
  }

  lemma HappenKeepsClient(l: Link, e: Event)
    requires l.client.got >= -1
    ensures Happen(l, e).client.got >= -1
  {
  }

  // ----- exchange --------------------------------------------------------------------------

  datatype Outcome = Acked | Cancelled | SendFailed | ReceiveFailed | ErrorFromClient | TimedOut

  function Sends(trace: seq<Act>): nat {
    if trace == [] then 0 else Sends(trace[..|trace| - 1]) + if trace[|trace| - 1].Sent? then 1 else 0
  }

  lemma {:induction false} SendsConcat(a: seq<Act>, b: seq<Act>)
    ensures Sends(a + b) == Sends(a) + Sends(b)
  {
    if b == [] {
      assert a + b == a;
    } else {
      SendsConcat(a, b[..|b| - 1]);
      assert (a + b)[..|a + b| - 1] == a + b[..|b| - 1];
    }
  }

  predicate IsAckOf(a: Act, block: Word) {
    a.Got? && a.datagram.Acknowledgement? && IsAckFor(a.datagram.packet, block)
  }

  // The trace of one exchange: it begins with the packet, and every later send is the same packet,
  // directly after a read that timed out.  So no acknowledgement, stale or not, ever causes a
  // transmission (RFC 1123, section 4.2.3.1).  The awaited one ends the exchange.
  ghost predicate Frugal(trace: seq<Act>, packet: Bytes, expected: Word) {
    && (trace != [] ==> trace[0].Sent?)
    && (forall i | 0 <= i < |trace| && trace[i].Sent? :: trace[i].packet == packet && (i > 0 ==> trace[i - 1] == Got(Timeout)))
    && (forall i | 0 <= i < |trace| - 1 :: !IsAckOf(trace[i], expected))
  }

  ghost predicate Ended(outcome: Outcome, trace: seq<Act>, expected: Word, retries: nat) {
    && Sends(trace) <= retries
    && (outcome == Acked <==> trace != [] && IsAckOf(trace[|trace| - 1], expected))
    && (outcome == TimedOut ==> Sends(trace) == retries && (trace != [] ==> trace[|trace| - 1] == Got(Timeout)))
    && (outcome == ReceiveFailed ==> trace != [] && trace[|trace| - 1] == Got(ReadFailure))
    && (outcome == ErrorFromClient ==> trace != [] && trace[|trace| - 1] == Got(ClientError))
    && (outcome == SendFailed ==> trace != [] && trace[|trace| - 1].Sent?)
  }

  // The log ends in something that no transfer goes on from.
  ghost predicate Broken(log: seq<Act>) {
    log != [] && (log[|log| - 1].Sent? || log[|log| - 1] in {Got(Timeout), Got(ReadFailure), Got(ClientError)})
  }

  lemma FrugalNext(trace: seq<Act>, packet: Bytes, expected: Word, a: Act)
    requires Frugal(trace, packet, expected) && (trace != [] ==> !IsAckOf(trace[|trace| - 1], expected))
    requires if a.Sent? then a.packet == packet && (trace != [] ==> trace[|trace| - 1] == Got(Timeout)) else trace != []
    ensures Frugal(trace + [a], packet, expected) && Sends(trace + [a]) == Sends(trace) + if a.Sent? then 1 else 0
  {
    hide IsAckOf;
    var longer := trace + [a];
    assert longer[..|trace|] == trace && longer[|trace|] == a;
    hide Sends;
    assert forall i | 0 <= i < |trace| :: longer[i] == trace[i];
    forall i | 0 <= i < |longer| && longer[i].Sent?
      ensures longer[i].packet == packet && (i > 0 ==> longer[i - 1] == Got(Timeout))
    {
      if i < |trace| {
        assert trace[i].Sent?;
      }
    }
    forall i | 0 <= i < |longer| - 1 ensures !IsAckOf(longer[i], expected) {
      if i < |trace| - 1 {
        assert !IsAckOf(trace[i], expected);
      }
    }
    if trace != [] {
      assert longer[0] == trace[0] && longer[|trace| - 1] == trace[|trace| - 1];
    }
  }

  // Sends packet `k` until the client acknowledges it.  `cancellable`: the context may be cancelled.
  method Exchange(net: Network, cancellable: bool, packet: Bytes, expected: Word, retries: nat, ghost t: Transfer, ghost k: nat)
    returns (outcome: Outcome, ghost trace: seq<Act>)
    requires Coupled(t, k, net.link) && packet == PacketOf(t, k) && expected == Wire(k)
    modifies net
    ensures Coupled(t, k, net.link)
    ensures outcome == Acked ==> net.link.client == Client(k, t.Prefix(k))
    ensures outcome == Acked && k < t.Blocks() ==> Coupled(t, k + 1, net.link)
    ensures net.log == old(net.log) + trace
    ensures Frugal(trace, packet, expected) && Ended(outcome, trace, expected, retries)
    ensures outcome == Cancelled ==> cancellable
    ensures retries > 0 && outcome != Acked && outcome != Cancelled ==> Broken(trace)
  {
    hide Coupled, PacketOf, IsAckFor, Happenings, Frugal, Sends;
    trace := [];
    NothingSaid(packet, expected);
    var attempt := 0;
    while attempt < retries
      invariant attempt <= retries && Coupled(t, k, net.link) && net.log == old(net.log) + trace
      invariant Frugal(trace, packet, expected) && Sends(trace) == attempt
      invariant trace != [] ==> trace[|trace| - 1] == Got(Timeout)
      invariant attempt == 0 ==> trace == []
    {
      var cancelled := *;
      if cancellable && cancelled {
        return Cancelled, trace;
      }
      SendKeeps(t, k, net.link);
      FrugalNext(trace, packet, expected, Sent(packet));
      var ok := net.Send(packet);
      trace := trace + [Sent(packet)];
      if !ok {
        return SendFailed, trace;
      }
      // The deadline passes after finitely many datagrams.
      var patience: nat := *;
      while true
        invariant Coupled(t, k, net.link) && net.log == old(net.log) + trace && trace != []
        invariant Frugal(trace, packet, expected) && Sends(trace) == attempt + 1
        invariant !IsAckOf(trace[|trace| - 1], expected)
        decreases patience
      {
        CoupledGot(t, k, net.link);
        ghost var before := net.link;
        var d, events := net.Read(patience == 0);
        HappeningsKeep(t, k, before, events);
        FrugalNext(trace, packet, expected, Got(d));
        trace := trace + [Got(d)];
        if d.Timeout? {
          break;
        }
        patience := patience - 1;
        match d {
          case ReadFailure => return ReceiveFailed, trace;
          case ClientError => return ErrorFromClient, trace;
          case Acknowledgement(response) =>
            AckKeeps(t, k, Happenings(before, events));
            if IsAckFor(response, expected) {
              return Acked, trace;
            }
          case _ =>
        }
      }
      attempt := attempt + 1;
    }
    return TimedOut, trace;
  }

  lemma NothingSaid(packet: Bytes, expected: Word)
    ensures Frugal([], packet, expected) && Sends([]) == 0
  {
  }

  // ----- A whole conversation --------------------------------------------------------------

  function LastSent(log: seq<Act>): Option<Bytes> {
    if log == [] then None else if log[|log| - 1].Sent? then Some(log[|log| - 1].packet) else LastSent(log[..|log| - 1])
  }

  lemma {:induction false} LastSentConcat(a: seq<Act>, b: seq<Act>)
    ensures LastSent(a + b) == if LastSent(b).Some? then LastSent(b) else LastSent(a)
  {
    if b == [] {
      assert a + b == a;
    } else {
      LastSentConcat(a, b[..|b| - 1]);
      assert (a + b)[..|a + b| - 1] == a + b[..|b| - 1];
    }
  }

  // The log ends with packet `k` sent and acknowledged.
  ghost predicate Settled(t: Transfer, k: nat, log: seq<Act>)
    requires Sending(t, k)
  {
    log != [] && IsAckOf(log[|log| - 1], Wire(k)) && LastSent(log) == Some(PacketOf(t, k))
  }

  // Why the send at `i` happens: the one before it timed out and is repeated, or it was
  // acknowledged and the next packet follows.
  ghost predicate Justified(t: Transfer, log: seq<Act>, i: nat)
    requires 0 < i < |log| && log[i].Sent?
  {
    || (log[i - 1] == Got(Timeout) && LastSent(log[..i]) == Some(log[i].packet))
    || exists k: nat | Sending(t, k + 1) :: Sending(t, k) && Settled(t, k, log[..i]) && log[i].packet == PacketOf(t, k + 1)
  }

  ghost predicate Disciplined(t: Transfer, log: seq<Act>) {
    forall i | 0 < i < |log| && log[i].Sent? :: Justified(t, log, i)
  }

  // A send directly after an acknowledgement follows one of the packet last sent: a stale
  // acknowledgement is never answered with a send.
  lemma OnlyFreshAcksAreAnswered(t: Transfer, log: seq<Act>, i: nat)
    requires Disciplined(t, log) && i + 1 < |log| && log[i].Got? && log[i].datagram.Acknowledgement? && log[i + 1].Sent?
    ensures exists k: nat | Sending(t, k) :: LastSent(log[..i + 1]) == Some(PacketOf(t, k)) && IsAckOf(log[i], Wire(k))
  {
    hide IsAckFor, PacketOf, Wire, LastSent;
    assert Justified(t, log, i + 1);
    assert log[..i + 1][|log[..i + 1]| - 1] == log[i];
  }

  lemma {:induction false} FrugalLastSent(trace: seq<Act>, packet: Bytes, expected: Word)
    requires Frugal(trace, packet, expected) && trace != []
    ensures LastSent(trace) == Some(packet)
  {
    hide IsAckFor;
    if |trace| > 1 && !trace[|trace| - 1].Sent? {
      var init := trace[..|trace| - 1];
      assert forall i | 0 <= i < |init| :: init[i] == trace[i];
      FrugalLastSent(init, packet, expected);
    }
  }

  lemma FrugalPrefix(trace: seq<Act>, packet: Bytes, expected: Word, n: nat)
    requires Frugal(trace, packet, expected) && n <= |trace|
    ensures Frugal(trace[..n], packet, expected)
  {
    hide IsAckFor;
  }

  // An exchange for the next packet continues a disciplined log.
  lemma ExchangeExtends(t: Transfer, k: nat, log: seq<Act>, trace: seq<Act>)
    requires Sending(t, k) && Disciplined(t, log) && Frugal(trace, PacketOf(t, k), Wire(k))
    requires log == [] || (k >= 1 && Settled(t, k - 1, log))
    ensures Disciplined(t, log + trace)
    ensures trace != [] && IsAckOf(trace[|trace| - 1], Wire(k)) ==> Settled(t, k, log + trace)
  {
    hide IsAckFor, PacketOf, Wire, LastSent;
    var whole := log + trace;
    forall i | 0 < i < |whole| && whole[i].Sent? ensures Justified(t, whole, i) {
      if i < |log| {
        assert Justified(t, log, i);
        assert whole[..i] == log[..i];
      } else {
        ContinuationIsJustified(t, k, log, trace, i - |log|);
      }
    }
    if trace != [] {
      FrugalLastSent(trace, PacketOf(t, k), Wire(k));
      LastSentConcat(log, trace);
    }
  }

  lemma ContinuationIsJustified(t: Transfer, k: nat, log: seq<Act>, trace: seq<Act>, j: nat)
    requires Sending(t, k) && Frugal(trace, PacketOf(t, k), Wire(k))
    requires log == [] || (k >= 1 && Settled(t, k - 1, log))
    requires j < |trace| && trace[j].Sent? && 0 < |log| + j
    ensures Justified(t, log + trace, |log| + j)
  {
    hide IsAckFor, PacketOf, Wire, LastSent;
    var whole, i := log + trace, |log| + j;
    if j == 0 {
      assert whole[..i] == log;
      assert Sending(t, k - 1 + 1) && Sending(t, k - 1) && Settled(t, k - 1, whole[..i]) && whole[i].packet == PacketOf(t, k - 1 + 1);
    } else {
      FrugalPrefix(trace, PacketOf(t, k), Wire(k), j);
      FrugalLastSent(trace[..j], PacketOf(t, k), Wire(k));
      LastSentConcat(log, trace[..j]);
      assert whole[..i] == log + trace[..j];
      assert whole[i - 1] == trace[j - 1];
    }
  }

  // ----- serveRequest ----------------------------------------------------------------------

  datatype Entry = Regular(data: Bytes) | NotRegular | Unreadable

  datatype TransferEvent = Started(filename: Bytes) | Completed(filename: Bytes, bytes: nat) | Failed(filename: Bytes, bytes: nat)

  // A finished transfer with what its client ended up holding.
  datatype Delivery = Delivery(filename: Bytes, transfer: Transfer, client: Client)

  ghost predicate Delivered(d: Delivery, data: Bytes) {
    && d.transfer.Valid() && d.transfer.file == data
    && d.client == Client(d.transfer.Blocks(), data)
  }

  class Server {
    const files: map<Bytes, Entry>
    const retries: nat
    const maxBlockSize: nat
    var events: seq<TransferEvent>
    ghost var deliveries: seq<Delivery>

    constructor (files: map<Bytes, Entry>, retries: nat, maxBlockSize: nat)
      requires 1 <= retries && MIN_BLOCK_SIZE <= maxBlockSize <= MAX_BLOCK_SIZE
      ensures Valid() && events == [] && deliveries == [] && this.files == files
    {
      this.files, this.retries, this.maxBlockSize := files, retries, maxBlockSize;
      events, deliveries := [], [];
    }

    // Every completion that was announced stands for a delivery of the whole file.
    ghost predicate Valid()
      reads this
    {
      && 1 <= retries && MIN_BLOCK_SIZE <= maxBlockSize <= MAX_BLOCK_SIZE
      && (forall d <- deliveries :: d.filename in files && files[d.filename].Regular? && Delivered(d, files[d.filename].data))
      && forall e <- events :: e.Completed? ==> exists d <- deliveries :: d.filename == e.filename && e.bytes == |d.client.data|
    }

    method Emit(e: TransferEvent)
      requires Valid() && !e.Completed?
      modifies this`events
      ensures Valid() && events == old(events) + [e]
    {
      events := events + [e];
    }

    method Complete(ghost d: Delivery, filename: Bytes, bytes: nat)
      requires Valid() && filename in files && files[filename].Regular?
      requires d.filename == filename && Delivered(d, files[filename].data) && bytes == |files[filename].data|
      modifies this
      ensures Valid() && events == old(events) + [Completed(filename, bytes)] && deliveries == old(deliveries) + [d]
    {
      hide Delivered;
      assert d.client.data == files[filename].data by { DeliveredData(d, files[filename].data); }
      deliveries := deliveries + [d];
      events := events + [Completed(filename, bytes)];
      assert d in deliveries;
    }

    // The loop over the blocks of an accepted request.
    method SendBlocks(net: Network, cancellable: bool, ghost t: Transfer, data: Bytes, blockSize: nat, ghost earlier: nat)
      returns (done: bool, transferred: nat)
      requires t.Valid() && t.file == data && t.blockSize == blockSize && Coupled(t, 1, net.link) && 1 <= retries
      requires Sends(net.log) <= Quota(retries, earlier) && Disciplined(t, net.log) && (net.log == [] || Settled(t, 0, net.log))
      modifies net
      ensures done ==> net.link.client == Client(t.Blocks(), data) && transferred == |data|
      ensures done || cancellable || Broken(net.log)
      ensures Sends(net.log) <= Quota(retries, earlier + t.Blocks()) && Disciplined(t, net.log)
    {
      hide Coupled, PacketOf, DataPacket, Quota, Offset, Transfer.Blocks, Transfer.Prefix, Sends, Disciplined, Settled, Frugal, IsAckOf, Broken;
      FirstOffset(t);
      var block: Word := 1;
      ghost var k := 1;
      transferred := 0;
      done := false;
      while true
        invariant 1 <= k <= t.Blocks() && block == Wire(k) && Coupled(t, k, net.link)
        invariant transferred == Offset(t, k) <= |data|
        invariant Sends(net.log) <= Quota(retries, earlier + k - 1) && Disciplined(t, net.log) && (net.log == [] || Settled(t, k - 1, net.log))
        decreases t.Blocks() - k
      {
        ChunkIsBlock(t, k, transferred);
        QuotaGrows(retries, earlier + k - 1, earlier + t.Blocks());
        var cancelled := *;
        if cancellable && cancelled {
          return;
        }
        // io.ReadFull
        var chunk := data[transferred..Min(transferred + blockSize, |data|)];
        ghost var log := net.log;
        var outcome, trace := Exchange(net, cancellable, DataPacket(block, chunk), block, retries, t, k);
        ExchangeExtends(t, k, log, trace);
        SendsConcat(log, trace);
        if outcome != Acked {
          BrokenEnd(log, trace);
          return;
        }
        transferred := transferred + |chunk|;
        if |chunk| < blockSize {
          done := true;
          return;
        }
        block := (block + 1) % 0x1_0000;
        k := k + 1;
      }
    }

    // The option acknowledgement, when there is one, and then the blocks.
    method SendFile(net: Network, cancellable: bool, ghost t: Transfer, data: Bytes, n: Negotiation) returns (done: bool, transferred: nat)
      requires t == Transfer(data, n.blockSize, n.accepted) && t.Valid()
      requires net.link == Start(n.accepted != []).link && net.log == [] && 1 <= retries
      modifies net
      ensures done ==> net.link.client == Client(t.Blocks(), data) && transferred == |data|
      ensures done || cancellable || Broken(net.log)
      ensures Sends(net.log) <= Quota(retries, t.Blocks() + 1) && Disciplined(t, net.log)
    {
      hide Coupled, OptionAckPacket, Settled, Frugal, IsAckOf, PacketOf;
      assert Sends([]) == 0 && Disciplined(t, []);
      assert OptionAckPacket(n.accepted) == PacketOf(t, 0) by { FirstPacket(t); }
      StartIsCoupled(t, n.accepted != []);
      QuotaGrows(retries, 0, t.Blocks());
      QuotaGrows(retries, t.Blocks(), t.Blocks() + 1);
      if n.accepted != [] {
        var outcome, trace := Exchange(net, cancellable, OptionAckPacket(n.accepted), 0, retries, t, 0);
        ExchangeExtends(t, 0, [], trace);
        assert [] + trace == trace && net.log == trace;
        if outcome != Acked {
          QuotaGrows(retries, 1, t.Blocks());
          return false, 0;
        }
        done, transferred := SendBlocks(net, cancellable, t, data, n.blockSize, 1);
      } else {
        done, transferred := SendBlocks(net, cancellable, t, data, n.blockSize, 0);
      }
    }

    // `socket`: whether a transfer socket opens.  A request for a file that is there and whose options
    // are acceptable completes, unless it is cancelled or the channel gives out.
    method ServeRequest(request: Request, socket: bool, cancellable: bool) returns (ghost net: Network?)
      requires Valid()
      modifies this
      ensures Valid() && old(deliveries) <= deliveries
      ensures |events| == |old(events)| + 2 && events[..|old(events)|] == old(events)
      ensures events[|old(events)|] == Started(request.filename)
      ensures !events[|old(events)| + 1].Started? && events[|old(events)| + 1].filename == request.filename
      ensures net != null <==> socket && request.filename in files && files[request.filename].Regular? && Negotiate(request.options, |files[request.filename].data|, maxBlockSize).Ok?
      ensures net != null && !cancellable && !Broken(net.log) ==> events[|old(events)| + 1].Completed?
      ensures net != null ==>
        && request.filename in files && files[request.filename].Regular?
        && var data := files[request.filename].data;
          && Negotiate(request.options, |data|, maxBlockSize).Ok?
          && var n := Negotiate(request.options, |data|, maxBlockSize).value;
          var t := Transfer(data, n.blockSize, n.accepted);
            0 < n.blockSize && Sends(net.log) <= Quota(retries, t.Blocks() + 1) && Disciplined(t, net.log)
    {
      hide Coupled, Negotiate, Delivered, Quota, Agreed, OptionAckPacket, DecodeOptionAck, Disciplined, Sends, Broken;
      var name := request.filename;
      Emit(Started(name));
      net := null;
      if name !in files || !files[name].Regular? || !socket {
        Emit(Failed(name, 0));
        return;
      }
      var data := files[name].data;
      var negotiation := Negotiate(request.options, |data|, maxBlockSize);
      if negotiation.Err? {
        Emit(Failed(name, 0));
        return;
      }
      var n := negotiation.value;
      NegotiationAgrees(request.options, |data|, maxBlockSize);
      AnswerIsPlain(request.options, |data|, maxBlockSize);
      ghost var t := Transfer(data, n.blockSize, n.accepted);
      var connection := new Network(n.accepted != []);
      net := connection;
      var done, transferred := SendFile(connection, cancellable, t, data, n);
      if done {
        DeliveredWhole(name, t, connection.link.client);
        Complete(Delivery(name, t, connection.link.client), name, transferred);
      } else {
        Emit(Failed(name, transferred));
      }
    }
  }

  lemma BrokenEnd(log: seq<Act>, trace: seq<Act>)
    ensures Broken(trace) ==> Broken(log + trace)
  {
  }

  lemma FirstPacket(t: Transfer)
    requires t.Valid()
    ensures Sending(t, 0) && PacketOf(t, 0) == OptionAckPacket(t.answer)
  {
  }

  lemma DeliveredData(d: Delivery, data: Bytes)
    requires Delivered(d, data)
    ensures d.client.data == data
  {
  }

  lemma DeliveredWhole(name: Bytes, t: Transfer, client: Client)
    requires t.Valid() && client == Client(t.Blocks(), t.file)
    ensures Delivered(Delivery(name, t, client), t.file)
  {
  }

  // Sends allowed for a number of packets.
  function Quota(retries: nat, packets: nat): nat {
    retries * packets
  }

  lemma QuotaGrows(retries: nat, packets: nat, most: nat)
    requires packets <= most
    ensures Quota(retries, packets) <= Quota(retries, most)
    ensures Quota(retries, 0) == 0
    ensures Quota(retries, packets) + retries == Quota(retries, packets + 1)
    ensures packets < most ==> Quota(retries, packets + 1) <= Quota(retries, most)
  {
    MulMonotone(packets, most, retries);
    if packets < most {
      MulMonotone(packets + 1, most, retries);
    }
  }

  // Where block `k` starts in the file.
  function Offset(t: Transfer, k: nat): int {
    (k - 1) * t.blockSize
  }

  lemma FirstOffset(t: Transfer)
    requires t.Valid()
    ensures Offset(t, 1) == 0 && 1 <= t.Blocks()
  {
  }

  lemma ChunkIsBlock(t: Transfer, k: nat, transferred: nat)
    requires t.Valid() && 1 <= k <= t.Blocks() && transferred == Offset(t, k) <= |t.file|
    ensures var chunk := t.file[transferred..Min(transferred + t.blockSize, |t.file|)];
      && DataPacket(Wire(k), chunk) == PacketOf(t, k)
      && (|chunk| < t.blockSize <==> k == t.Blocks())
      && (k < t.Blocks() ==> transferred + |chunk| == Offset(t, k + 1) <= |t.file|)
      && (k == t.Blocks() ==> transferred + |chunk| == |t.file| && t.Prefix(k) == t.file)
  {
    hide DataPacket;
    BlocksMakeTheFile(t, k);
    BlockStarts(t, k);
    assert k * t.blockSize == (k - 1) * t.blockSize + t.blockSize;
  }

  lemma AnswerIsPlain(options: map<Bytes, Bytes>, fileSize: nat, maximum: nat)
    requires MIN_BLOCK_SIZE <= maximum <= MAX_BLOCK_SIZE && Negotiate(options, fileSize, maximum).Ok?
    ensures forall a <- Negotiate(options, fileSize, maximum).value.accepted :: PlainField(a.0) && PlainField(a.1)
  {
    hide AcceptBlockSize, AcceptTimeout, Itoa;
    OptionNamesDiffer();
  }

  // ----- The runner ------------------------------------------------------------------------

  // monitorTransfers: `events` is what it consumed before its context ended.
  method MonitorTransfers(events: seq<TransferEvent>, expected: seq<Bytes>) returns (allDone: bool)
    requires expected != []
    ensures allDone <==> forall name <- expected :: exists e <- events :: e.Completed? && e.filename == name
  {
    var wanted := set name | name in expected;
    var completed: set<Bytes> := {};
    allDone := false;
    assert expected[0] in wanted;
    for i := 0 to |events|
      invariant completed == set e | e in events[..i] && e.Completed? && e.filename in wanted :: e.filename
      invariant allDone <==> completed == wanted
    {
      assert events[..i + 1] == events[..i] + [events[i]];
      match events[i] {
        case Completed(name, _) =>
          if name in wanted {
            completed := completed + {name};
          }
          SubsetBySize(completed, wanted);
          if |completed| == |wanted| {
            allDone := true;
          }
        case _ =>
      }
    }
    assert events[..|events|] == events;
    if allDone {
      forall name <- expected ensures exists e <- events :: e.Completed? && e.filename == name {
        assert name in completed;
      }
    } else {
      assert expected[0] in wanted;
      var name :| name in wanted && name !in completed;
    }
  }

  // expectedTFTPFiles: the payload paths under the TFTP root, without it.
  function ExpectedFiles(paths: seq<Bytes>, root: Bytes): (files: seq<Bytes>)
    ensures forall f :: f in files <==> root + ['/'] + f in paths
  {
    if paths == [] then []
    else
      var prefix, first := root + ['/'], paths[0];
      var rest := ExpectedFiles(paths[1..], root);
      if prefix <= first then
        assert first == prefix + first[|prefix|..];
        [first[|prefix|..]] + rest
      else rest
  }

  // Some client ended a transfer of `f` holding every byte of it.
  ghost predicate HasFile(server: Server, f: Bytes)
    reads server
  {
    && f in server.files && server.files[f].Regular?
    && exists d <- server.deliveries :: d.filename == f && Delivered(d, server.files[f].data)
  }

  // The monitor saw each of these files completed.
  ghost predicate AllAnnounced(server: Server, expected: seq<Bytes>, consumed: nat)
    reads server
  {
    expected != [] && forall f <- expected :: exists e <- server.events[..Min(consumed, |server.events|)] :: e.Completed? && e.filename == f
  }

  // Run: requests arrive while the loader executes; only the monitor's signal makes it succeed.
  // `consumed` of the server's events reach the monitor before its context ends.
  method RunJob(server: Server, requests: seq<Request>, paths: seq<Bytes>, root: Bytes, prepared: bool, loaderFails: bool, consumed: nat) returns (succeeded: bool)
    requires server.Valid()
    modifies server
    ensures server.Valid()
    ensures succeeded ==> forall f | root + ['/'] + f in paths :: HasFile(server, f)
    ensures succeeded <==> prepared && !loaderFails && AllAnnounced(server, ExpectedFiles(paths, root), consumed)
  {
    var expected := ExpectedFiles(paths, root);
    if expected == [] || !prepared {
      return false;
    }
    for i := 0 to |requests|
      invariant server.Valid()
    {
      var socket, cancellable := *, *;
      ghost var net := server.ServeRequest(requests[i], socket, cancellable);
    }
    if loaderFails {
      return false;
    }
    var allDone := MonitorTransfers(server.events[..Min(consumed, |server.events|)], expected);
    if allDone {
      forall f | root + ['/'] + f in paths
        ensures HasFile(server, f)
      {
        var e :| e in server.events[..Min(consumed, |server.events|)] && e.Completed? && e.filename == f;
        assert e in server.events;
      }
    }
    return allDone;
  }
}
