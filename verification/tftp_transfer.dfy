/**
 The stop-and-wait sender of internal/tftp/server.go, paired with an RFC 1350 client over a
 channel that loses and repeats packets but keeps their order.

 `Link` is everything outside the sender.  `Coupled` is the protocol invariant; it holds in every
 reachable state of the composed system (`EveryRunIsCoupled`), however often the 16-bit block
 counter wraps.  The methods of `Server` run the source's loops against a `Network` whose
 deliveries are arbitrary.
 */
module TftpTransfer {
  import opened Text
  import opened TftpCodec

  // ----- The file as blocks --------------------------------------------------------------

  function Min(a: nat, b: nat): nat {
    if a < b then a else b
  }

  datatype Transfer = Transfer(file: Bytes, blockSize: nat, answer: seq<(Bytes, Bytes)>) {
    ghost predicate Valid() {
      0 < blockSize && forall o <- answer :: PlainField(o.0) && PlainField(o.1)
    }

    function Blocks(): (n: nat)
      requires 0 < blockSize
    {
      |file| / blockSize + 1
    }

    // The bytes of the first `k` blocks.
    function Prefix(k: nat): Bytes {
      file[..Min(k * blockSize, |file|)]
    }

    function Block(k: nat): Bytes
      requires 1 <= k
      requires (k - 1) * blockSize <= |file|
    {
      assert k * blockSize == (k - 1) * blockSize + blockSize;
      file[(k - 1) * blockSize..Min(k * blockSize, |file|)]
    }

    // The k-th packet of the transfer; the option acknowledgement comes before block 1.
    function Packet(k: nat): Bytes
      requires k == 0 || (k - 1) * blockSize <= |file|
    {
      if k == 0 then OptionAckPacket(answer) else DataPacket(Wire(k), Block(k))
    }
  }

  // The block number that travels in the packet.
  function Wire(k: nat): Word {
    k % 0x1_0000
  }

  lemma NeighboursDiffer(k: nat)
    ensures Wire(k) != Wire(k + 1)
  {
  }

  lemma BlockStarts(t: Transfer, k: nat)
    requires t.Valid() && 1 <= k <= t.Blocks()
    ensures (k - 1) * t.blockSize <= |t.file|
    ensures k < t.Blocks() ==> k * t.blockSize <= |t.file|
    ensures k == t.Blocks() ==> |t.file| < k * t.blockSize
  {
    var n, b := t.Blocks(), t.blockSize;
    assert |t.file| == (n - 1) * b + |t.file| % b;
    assert (k - 1) * b <= (n - 1) * b by { MulMonotone(k - 1, n - 1, b); }
    if k < n {
      assert k * b <= (n - 1) * b by { MulMonotone(k, n - 1, b); }
    } else {
      assert k * b == (n - 1) * b + b;
    }
  }

  lemma MulMonotone(x: nat, y: nat, b: nat)
    requires x <= y
    ensures x * b <= y * b
  {
  }

  // Section 6 of RFC 1350: the blocks make up the file, all are full but a strictly shorter last
  // one, which is empty when the size is a multiple of the block size.
  lemma {:induction false} BlocksMakeTheFile(t: Transfer, k: nat)
    requires t.Valid() && 1 <= k <= t.Blocks()
    ensures (k - 1) * t.blockSize <= |t.file|
    ensures t.Prefix(k - 1) + t.Block(k) == t.Prefix(k)
    ensures k < t.Blocks() ==> |t.Block(k)| == t.blockSize
    ensures k == t.Blocks() ==> |t.Block(k)| == |t.file| % t.blockSize < t.blockSize && t.Prefix(k) == t.file
  {
    BlockStarts(t, k);
    var n, b := t.Blocks(), t.blockSize;
    assert k * b == (k - 1) * b + b;
    if k == n {
      assert |t.file| == (n - 1) * b + |t.file| % b;
    }
  }

  // ----- The client ------------------------------------------------------------------------

  // `got` is -1 until the option acknowledgement arrives, then the number of blocks held.
  datatype Client = Client(got: int, data: Bytes)

  function AckPacket(block: Word): Bytes {
    PutWord(OPCODE_ACK) + PutWord(block)
  }

  predicate IsAckFor(packet: Bytes, block: Word) {
    |packet| >= 4 && GetWord(packet) == OPCODE_ACK && GetWord(packet[2..]) == block
  }

  // Section 2 of RFC 1350: accept the next block, acknowledge the last one again, ignore the rest.
  function Receive(c: Client, packet: Bytes): (Client, Option<Bytes>)
    requires c.got >= -1
  {
    if |packet| >= 2 && GetWord(packet) == OPCODE_OACK then
      if c.got <= 0 then (c.(got := 0), Some(AckPacket(0))) else (c, None)
    else
      match DecodeData(packet)
      case None => (c, None)
      case Some((block, data)) =>
        if c.got >= 0 && block == Wire(c.got + 1) then (Client(c.got + 1, c.data + data), Some(AckPacket(block)))
        else if c.got >= 1 && block == Wire(c.got) then (c, Some(AckPacket(block)))
        else (c, None)
  }

  // ----- The channel -----------------------------------------------------------------------

  datatype Link = Link(down: seq<Bytes>, up: seq<Bytes>, client: Client)

  datatype Event = LoseDown(i: nat) | RepeatDown(i: nat) | Deliver | LoseUp(i: nat) | RepeatUp(i: nat)

  function Remove<T>(s: seq<T>, i: nat): seq<T> {
    if i < |s| then s[..i] + s[i + 1..] else s
  }

  function Repeat<T>(s: seq<T>, i: nat): seq<T> {
    if i < |s| then s[..i + 1] + s[i..] else s
  }

  function Happen(l: Link, e: Event): Link
    requires l.client.got >= -1
  {
    match e
    case LoseDown(i) => l.(down := Remove(l.down, i))
    case RepeatDown(i) => l.(down := Repeat(l.down, i))
    case LoseUp(i) => l.(up := Remove(l.up, i))
    case RepeatUp(i) => l.(up := Repeat(l.up, i))
    case Deliver =>
      if l.down == [] then l
      else
        var (client, reply) := Receive(l.client, l.down[0]);
        Link(l.down[1..], if reply.Some? then l.up + [reply.value] else l.up, client)
  }

  // ----- The protocol invariant --------------------------------------------------------------

  // In `s` only `older` and `newer` occur, and nothing but `newer` follows a `newer`.
  ghost predicate Ordered(s: seq<Bytes>, older: Option<Bytes>, newer: Bytes) {
    && (forall i | 0 <= i < |s| :: s[i] == newer || Some(s[i]) == older)
    && (forall i, j | 0 <= i < j < |s| && s[i] == newer :: s[j] == newer)
  }

  ghost predicate Sending(t: Transfer, k: nat) {
    t.Valid() && k <= t.Blocks()
  }

  ghost function PacketOf(t: Transfer, k: nat): Bytes
    requires Sending(t, k)
  {
    if k >= 1 then BlockStarts(t, k); t.Packet(k) else t.Packet(0)
  }

  ghost function Older(t: Transfer, k: nat): Option<Bytes>
    requires Sending(t, k)
  {
    if k == 0 then None else Some(PacketOf(t, k - 1))
  }

  // The sender is working on packet `k`.  The client holds k-1 or k of them and the file so far;
  // both directions carry only the packets and acknowledgements of these two, in order.
  ghost predicate Coupled(t: Transfer, k: nat, l: Link) {
    && Sending(t, k)
    && k - 1 <= l.client.got <= k && -1 <= l.client.got
    && l.client.data == t.Prefix(if l.client.got < 0 then 0 else l.client.got)
    && Ordered(l.down, if l.client.got == k then None else Older(t, k), PacketOf(t, k))
    && Ordered(l.up, if k == 0 then None else Some(AckPacket(Wire(k - 1))), AckPacket(Wire(k)))
    && (l.client.got < k ==> AckPacket(Wire(k)) !in l.up)
  }

  lemma AcksDiffer(a: Word, b: Word)
    ensures AckPacket(a) == AckPacket(b) <==> a == b
    ensures IsAckFor(AckPacket(a), b) <==> a == b
  {
    assert AckPacket(a)[2..] == PutWord(a) && AckPacket(b)[2..] == PutWord(b);
    assert GetWord(PutWord(a)) == a && GetWord(PutWord(b)) == b;
  }

  lemma PacketsRead(t: Transfer, k: nat)
    requires Sending(t, k)
    ensures |PacketOf(t, k)| >= 2
    ensures k == 0 ==> GetWord(PacketOf(t, k)) == OPCODE_OACK
    ensures k >= 1 ==> GetWord(PacketOf(t, k)) == OPCODE_DATA && (k - 1) * t.blockSize <= |t.file|
    ensures k >= 1 ==> DecodeData(PacketOf(t, k)) == Some((Wire(k), t.Block(k)))
  {
    if k >= 1 {
      BlockStarts(t, k);
      DataRoundTrip(Wire(k), t.Block(k));
    }
  }

  // How the client answers the only two packets it can meet.
  lemma ClientMeets(t: Transfer, k: nat, l: Link)
    requires Coupled(t, k, l) && l.down != []
    ensures var (client, reply) := Receive(l.client, l.down[0]);
      if l.down[0] == PacketOf(t, k)
      then client == Client(k, t.Prefix(k)) && reply == Some(AckPacket(Wire(k)))
      else client == l.client && l.client.got == k - 1 && reply == Some(AckPacket(Wire(k - 1)))
  {
    hide AckPacket, DecodeData, GetWord, Transfer.Block, Transfer.Prefix;
    assert l.down[0] == PacketOf(t, k) || (l.client.got != k && Some(l.down[0]) == Older(t, k));
    hide Ordered;
    PacketsRead(t, k);
    if k >= 1 {
      PacketsRead(t, k - 1);
      NeighboursDiffer(k - 1);
      BlocksMakeTheFile(t, k);
    }
  }

  lemma RemoveKeepsOrder(s: seq<Bytes>, older: Option<Bytes>, newer: Bytes, i: nat)
    requires Ordered(s, older, newer)
    ensures Ordered(Remove(s, i), older, newer) && (newer !in s ==> newer !in Remove(s, i))
  {
    if i < |s| {
      assert forall j | 0 <= j < |s| - 1 :: Remove(s, i)[j] == s[if j < i then j else j + 1];
    }
  }

  lemma RepeatKeepsOrder(s: seq<Bytes>, older: Option<Bytes>, newer: Bytes, i: nat)
    requires Ordered(s, older, newer)
    ensures Ordered(Repeat(s, i), older, newer) && (newer !in s ==> newer !in Repeat(s, i))
  {
    if i < |s| {
      var r := Repeat(s, i);
      assert r == s[..i + 1] + s[i..];
      hide Repeat;
      forall j | 0 <= j < |r| ensures r[j] == newer || Some(r[j]) == older {
        assert r[j] == s[if j <= i then j else j - 1];
      }
      forall a, b | 0 <= a < b < |r| && r[a] == newer ensures r[b] == newer {
        var x, y := if a <= i then a else a - 1, if b <= i then b else b - 1;
        assert r[a] == s[x] && r[b] == s[y];
      }
      if newer !in s {
        forall j | 0 <= j < |r| ensures r[j] != newer {
          assert r[j] == s[if j <= i then j else j - 1];
        }
      }
    }
  }

  lemma DeliverKeeps(t: Transfer, k: nat, l: Link)
    requires Coupled(t, k, l) && l.down != []
    ensures Coupled(t, k, Happen(l, Deliver))
  {
    hide Receive, AckPacket, PacketOf;
    ClientMeets(t, k, l);
    var l' := Happen(l, Deliver);
    if k >= 1 {
      NeighboursDiffer(k - 1);
      AcksDiffer(Wire(k - 1), Wire(k));
    }
    assert forall i | 0 <= i < |l'.down| :: l'.down[i] == l.down[i + 1];
    if l.down[0] == PacketOf(t, k) {
      assert forall i | 0 <= i < |l'.down| :: l'.down[i] == PacketOf(t, k);
    }
  }

  lemma EventKeeps(t: Transfer, k: nat, l: Link, e: Event)
    requires Coupled(t, k, l)
    ensures Coupled(t, k, Happen(l, e))
  {
    hide Receive, AckPacket, PacketOf;
    var older := if l.client.got == k then None else Older(t, k);
    var olderAck := if k == 0 then None else Some(AckPacket(Wire(k - 1)));
    match e {
      case LoseDown(i) => RemoveKeepsOrder(l.down, older, PacketOf(t, k), i);
      case RepeatDown(i) => RepeatKeepsOrder(l.down, older, PacketOf(t, k), i);
      case LoseUp(i) => RemoveKeepsOrder(l.up, olderAck, AckPacket(Wire(k)), i);
      case RepeatUp(i) => RepeatKeepsOrder(l.up, olderAck, AckPacket(Wire(k)), i);
      case Deliver =>
        if l.down != [] {
          DeliverKeeps(t, k, l);
        }
    }
  }

  lemma SendKeeps(t: Transfer, k: nat, l: Link)
    requires Coupled(t, k, l)
    ensures Coupled(t, k, l.(down := l.down + [PacketOf(t, k)]))
  {
    hide AckPacket, PacketOf;
  }

  // Taking an acknowledgement off the channel: either it is the awaited one, and then the client
  // holds block `k` and nothing older is left anywhere, or nothing is learnt.
  lemma AckKeeps(t: Transfer, k: nat, l: Link)
    requires Coupled(t, k, l) && l.up != []
    ensures var rest := l.(up := l.up[1..]);
      && Coupled(t, k, rest)
      && (IsAckFor(l.up[0], Wire(k)) ==>
            && l.client == Client(k, t.Prefix(k))
            && (forall i | 0 <= i < |rest.up| :: rest.up[i] == AckPacket(Wire(k)))
            && (k < t.Blocks() ==> Coupled(t, k + 1, rest)))
  {
    hide PacketOf;
    NeighboursDiffer(k);
    AcksDiffer(Wire(k), Wire(k + 1));
    AcksDiffer(Wire(k), Wire(k));
    if k >= 1 {
      NeighboursDiffer(k - 1);
      AcksDiffer(Wire(k - 1), Wire(k));
    }
    var rest := l.(up := l.up[1..]);
    hide AckPacket, IsAckFor;
    assert forall i | 0 <= i < |rest.up| :: rest.up[i] == l.up[i + 1];
    if IsAckFor(l.up[0], Wire(k)) {
      assert l.up[0] == AckPacket(Wire(k));
      assert l.up[0] in l.up;
    }
  }

  // ----- Every run ----------------------------------------------------------------------------

  datatype Action = Channel(e: Event) | Send | ReadAck

  // The composed system: the packet the sender is working on, and the link.
  datatype System = System(k: nat, link: Link)

  function Start(negotiated: bool): System {
    if negotiated then System(0, Link([], [], Client(-1, []))) else System(1, Link([], [], Client(0, [])))
  }

  ghost function Next(t: Transfer, s: System, a: Action): System
    requires Coupled(t, s.k, s.link)
  {
    match a
    case Channel(e) => s.(link := Happen(s.link, e))
    case Send => s.(link := s.link.(down := s.link.down + [PacketOf(t, s.k)]))
    case ReadAck =>
      if s.link.up == [] then s
      else
        var rest := s.link.(up := s.link.up[1..]);
        if IsAckFor(s.link.up[0], Wire(s.k)) && s.k < t.Blocks() then System(s.k + 1, rest) else s.(link := rest)
  }

  lemma NextKeeps(t: Transfer, s: System, a: Action)
    requires Coupled(t, s.k, s.link)
    ensures var s' := Next(t, s, a); Coupled(t, s'.k, s'.link)
  {
    match a {
      case Channel(e) => EventKeeps(t, s.k, s.link, e);
      case Send => SendKeeps(t, s.k, s.link);
      case ReadAck =>
        if s.link.up != [] {
          AckKeeps(t, s.k, s.link);
        }
    }
  }

  lemma StartIsCoupled(t: Transfer, negotiated: bool)
    requires t.Valid()
    ensures Coupled(t, Start(negotiated).k, Start(negotiated).link)
  {
  }

  ghost function Run(t: Transfer, s: System, actions: seq<Action>): (s': System)
    requires Coupled(t, s.k, s.link)
    ensures Coupled(t, s'.k, s'.link)
    decreases |actions|
  {
    hide Coupled, Next;
    if actions == [] then s
    else
      NextKeeps(t, s, actions[0]);
      Run(t, Next(t, s, actions[0]), actions[1..])
  }

  // Safety over whole runs, for files of any length: what the client holds is always exactly the
  // first blocks of the file, and the sender is never more than one block ahead of it.
  lemma EveryRunIsCoupled(t: Transfer, negotiated: bool, actions: seq<Action>)
    requires t.Valid()
    ensures Coupled(t, Start(negotiated).k, Start(negotiated).link)
    ensures var s := Run(t, Start(negotiated), actions);
      && s.k - 1 <= s.link.client.got <= s.k
      && s.link.client.data == t.Prefix(if s.link.client.got < 0 then 0 else s.link.client.got)
      && (s.k >= 1 ==> t.Prefix(s.k - 1) <= s.link.client.data <= t.Prefix(s.k))
  {
    hide Run, Coupled, Transfer.Blocks, Transfer.Block, Transfer.Prefix;
    StartIsCoupled(t, negotiated);
    var s := Run(t, Start(negotiated), actions);
    ClientHolds(t, s.k, s.link);
  }

  // What coupling says about the client alone.
  lemma ClientHolds(t: Transfer, k: nat, l: Link)
    requires Coupled(t, k, l)
    ensures k - 1 <= l.client.got <= k && l.client.data == t.Prefix(if l.client.got < 0 then 0 else l.client.got)
    ensures k >= 1 ==> t.Prefix(k - 1) <= l.client.data <= t.Prefix(k)
  {
    hide Ordered, AckPacket, PacketOf, Older, Wire, Transfer.Block;
    if k >= 1 {
      MulMonotone(k - 1, k, t.blockSize);
    }
  }
}
